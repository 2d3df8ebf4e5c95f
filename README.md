# yt-clipper core, modelled in Dafny

yt-clipper is a desktop tool that downloads a YouTube video and cuts a clip out of it
with FFmpeg. A background `Worker` runs one job: it announces the start, lets the
`Downloader` fetch the video into the output folder as a temporary file, forwards the
download progress, and once the download is found hands it to the `Clipper`. The
clipper builds an FFmpeg command line for the chosen format (MP4, MP3 or GIF), runs
it, reports success or failure, and removes the temporary file. The worker forwards
each progress report and each clip report as a `progress` signal. It replaces a found
download by a notice that the clip starts, and drops reports of any other status. It
emits `finished` right after the report that ends the job. Before a job starts, the window checks that video information was fetched,
that an output folder was chosen and that the requested time range lies inside the video.
The helpers convert between seconds and `HH:MM:SS` text and strip the characters
Windows forbids in file names.

The model has one module per source file plus small modules for the Python and
Windows library behaviour the core relies on:

- `Options`, `Events` — an option type; the progress dictionaries as an `Event` datatype.
- `Seqs` — four small facts about sequence concatenation and slicing that the larger
  proofs cite.
- `PyStr` — `str.split`, `str.replace(c, '')`, ASCII `str.lower`, `startswith` and `in`.
- `NtPath` — `os.path.join` and `os.path.basename` as they behave on Windows (the
  clipper starts FFmpeg with a Windows-only creation flag).
- `Helpers` — `utils/helpers.py`.
- `Download` — `core/downloader.py`: the `Downloader` class with its stop flag and the
  record of what its progress hook received.
- `Clip` — `core/clipper.py`.
- `MainWindow` — the `Worker` class and the window's check before a job starts, from
  `ui/main_window.py`.

The outside world is an input. A download is a script of `Step`s: the progress ticks
the fetch library reports, with the moments the user calls `cancel_download` between
them. It is followed by a `TransferEnd`, which is either the folder listing seen after
the transfer or the text of the exception the transfer raised. A clip job meets a
`ClipEnv`: the fault `os.makedirs` raises, if any, what the FFmpeg process did, and
whether removing the input fails. The file system is a `FileSystem` object holding the
set of existing paths.

The program uses four threads: the window's, the worker's `QThread`, the download thread and
the clip thread. Its hooks are callbacks. The model records the downloader's hook calls in `hookCalls`. `Worker.Run`
then hands them to `HandleProgress` in the order they were made. The clip job's reports
go to `HandleClippingProgress` in the same way. The signals come out in the order the
program emits them.

`sanitize_filename` removes only the nine reserved characters and keeps spaces, so the
title "My Clip" with the range `00:00:10` to `00:00:20` gives the clip name
`My Clip_000010_000020.mp4`. `MainWindow.ClipFilename` and `MainWindow.ClipFilenameTimes`
state that layout: the sanitized title, `_`, the start time without colons, `_`, the end
time without colons, `.` and the lower-cased format.

## Model

| member | source | states |
|---|---|---|
| `PyStr.Split` | utils/helpers.py:15 | `str.split(sep)` yields at least one part and no part contains the separator |
| `PyStr.SplitJoin` | utils/helpers.py:15 | joining the parts of a split with the separator gives back the text |
| `PyStr.Without` | ui/main_window.py:49 | `replace(':', '')` leaves no colon and never lengthens; every other character occurs exactly as often as before (multiset), and a text without a colon is unchanged |
| `PyStr.WithoutConcat` | ui/main_window.py:49 | removing a character from a concatenation is concatenating the parts with it removed, so the kept characters stay in order |
| `PyStr.Lower` | ui/main_window.py:49 | `lower()` keeps the length and maps exactly the ASCII capitals to small letters, position by position |
| `NtPath.Join` | ui/main_window.py:50 | the joined path is the folder followed by the name, either directly or with one `\` between them; directly exactly when the folder is empty, ends with a separator, or is a bare drive such as `C:` |
| `NtPath.Basename` | core/clipper.py:38 | the base name holds no separator and is a suffix of the path, never reaching into a leading drive; unless it is the whole path, the character before it is a separator or the colon of a leading drive |
| `NtPath.BasenameJoin` | core/clipper.py:38 | the base name of a folder joined with a plain name (no separator, no colon) is that name, for every folder, with or without a drive or a trailing separator |
| `Helpers.NatToDigits` | utils/helpers.py:10 | the decimal text of `n` has at least one digit, starts with `0` only for 0, and has two or more digits exactly from 10 on |
| `Helpers.DigitsRoundTrip` | utils/helpers.py:10-15 | reading back the decimal text of `n` gives `n` |
| `Helpers.Pad2` | utils/helpers.py:10 | `{:02}` gives a leading `0` and the digit below 10, and from 10 on the plain decimal text, so it never truncates |
| `Helpers.Pad2RoundTrip` | utils/helpers.py:10-15 | a zero-padded field reads back as the number it was printed from |
| `Helpers.Decompose` | utils/helpers.py:7-9 | minutes and seconds are below 60, hours are not capped, and the three fields recombine to the duration |
| `Helpers.SecondsToHms` | utils/helpers.py:3-10 | no duration gives `00:00:00`; every result has at least eight characters |
| `Helpers.SecondsToHmsExample` | utils/helpers.py:3-10 | 3661 seconds print as `01:01:01` |
| `Helpers.ParseInt` | utils/helpers.py:15 | `int(segment)` succeeds exactly when the segment is an optional sign followed by one or more digits, and then gives the decimal value of the digits, negated after a minus |
| `Helpers.ParseAll` | utils/helpers.py:15 | `list(map(int, parts))` gives every part's value in order, or fails exactly when some part fails |
| `Helpers.HmsToSeconds` | utils/helpers.py:12-20 | a text of exactly three segments that all parse reads as hours × 3600 + minutes × 60 + seconds; any other number of segments, or a segment that does not parse, reads as 0 |
| `Helpers.HmsToSecondsExample` | utils/helpers.py:12-20 | `01:01:01` reads as 3661 seconds |
| `Helpers.HmsToSecondsNoColon` | utils/helpers.py:12-20 | a text without colons, such as `bad`, reads as 0 |
| `Helpers.HmsToSecondsTwoFields` | utils/helpers.py:12-20 | a text of two segments, such as `1:2`, reads as 0 |
| `Helpers.ParsePad2` | utils/helpers.py:10-15 | a padded field parses back to its number |
| `Helpers.SecondsToHmsFields` | utils/helpers.py:3-15 | the printed duration splits into exactly three padded fields holding its hours, minutes and seconds |
| `Helpers.HmsRoundTrip` | utils/helpers.py:3-20 | converting a duration to text and back gives the duration |
| `Helpers.SanitizeFilename` | utils/helpers.py:22-24 | the result holds none of the nine characters Windows reserves in file names, and is no longer than the name |
| `Helpers.SanitizeConcat` | utils/helpers.py:22-24 | sanitizing a concatenation is concatenating the sanitized parts, so the kept characters stay in order |
| `Helpers.SanitizeKeepsOthers` | utils/helpers.py:22-24 | every other character occurs exactly as often as in the name; reserved ones do not occur |
| `Helpers.SanitizeFixedPoint` | utils/helpers.py:22-24 | a name is unchanged exactly when it holds no reserved character |
| `Helpers.SanitizeIdempotent` | utils/helpers.py:22-24 | sanitizing twice is sanitizing once |
| `Download.TotalOf` | core/downloader.py:72 | the total is the exact size when that is non-zero, else the estimate; it is zero exactly when both are zero |
| `Download.TickEvents` | core/downloader.py:71-81 | a tick is passed on exactly when its status is `downloading` and its total (exact, else estimated) is positive; it then carries that total and the percentage `downloaded × 100 / total`, within [0, 100] when no more was downloaded than the total |
| `Download.Handler` | core/downloader.py:58-61 | an exception is swallowed exactly when its text contains "Interrupted by user", else reported as one error with its text |
| `Download.FirstMatch` | core/downloader.py:48-53 | the first listed name starting with `downloaded_video`; none exactly when no name does |
| `Download.AfterTransfer` | core/downloader.py:47-61 | after a completed transfer the hook receives the output folder joined with the first name starting with `downloaded_video`, or the error "Downloaded file not found." when none does; after a raised transfer it receives what `Handler` makes of the exception |
| `Download.Outcome` | core/downloader.py:47-61 | after the transfer at most one report is made, either the found file or an error. A tick interrupted by a cancel leaves nothing to report. A raised transfer reports what the `except` branch makes of its text. A completed transfer reports the folder joined with the first matching name, or "Downloaded file not found." when no name matches |
| `Download.OutcomeSilent` | core/downloader.py:58-61 | no end report is made exactly when a tick raised after a cancel, or the transfer raised an interruption |
| `Download.ReplayOnlyDownloading` | core/downloader.py:66-81 | during the transfer the hook only receives `downloading` reports |
| `Download.InterruptedStays` | core/downloader.py:66-69 | once a tick has raised, the transfer is over: later steps change nothing |
| `Download.AfterCancel` | core/downloader.py:66-84 | after a cancel the hook receives nothing more from the ticks, the flag stays set, and the next tick raises |
| `Download.CancelStopsReports` | core/downloader.py:58-84 | a cancel followed by a tick leaves the hook with exactly the reports made before the cancel, and no end report |
| `Download.LateCancelIgnored` | core/downloader.py:66-84 | a cancel after the last tick changes nothing the hook receives |
| `Download.Downloader.constructor` | core/downloader.py:8-9 | a new downloader has its flag clear and its hook has received nothing; the program itself first sets `stop_download` in `download_video` (core/downloader.py:28), before any tick can read it, so starting it clear changes no behaviour |
| `Download.Downloader.CancelDownload` | core/downloader.py:83-84 | the stop flag is set, whatever it was |
| `Download.Downloader.OnProgress` | core/downloader.py:66-81 | with the flag set the tick raises "Interrupted by user" and nothing is reported; otherwise the hook receives what `TickEvents` gives |
| `Download.Downloader.LocateDownload` | core/downloader.py:48-53 | the folder scan returns the first name starting with `downloaded_video` |
| `Download.Downloader.Transfer` | core/downloader.py:43-45 | the steps are fed in order until a tick raises; the hook record, the flag and what was raised agree with the step-by-step reference `Replay` |
| `Download.Downloader.DownloadVideo` | core/downloader.py:26-61 | the hook receives the transfer's progress reports followed by the end report, and the flag ends as the steps left it |
| `Download.Downloader.Conclude` | core/downloader.py:47-61 | after the transfer the hook receives the found file's joined path, "Downloaded file not found.", or what the `except` branch makes of the exception |
| `Clip.Command` | core/clipper.py:14-30 | a command exists exactly for MP4, MP3 and GIF; it starts with the overwrite, input, start and end arguments, ends with the output path, and holds the format's own codec arguments in between |
| `Clip.CommandInjective` | core/clipper.py:14-28 | a command line determines the format, both paths and both times it was built from |
| `Clip.RunEvent` | core/clipper.py:34-45 | the report once FFmpeg has run ends the job: exit code 0 gives `finished` with "Successfully created clip: " and the output's base name; another code gives `error` with "FFmpeg error: " and the error output; a missing FFmpeg gives the not-found message; any other fault gives its own text |
| `Clip.ClipEvents` | core/clipper.py:12-45 | a clip job reports one or two events, the last one ending the job and any other a `clipping` notice; a folder fault is reported alone, as is "Unsupported format"; with two events the second is `RunEvent`; success exactly when the folder was created, the format is supported and FFmpeg exited with 0 |
| `Clip.Clip` | core/clipper.py:8-51 | the job reports `ClipEvents`, and the input file is gone afterwards unless it existed and removing it failed |
| `Clip.RunJob` | core/clipper.py:11-45 | the events the job reports, made step by step, are exactly `ClipEvents` for its folder fault, format and FFmpeg run |
| `MainWindow.Worker.constructor` | ui/main_window.py:23-34 | the worker holds its job, a fresh downloader with a clear flag, no downloaded path and no signals |
| `MainWindow.Worker.HandleClippingProgress` | ui/main_window.py:64-67 | each clip report is forwarded, followed by `finished` exactly when it is `finished` or `error` |
| `MainWindow.Worker.DeliverClip` | ui/main_window.py:52-67 | the clip job's reports reach the worker in order, each handled as above |
| `MainWindow.Worker.StartClip` | ui/main_window.py:48-59 | the clip is named from the job, its reports are forwarded, and the downloaded file is removed unless removal fails |
| `MainWindow.Worker.HandleProgress` | ui/main_window.py:41-62 | progress is forwarded; a found download is recorded, announced and clipped; an error is forwarded and followed by `finished`; anything else is ignored |
| `MainWindow.Worker.Run` | ui/main_window.py:36-39 | a job signals the start notice followed by the worker's reactions to every hook call of the download, records the last downloaded path and removes every downloaded file it clipped; the downloader's hook record grows by exactly the download's reports and its flag ends as the steps leave it |
| `MainWindow.Worker.DeliverDownload` | ui/main_window.py:36-62 | the downloader's hook calls reach `handle_progress` in order |
| `MainWindow.DeliverAppend` | ui/main_window.py:41-62 | the worker reacts to each report on its own: the reactions to two runs of reports are concatenated |
| `MainWindow.DeliverDownloading` | ui/main_window.py:42-43 | progress reports are forwarded unchanged, one signal each |
| `MainWindow.ClipStageSignals` | ui/main_window.py:64-67 | the clip stage forwards its one or two reports and ends with `finished` |
| `MainWindow.RunStages` | ui/main_window.py:36-62 | a job signals the start notice, then the forwarded progress, then the worker's reaction to the download's end report, if one is made |
| `MainWindow.ReactionEnds` | ui/main_window.py:41-67 | the reaction to a found download or a download error ends with one report that ends the job, then `finished`, and nothing before them ends it |
| `MainWindow.ProgressQuiet` | ui/main_window.py:36-43 | the start notice and the forwarded progress never end the job |
| `MainWindow.RunFinishedOnTerminal` | ui/main_window.py:36-67 | in every job `finished` comes last and right after the only report that ends the job, and every such report is followed by it |
| `MainWindow.RunFinishesUnlessSilent` | ui/main_window.py:36-67 | a job signals `finished` exactly when its download is not interrupted by the user |
| `MainWindow.CancelledJobNeverFinishes` | ui/main_window.py:36-43 | a job cancelled before a further tick signals only the start notice and the progress before the cancel, and never `finished` |
| `MainWindow.DownloadFailureEndsJob` | ui/main_window.py:60-62 | a failed download ends the job with its error and `finished`, and no clip is started |
| `MainWindow.FailureSignals` | ui/main_window.py:36-62 | a job whose download ends in an error signals the start notice, the forwarded progress, the error and `finished` |
| `MainWindow.EndReaction` | ui/main_window.py:36-62 | a job whose download makes one end report signals the start notice, the forwarded progress, then the worker's reaction to that report |
| `MainWindow.FailureShape` | ui/main_window.py:42-62 | those signals end with the error and `finished`, and none of them is a `clipping` report |
| `MainWindow.ClipFilename` | ui/main_window.py:48-49 | the clip name begins with the sanitized title and `_`, ends with `.` and the lower-cased format, and is long enough to hold both around the two times |
| `MainWindow.ClipFilenameTimes` | ui/main_window.py:49 | between the sanitized title with its `_` and the `.` with the format, the clip name holds the start time without colons, `_`, and the end time without colons, in that order |
| `MainWindow.OutputFilepath` | ui/main_window.py:50 | the output path begins with the output folder and ends with the clip name |
| `MainWindow.ClipFilenamePlain` | ui/main_window.py:48-49 | a clip name built from times and a format without separators holds no separator and no colon, whatever the title |
| `MainWindow.SuccessfulClipEvents` | ui/main_window.py:48-59 | a successful clip job reports the clip by exactly the file name the worker chose: sanitized title, both times without colons, lower-case format |
| `MainWindow.ClipNamed` | ui/main_window.py:48-50 | for a supported format and times without separators, the base name of the output path is exactly the clip name the worker built, whatever the folder |
| `MainWindow.SuccessTail` | ui/main_window.py:44-67 | a found download is followed by the completion notice, the FFmpeg notice, the success report and `finished` when the clip succeeds |
| `MainWindow.SuccessfulJobNamesClip` | ui/main_window.py:41-67 | a job whose download is found and whose clip succeeds ends with those four signals |
| `MainWindow.CheckRequest` | ui/main_window.py:221-231 | a request is accepted exactly when information was fetched, a folder was given, the start is before the end and the end is within a known duration, and then carries both times in seconds; with a valid order but no known duration the comparison raises `TypeError`; a refusal says what is missing or that the range is invalid |
| `MainWindow.DefaultRangeAccepted` | ui/main_window.py:195-198 | the range the window fills in after fetching, from `00:00:00` to the printed duration, is accepted as the whole video for any known duration of at least a second, once a folder is chosen |

## Left out

- The Qt window itself: layout, themes, the progress bar, the status line, the thumbnail
  download with `requests`, and `browse_folder`. Only the check in `start_clipping` is modelled.
- `Downloader.fetch_video_info` and the whole yt-dlp library: the transfer is an input
  script of progress ticks and cancels, ending in a folder listing or an exception text.
- The FFmpeg process and `os.makedirs`: their outcomes are inputs (`ClipEnv`). The clip
  file FFmpeg writes is not added to the modelled file system.
- Threads and their interleaving: the hook calls are delivered in the order they were
  made, and `cancel_download` happens only at the points between ticks that the script gives.
- A `Downloader` built without a hook, as in `fetch_video_info`: every modelled
  downloader records its hook calls.
- `Download.Tick`: an absent byte count is 0, and a `None` total falls back to the estimate
  as `or` does. A `None` estimate with no total, or a `None` downloaded count with a positive
  total, raises `TypeError` at core/downloader.py:73-75; byte counts are never `None` here.
- `Download.TickEvents`: the percentage is an exact real, not a floating-point value.
  `TickEvents` forwards whatever byte counts the library reports, so no ordering between
  ticks is proved.
- The progress dictionaries are one `Event` datatype: the downloader's error uses the key
  `error` and the clipper's the key `message`; both become `Error(message)`.
- `Helpers.SecondsToHms`: durations are whole seconds; fractional durations are not modelled.
- `Helpers.ParseInt`: Python's `int` also accepts surrounding white space, underscores
  between digits and non-ASCII digits; the model accepts only an optional sign and ASCII digits.
- `PyStr.Lower`: only ASCII letters are lowered; Unicode case mapping is not modelled.
- `NtPath.Join`: a second component with a drive or a root, and UNC paths, are not modelled.
- `MainWindow.CheckRequest`: the window does not check that the start is not negative, and
  neither does the model; a fractional duration is not modelled; worker thread creation after
  the check is not modelled.
- `MainWindow.DefaultRangeAccepted`: the end field's input mask `99:99:99`
  (ui/main_window.py:123-125) holds only two hour digits, so the field keeps the printed
  duration only below 100 hours; the lemma is about the printed text and does not model the mask.
