/**
 * `core/clipper.py`: the command line for each output format and the background clip job.
 * The external tool's run, the creation of the output folder and the removal of the input
 * file are supplied as outcomes; the file system is the set of existing paths.
 */
module Clip {
  import opened Options
  import opened Events
  import NtPath

  const UnsupportedMessage := "Unsupported format"
  const FfmpegMissingMessage := "ffmpeg not found. Please ensure it is installed and in your system PATH."
  const SuccessPrefix := "Successfully created clip: "
  const FfmpegErrorPrefix := "FFmpeg error: "

  /** What the process run did: exited with a code and its error output, or raised. */
  datatype ToolResult = Exited(returnCode: int, stderr: string) | Raised(fault: Fault)

  /** The world the clip job meets: folder creation, the tool's run, and whether removal fails. */
  datatype ClipEnv = ClipEnv(mkdirFault: Option<Fault>, run: ToolResult, removeFails: bool)

  predicate IsSupported(format: string) {
    format == "MP4" || format == "MP3" || format == "GIF"
  }

  /** The arguments every command starts with: overwrite, input, start and end. */
  function Head(input: string, start: string, end: string): seq<string> {
    ["ffmpeg", "-y", "-i", input, "-ss", start, "-to", end]
  }

  /** The per-format command line; `None` for a format the clipper refuses. */
  function Command(input: string, output: string, start: string, end: string, format: string): (cmd: Option<seq<string>>)
    ensures cmd.Some? <==> IsSupported(format)
    ensures cmd.Some? ==> |cmd.value| > 8 && cmd.value[..8] == Head(input, start, end)
    ensures cmd.Some? ==> cmd.value[|cmd.value| - 1] == output
    ensures format == "MP4" ==> cmd.value[8..|cmd.value| - 1] == ["-c", "copy", "-avoid_negative_ts", "1"]
    ensures format == "MP3" ==> cmd.value[8..|cmd.value| - 1] == ["-vn", "-q:a", "0", "-map", "a"]
    ensures format == "GIF" ==> cmd.value[8..|cmd.value| - 1] == ["-vf", "fps=15,scale=480:-1:flags=lanczos", "-c", "gif"]
  {
    if format == "MP4" then
      Some(["ffmpeg", "-y", "-i", input, "-ss", start, "-to", end,
            "-c", "copy", "-avoid_negative_ts", "1", output])
    else if format == "MP3" then
      Some(["ffmpeg", "-y", "-i", input, "-ss", start, "-to", end,
            "-vn", "-q:a", "0", "-map", "a", output])
    else if format == "GIF" then
      Some(["ffmpeg", "-y", "-i", input, "-ss", start, "-to", end,
            "-vf", "fps=15,scale=480:-1:flags=lanczos", "-c", "gif", output])
    else None
  }

  /** A command line determines the format and every path and time it was built from. */
  lemma CommandInjective(input: string, output: string, start: string, end: string, format: string,
                         input': string, output': string, start': string, end': string, format': string)
    requires Command(input, output, start, end, format).Some?
    requires Command(input, output, start, end, format) == Command(input', output', start', end', format')
    ensures format == format' && input == input' && output == output' && start == start' && end == end'
  {
    var cmd := Command(input, output, start, end, format).value;
    assert cmd[3] == input && cmd[3] == input';
    assert cmd[5] == start && cmd[5] == start';
    assert cmd[7] == end && cmd[7] == end';
  }

  /** The tool ran and exited with code 0. */
  predicate Succeeded(run: ToolResult) {
    run.Exited? && run.returnCode == 0
  }

  function FaultEvent(f: Fault): Event {
    match f
    case FileNotFound => Error(FfmpegMissingMessage)
    case OtherFault(text) => Error(text)
  }

  /** The report once the tool has run. */
  function RunEvent(run: ToolResult, output: string): (e: Event)
    ensures IsTerminal(e)
    ensures e.Finished? <==> Succeeded(run)
    ensures Succeeded(run) ==> e == Finished(SuccessPrefix + NtPath.Basename(output))
    ensures run.Exited? && run.returnCode != 0 ==> e == Error(FfmpegErrorPrefix + run.stderr)
    ensures run.Raised? && run.fault.FileNotFound? ==> e == Error(FfmpegMissingMessage)
    ensures run.Raised? && run.fault.OtherFault? ==> e == Error(run.fault.text)
  {
    match run
    case Exited(code, stderr) =>
      if code == 0 then Finished(SuccessPrefix + NtPath.Basename(output))
      else Error(FfmpegErrorPrefix + stderr)
    case Raised(f) => FaultEvent(f)
  }

  /**
   * The reports of one clip job: an error alone when it fails before the tool starts,
   * else the announcement and then the tool's outcome. Exactly one terminal report, last.
   */
  function ClipEvents(output: string, format: string, mkdirFault: Option<Fault>, run: ToolResult): (es: seq<Event>)
    ensures 1 <= |es| <= 2
    ensures IsTerminal(es[|es| - 1])
    ensures forall i | 0 <= i < |es| - 1 :: es[i].Clipping?
    ensures |es| == 2 <==> mkdirFault.None? && IsSupported(format)
    ensures es[|es| - 1].Finished? <==> mkdirFault.None? && IsSupported(format) && Succeeded(run)
    ensures |es| == 2 ==> es[1] == RunEvent(run, output)
    ensures mkdirFault.None? && !IsSupported(format) ==> es == [Error(UnsupportedMessage)]
    ensures mkdirFault.Some? ==> es == [FaultEvent(mkdirFault.value)]
  {
    match mkdirFault
    case Some(f) => [FaultEvent(f)]
    case None =>
      if !IsSupported(format) then [Error(UnsupportedMessage)]
      else [Clipping("Running FFmpeg for " + format + "..."), RunEvent(run, output)]
  }

  /**
   * `Clipper.clip` with the body of its background thread: create the output folder,
   * build the command, announce, run, report, and in every case remove the input file.
   */
  method Clip(inputPath: string, outputPath: string, startTime: string, endTime: string,
              outputFormat: string, env: ClipEnv, files: set<string>)
    returns (events: seq<Event>, filesAfter: set<string>)
    ensures events == ClipEvents(outputPath, outputFormat, env.mkdirFault, env.run)
    ensures filesAfter == if inputPath in files && env.removeFails then files else files - {inputPath}
    ensures filesAfter <= files
  {
    events := RunJob(inputPath, outputPath, startTime, endTime, outputFormat, env);
    // finally: remove the downloaded input, a failure being only logged
    filesAfter := files;
    if inputPath in files && !env.removeFails {
      filesAfter := files - {inputPath};
    }
  }

  /** The `try` block and its handlers: the reports the clip job makes, in order. */
  method RunJob(inputPath: string, outputPath: string, startTime: string, endTime: string,
                outputFormat: string, env: ClipEnv)
    returns (events: seq<Event>)
    ensures events == ClipEvents(outputPath, outputFormat, env.mkdirFault, env.run)
  {
    match env.mkdirFault {
      case Some(f) =>
        events := [FaultEvent(f)];
      case None =>
        var command := Command(inputPath, outputPath, startTime, endTime, outputFormat);
        if command.None? {
          events := [FaultEvent(OtherFault(UnsupportedMessage))];
        } else {
          events := [Clipping("Running FFmpeg for " + outputFormat + "...")];
          var last: Event;
          match env.run {
            case Exited(code, stderr) =>
              last := if code == 0 then Finished(SuccessPrefix + NtPath.Basename(outputPath))
                      else Error(FfmpegErrorPrefix + stderr);
            case Raised(f) =>
              last := FaultEvent(f);
          }
          assert last == RunEvent(env.run, outputPath);
          events := events + [last];
        }
    }
  }
}
