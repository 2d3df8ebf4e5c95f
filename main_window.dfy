/**
 * `ui/main_window.py`: the `Worker` that runs one download-then-clip job and turns the
 * downloader's and the clipper's reports into one ordered stream of signals, and the check
 * the window makes before it starts a worker.
 */
module MainWindow {
  import opened Options
  import opened Events
  import opened PyStr
  import opened Helpers
  import opened Download
  import opened Clip
  import opened Seqs
  import NtPath

  const StartMessage := "Starting download..."
  const CompleteMessage := "Download complete. Starting clip..."
  const MissingInputMessage := "Fetch info and select an output folder first."
  const InvalidRangeMessage := "Invalid start/end time."

  /** A signal of the worker: `progress.emit(d)` or `finished.emit()`. */
  datatype Signal = Report(payload: Event) | Done

  /** The worker's constructor arguments. */
  datatype Job = Job(url: string, outputDir: string, startTime: string, endTime: string,
                     outputFormat: string, videoTitle: string)

  /** The clip's file name: sanitized title, both times without colons, lower-case format. */
  function ClipFilename(title: string, start: string, end: string, format: string): (name: string)
    ensures |name| >= |SanitizeFilename(title)| + |format| + 3
    ensures name[..|SanitizeFilename(title)| + 1] == SanitizeFilename(title) + "_"
    ensures name[|name| - |format| - 1..] == "." + Lower(format)
  {
    var head, tail := SanitizeFilename(title) + "_", "." + Lower(format);
    var middle := Without(start, ':') + "_" + Without(end, ':');
    Framed(head, middle, tail);
    head + middle + tail
  }

  /** Between the title and the format, the clip name holds the start and the end time, in that order, without colons. */
  lemma ClipFilenameTimes(title: string, start: string, end: string, format: string)
    ensures var name := ClipFilename(title, start, end, format);
      |name| >= |SanitizeFilename(title)| + |format| + 2
      && name[|SanitizeFilename(title)| + 1..|name| - |format| - 1] == Without(start, ':') + "_" + Without(end, ':')
  {
    var head, tail := SanitizeFilename(title) + "_", "." + Lower(format);
    FramedMiddle(head, Without(start, ':') + "_" + Without(end, ':'), tail);
  }

  /** The clip's path: its file name inside the job's output folder. */
  function OutputFilepath(job: Job): (path: string)
    ensures var name := ClipFilename(job.videoTitle, job.startTime, job.endTime, job.outputFormat);
      && |path| >= |job.outputDir| + |name|
      && path[..|job.outputDir|] == job.outputDir
      && path[|path| - |name|..] == name
  {
    NtPath.Join(job.outputDir, ClipFilename(job.videoTitle, job.startTime, job.endTime, job.outputFormat))
  }

  /** `handle_clipping_progress(d)`: forward, and signal the end on a terminal status. */
  function ClipSignal(d: Event): seq<Signal> {
    [Report(d)] + (if IsTerminal(d) then [Done] else [])
  }

  function ClipSignals(es: seq<Event>): seq<Signal>
    decreases |es|
  {
    if es == [] then [] else ClipSignals(es[..|es| - 1]) + ClipSignal(es[|es| - 1])
  }

  function JobClipEvents(job: Job, env: ClipEnv): seq<Event> {
    ClipEvents(OutputFilepath(job), job.outputFormat, env.mkdirFault, env.run)
  }

  /** `handle_progress(d)`: what one report of the downloader makes the worker signal. */
  function Reaction(job: Job, d: Event, env: ClipEnv): seq<Signal> {
    match d
    case Downloading(_, _) => [Report(d)]
    case FinishedDownload(_) => [Report(Info(CompleteMessage))] + ClipSignals(JobClipEvents(job, env))
    case Error(_) => [Report(d), Done]
    case _ => []
  }

  /** The reactions to a sequence of downloader reports, in order. */
  function Deliver(job: Job, ds: seq<Event>, env: ClipEnv): seq<Signal>
    decreases |ds|
  {
    if ds == [] then [] else Deliver(job, ds[..|ds| - 1], env) + Reaction(job, ds[|ds| - 1], env)
  }

  /** The downloaded files the clip stage is handed, which it then removes. */
  function Handed(ds: seq<Event>): set<string>
    decreases |ds|
  {
    if ds == [] then {}
    else Handed(ds[..|ds| - 1]) + (if ds[|ds| - 1].FinishedDownload? then {ds[|ds| - 1].filepath} else {})
  }

  /** The downloaded path the worker holds after a sequence of reports. */
  function Recorded(ds: seq<Event>, prior: Option<string>): Option<string>
    decreases |ds|
  {
    if ds == [] then prior
    else if ds[|ds| - 1].FinishedDownload? then Some(ds[|ds| - 1].filepath)
    else Recorded(ds[..|ds| - 1], prior)
  }

  /** Everything a worker signals for one job. */
  function RunSignals(job: Job, steps: seq<Step>, end: TransferEnd, env: ClipEnv): seq<Signal> {
    [Report(Info(StartMessage))] + Deliver(job, DownloadEvents(steps, end, job.outputDir), env)
  }

  /** The file system, as the set of existing paths. */
  class FileSystem {
    var paths: set<string>

    constructor (paths: set<string>)
      ensures this.paths == paths
    {
      this.paths := paths;
    }
  }

  class Worker {
    const url: string
    const outputDir: string
    const startTime: string
    const endTime: string
    const outputFormat: string
    const videoTitle: string
    const downloader: Downloader
    var downloadedFilepath: Option<string>
    var signals: seq<Signal>

    function JobOf(): Job {
      Job(url, outputDir, startTime, endTime, outputFormat, videoTitle)
    }

    constructor (url: string, outputDir: string, startTime: string, endTime: string,
                 outputFormat: string, videoTitle: string)
      ensures JobOf() == Job(url, outputDir, startTime, endTime, outputFormat, videoTitle)
      ensures fresh(downloader) && !downloader.stopDownload && downloader.hookCalls == []
      ensures downloadedFilepath == None && signals == []
    {
      this.url := url;
      this.outputDir := outputDir;
      this.startTime := startTime;
      this.endTime := endTime;
      this.outputFormat := outputFormat;
      this.videoTitle := videoTitle;
      this.downloader := new Downloader();
      this.downloadedFilepath := None;
      this.signals := [];
    }

    /** `handle_clipping_progress` */
    method HandleClippingProgress(d: Event)
      modifies this`signals
      ensures signals == old(signals) + ClipSignal(d)
    {
      signals := signals + [Report(d)];
      if d.Finished? || d.Error? {
        signals := signals + [Done];
      }
    }

    /** The clip job's reports reaching `handle_clipping_progress` as they are made. */
    method DeliverClip(events: seq<Event>)
      modifies this`signals
      ensures signals == old(signals) + ClipSignals(events)
    {
      for i := 0 to |events|
        invariant signals == old(signals) + ClipSignals(events[..i])
      {
        assert events[..i + 1][..i] == events[..i];
        HandleClippingProgress(events[i]);
      }
      assert events[..|events|] == events;
    }

    /** Name the clip, run the clip job on the downloaded file, and pass its reports on. */
    method StartClip(filepath: string, env: ClipEnv, fs: FileSystem)
      modifies this`signals, fs
      ensures signals == old(signals) + ClipSignals(JobClipEvents(JobOf(), env))
      ensures fs.paths == old(fs.paths) - (if env.removeFails then {} else {filepath})
    {
      var outputFilepath := NtPath.Join(outputDir, ClipFilename(videoTitle, startTime, endTime, outputFormat));
      assert outputFilepath == OutputFilepath(JobOf());
      var events, after := Clip.Clip(filepath, outputFilepath, startTime, endTime, outputFormat, env, fs.paths);
      assert events == JobClipEvents(JobOf(), env);
      assert filepath !in fs.paths ==> fs.paths - {filepath} == fs.paths;
      fs.paths := after;
      DeliverClip(events);
    }

    /** `handle_progress`, the clip job's reports delivered as they are made. */
    method HandleProgress(d: Event, env: ClipEnv, fs: FileSystem)
      modifies this`signals, this`downloadedFilepath, fs
      ensures signals == old(signals) + Reaction(JobOf(), d, env)
      ensures downloadedFilepath == if d.FinishedDownload? then Some(d.filepath) else old(downloadedFilepath)
      ensures fs.paths == old(fs.paths) - (if d.FinishedDownload? && !env.removeFails then {d.filepath} else {})
    {
      match d
      case Downloading(_, _) =>
        signals := signals + [Report(d)];
      case FinishedDownload(filepath) =>
        downloadedFilepath := Some(filepath);
        signals := signals + [Report(Info(CompleteMessage))];
        StartClip(filepath, env, fs);
        AppendAssoc(old(signals), [Report(Info(CompleteMessage))], ClipSignals(JobClipEvents(JobOf(), env)));
      case Error(_) =>
        signals := signals + [Report(d), Done];
      case _ =>
    }

    /** `run`, with the downloader's hook calls delivered to `handle_progress` in order. */
    method Run(steps: seq<Step>, end: TransferEnd, env: ClipEnv, fs: FileSystem)
      modifies this, downloader, fs
      ensures signals == old(signals) + RunSignals(JobOf(), steps, end, env)
      ensures fs.paths == old(fs.paths) - (if env.removeFails then {} else Handed(DownloadEvents(steps, end, outputDir)))
      ensures downloadedFilepath == Recorded(DownloadEvents(steps, end, outputDir), old(downloadedFilepath))
      ensures downloader.stopDownload == Replay(steps).stop
      ensures downloader.hookCalls == old(downloader.hookCalls) + DownloadEvents(steps, end, outputDir)
    {
      ghost var start := signals;
      signals := signals + [Report(Info(StartMessage))];
      var before := |downloader.hookCalls|;
      downloader.DownloadVideo(url, outputDir, steps, end);
      var calls := downloader.hookCalls[before..];
      assert calls == DownloadEvents(steps, end, outputDir);
      DeliverDownload(calls, env, fs);
      AppendAssoc(start, [Report(Info(StartMessage))], Deliver(JobOf(), calls, env));
    }

    /** The downloader's hook calls reaching `handle_progress` in order. */
    method DeliverDownload(calls: seq<Event>, env: ClipEnv, fs: FileSystem)
      modifies this`signals, this`downloadedFilepath, fs
      ensures signals == old(signals) + Deliver(JobOf(), calls, env)
      ensures fs.paths == old(fs.paths) - (if env.removeFails then {} else Handed(calls))
      ensures downloadedFilepath == Recorded(calls, old(downloadedFilepath))
    {
      for i := 0 to |calls|
        invariant signals == old(signals) + Deliver(JobOf(), calls[..i], env)
        invariant fs.paths == old(fs.paths) - (if env.removeFails then {} else Handed(calls[..i]))
        invariant downloadedFilepath == Recorded(calls[..i], old(downloadedFilepath))
      {
        ghost var job := JobOf();
        assert calls[..i + 1][..i] == calls[..i];
        assert Deliver(job, calls[..i + 1], env) == Deliver(job, calls[..i], env) + Reaction(job, calls[i], env);
        HandleProgress(calls[i], env, fs);
        AppendAssoc(old(signals), Deliver(job, calls[..i], env), Reaction(job, calls[i], env));
      }
      assert calls[..|calls|] == calls;
    }
  }

  // ---------------------------------------------------------------- properties of a job


  /** No signal ends the job and none reports an outcome. */
  predicate Quiet(sig: seq<Signal>) {
    forall i | 0 <= i < |sig| :: sig[i].Report? && !IsTerminal(sig[i].payload)
  }

  /**
   * `finished` is signalled exactly after a terminal report: it comes last, right after the
   * only terminal report, and every terminal report is followed by it.
   */
  predicate FinishedOnTerminal(sig: seq<Signal>) {
    && (forall i | 0 <= i < |sig| && sig[i] == Done ::
          i == |sig| - 1 && i > 0 && sig[i - 1].Report? && IsTerminal(sig[i - 1].payload))
    && (forall i | 0 <= i < |sig| && sig[i].Report? && IsTerminal(sig[i].payload) ::
          i == |sig| - 2 && sig[i + 1] == Done)
  }

  /** A quiet run of signals followed by one that ends on a terminal report and `finished`. */
  lemma QuietThenEnd(a: seq<Signal>, b: seq<Signal>)
    requires Quiet(a)
    requires |b| >= 2 && b[|b| - 1] == Done && b[|b| - 2].Report? && IsTerminal(b[|b| - 2].payload)
    requires Quiet(b[..|b| - 2])
    ensures FinishedOnTerminal(a + b)
  {
    var sig := a + b;
    assert forall i | 0 <= i < |a| :: sig[i] == a[i];
    assert forall i | |a| <= i < |sig| - 2 :: sig[i] == b[..|b| - 2][i - |a|];
  }

  lemma {:induction false} DeliverAppend(job: Job, a: seq<Event>, b: seq<Event>, env: ClipEnv)
    ensures Deliver(job, a + b, env) == Deliver(job, a, env) + Deliver(job, b, env)
    decreases |b|
  {
    if b == [] {
      assert a + b == a;
    } else {
      var init := b[..|b| - 1];
      assert (a + b)[..|a + b| - 1] == a + init;
      DeliverAppend(job, a, init, env);
    }
  }

  /** Reports passed on one for one. */
  function Forwarded(ds: seq<Event>): (sig: seq<Signal>)
    ensures |sig| == |ds|
    ensures forall i | 0 <= i < |ds| :: sig[i] == Report(ds[i])
    decreases |ds|
  {
    if ds == [] then [] else Forwarded(ds[..|ds| - 1]) + [Report(ds[|ds| - 1])]
  }

  /** Progress reports are forwarded one for one. */
  lemma {:induction false} DeliverDownloading(job: Job, ds: seq<Event>, env: ClipEnv)
    requires forall i | 0 <= i < |ds| :: ds[i].Downloading?
    ensures Deliver(job, ds, env) == Forwarded(ds)
    decreases |ds|
  {
    if ds != [] {
      DeliverDownloading(job, ds[..|ds| - 1], env);
    }
  }

  /** The clip stage signals an early error and the end, or the announcement, the outcome and the end. */
  lemma ClipStageSignals(job: Job, env: ClipEnv)
    ensures var es := JobClipEvents(job, env);
      && (|es| == 1 ==> ClipSignals(es) == [Report(es[0]), Done])
      && (|es| == 2 ==> ClipSignals(es) == [Report(es[0]), Report(es[1]), Done])
  {
    var es := JobClipEvents(job, env);
    if |es| == 2 {
      assert es[0].Clipping? && !IsTerminal(es[0]) && IsTerminal(es[1]);
      assert es[..1][..0] == [];
      assert es[..1] == [es[0]];
      assert ClipSignals(es[..1]) == [Report(es[0])];
    } else {
      assert es[..0] == [];
    }
  }

  /**
   * The stages of a job: the start notice, the forwarded progress reports, then whatever
   * the worker makes of the download's end report, if there is one.
   */
  lemma RunStages(job: Job, steps: seq<Step>, end: TransferEnd, env: ClipEnv)
    ensures var ups := Replay(steps).events;
      var o := Outcome(steps, end, job.outputDir);
      RunSignals(job, steps, end, env)
        == [Report(Info(StartMessage))] + Forwarded(ups) + (if o == [] then [] else Reaction(job, o[0], env))
  {
    var ups := Replay(steps).events;
    var o := Outcome(steps, end, job.outputDir);
    var tail := if o == [] then [] else Reaction(job, o[0], env);
    ReplayOnlyDownloading(steps);
    DeliverAppend(job, ups, o, env);
    DeliverDownloading(job, ups, env);
    assert Deliver(job, o, env) == tail by {
      if o != [] {
        DeliverOne(job, o[0], env);
        assert o == [o[0]];
      }
    }
    AppendAssoc([Report(Info(StartMessage))], Forwarded(ups), tail);
  }

  lemma DeliverOne(job: Job, d: Event, env: ClipEnv)
    ensures Deliver(job, [d], env) == Reaction(job, d, env)
  {
    assert [d][..0] == [];
  }

  /** What the worker makes of a download's end report: quiet signals, one outcome, `finished`. */
  lemma ReactionEnds(job: Job, d: Event, env: ClipEnv)
    requires d.FinishedDownload? || d.Error?
    ensures var r := Reaction(job, d, env);
      && |r| >= 2 && r[|r| - 1] == Done && r[|r| - 2].Report? && IsTerminal(r[|r| - 2].payload)
      && Quiet(r[..|r| - 2])
  {
    var r := Reaction(job, d, env);
    if d.FinishedDownload? {
      var es := JobClipEvents(job, env);
      var n := Report(Info(CompleteMessage));
      ReactionFound(job, d.filepath, env);
      ClipStageSignals(job, env);
      if |es| == 1 {
        assert r == [n] + [Report(es[0]), Done];
        QuietThenTerminal([n], es[0]);
      } else {
        assert r == [n, Report(es[0])] + [Report(es[1]), Done];
        QuietThenTerminal([n, Report(es[0])], es[1]);
      }
    } else {
      assert r == [] + [Report(d), Done];
      QuietThenTerminal([], d);
    }
  }

  /** Quiet signals, then a terminal report and `finished`. */
  lemma QuietThenTerminal(pre: seq<Signal>, x: Event)
    requires Quiet(pre) && IsTerminal(x)
    ensures var r := pre + [Report(x), Done];
      && |r| >= 2 && r[|r| - 1] == Done && r[|r| - 2].Report? && IsTerminal(r[|r| - 2].payload)
      && Quiet(r[..|r| - 2])
  {
    var r := pre + [Report(x), Done];
    assert r[..|r| - 2] == pre;
  }

  /** The start notice and the forwarded progress reports neither end the job nor report an outcome. */
  lemma ProgressQuiet(steps: seq<Step>)
    ensures Quiet([Report(Info(StartMessage))] + Forwarded(Replay(steps).events))
    ensures forall i | 0 <= i < |Replay(steps).events| :: Replay(steps).events[i].Downloading?
  {
    ReplayOnlyDownloading(steps);
    ForwardedQuiet(Replay(steps).events);
  }

  lemma ForwardedQuiet(ups: seq<Event>)
    requires forall i | 0 <= i < |ups| :: ups[i].Downloading?
    ensures Quiet([Report(Info(StartMessage))] + Forwarded(ups))
  {
    var f := Forwarded(ups);
    var a := [Report(Info(StartMessage))] + f;
    forall i | 0 <= i < |a|
      ensures a[i].Report? && !IsTerminal(a[i].payload)
    {
      if i > 0 {
        assert a[i] == f[i - 1] == Report(ups[i - 1]);
      }
    }
  }

  /** Every job signals `finished` exactly on its terminal report, at most once, at the end. */
  lemma RunFinishedOnTerminal(job: Job, steps: seq<Step>, end: TransferEnd, env: ClipEnv)
    ensures FinishedOnTerminal(RunSignals(job, steps, end, env))
  {
    var o := Outcome(steps, end, job.outputDir);
    var a := [Report(Info(StartMessage))] + Forwarded(Replay(steps).events);
    RunStages(job, steps, end, env);
    ProgressQuiet(steps);
    if o == [] {
      assert RunSignals(job, steps, end, env) == a + [];
    } else {
      ReactionEnds(job, o[0], env);
      QuietThenEnd(a, Reaction(job, o[0], env));
    }
  }

  /** A job signals `finished` unless the user interrupted its download. */
  lemma RunFinishesUnlessSilent(job: Job, steps: seq<Step>, end: TransferEnd, env: ClipEnv)
    ensures Done in RunSignals(job, steps, end, env) <==> !Silent(steps, end)
  {
    var sig := RunSignals(job, steps, end, env);
    var o := Outcome(steps, end, job.outputDir);
    var a := [Report(Info(StartMessage))] + Forwarded(Replay(steps).events);
    RunStages(job, steps, end, env);
    ProgressQuiet(steps);
    OutcomeSilent(steps, end, job.outputDir);
    if o == [] {
      assert sig == a;
      assert forall i | 0 <= i < |sig| :: sig[i] != Done;
    } else {
      ReactionEnds(job, o[0], env);
      assert sig[|sig| - 1] == Done;
    }
  }

  /**
   * Cancelling while ticks still follow: the job signals its start and the progress made
   * before the cancel, and nothing else; in particular never `finished`.
   */
  lemma CancelledJobNeverFinishes(job: Job, p: seq<Step>, q: seq<Step>, end: TransferEnd, env: ClipEnv)
    requires exists j | 0 <= j < |q| :: q[j].Progress?
    ensures RunSignals(job, p + [UserCancel] + q, end, env)
      == [Report(Info(StartMessage))] + Forwarded(Replay(p).events)
    ensures Quiet(RunSignals(job, p + [UserCancel] + q, end, env))
  {
    var ds := DownloadEvents(p + [UserCancel] + q, end, job.outputDir);
    CancelStopsReports(p, q, end, job.outputDir);
    assert ds == Replay(p).events;
    ProgressQuiet(p);
    DeliverDownloading(job, ds, env);
  }

  /** A failed download is reported once and followed by `finished`, with no clip started. */
  lemma DownloadFailureEndsJob(job: Job, steps: seq<Step>, end: TransferEnd, env: ClipEnv, message: string)
    requires Outcome(steps, end, job.outputDir) == [Error(message)]
    ensures var sig := RunSignals(job, steps, end, env);
      && |sig| >= 3 && sig[|sig| - 2..] == [Report(Error(message)), Done]
      && forall i | 0 <= i < |sig| :: !(sig[i].Report? && sig[i].payload.Clipping?)
  {
    FailureSignals(job, steps, end, env, message);
    FailureShape(steps, message);
  }

  lemma FailureSignals(job: Job, steps: seq<Step>, end: TransferEnd, env: ClipEnv, message: string)
    requires Outcome(steps, end, job.outputDir) == [Error(message)]
    ensures RunSignals(job, steps, end, env)
      == [Report(Info(StartMessage))] + Forwarded(Replay(steps).events) + [Report(Error(message)), Done]
  {
    EndReaction(job, steps, end, env, Error(message));
    assert Reaction(job, Error(message), env) == [Report(Error(message)), Done];
  }

  /** A download with an end report: the start notice, the forwarded progress, then the reaction to that report. */
  lemma EndReaction(job: Job, steps: seq<Step>, end: TransferEnd, env: ClipEnv, d: Event)
    requires Outcome(steps, end, job.outputDir) == [d]
    ensures RunSignals(job, steps, end, env)
      == [Report(Info(StartMessage))] + Forwarded(Replay(steps).events) + Reaction(job, d, env)
  {
    RunStages(job, steps, end, env);
  }

  /** The signals of a failed download: progress only, then the error and `finished`. */
  lemma FailureShape(steps: seq<Step>, message: string)
    ensures var sig := [Report(Info(StartMessage))] + Forwarded(Replay(steps).events) + [Report(Error(message)), Done];
      && |sig| >= 3 && sig[|sig| - 2..] == [Report(Error(message)), Done]
      && forall i | 0 <= i < |sig| :: !(sig[i].Report? && sig[i].payload.Clipping?)
  {
    var ups := Replay(steps).events;
    var f := Forwarded(ups);
    var a := [Report(Info(StartMessage))] + f;
    var sig := a + [Report(Error(message)), Done];
    ReplayOnlyDownloading(steps);
    EndsWithPair(sig, a, Report(Error(message)), Done);
    forall i | 0 <= i < |sig| ensures !(sig[i].Report? && sig[i].payload.Clipping?) {
      if i == 0 {
        assert sig[i] == Report(Info(StartMessage));
      } else if i < |a| {
        assert sig[i] == f[i - 1] == Report(ups[i - 1]);
      }
    }
  }

  // ---------------------------------------------------------------- the clip's name

  /** No separator and no colon: a text that `os.path.basename` returns whole. */
  predicate Plain(s: string) {
    NtPath.NoSep(s) && ':' !in s
  }

  /** Concatenation keeps separators and colons out. */
  lemma PlainConcat(a: string, b: string)
    requires Plain(a) && Plain(b)
    ensures Plain(a + b)
  {
    var s := a + b;
    forall i | 0 <= i < |s| ensures !NtPath.IsSep(s[i]) {
      if i < |a| { assert s[i] == a[i]; } else { assert s[i] == b[i - |a|]; }
    }
  }

  /** Lower-casing keeps separators and colons out of a text that has none. */
  lemma LowerPlain(s: string)
    requires Plain(s)
    ensures Plain(Lower(s))
  {
    var r := Lower(s);
    forall i | 0 <= i < |r| ensures !NtPath.IsSep(r[i]) && r[i] != ':' {
      assert s[i] in s;
    }
  }

  /** Removing the colons from a text without separators leaves a plain text. */
  lemma WithoutPlain(s: string)
    requires NtPath.NoSep(s)
    ensures Plain(Without(s, ':'))
  {
    var r := Without(s, ':');
    forall i | 0 <= i < |r| ensures !NtPath.IsSep(r[i]) {
      WithoutKeepsFrom(s, ':', r[i]);
    }
  }

  /** A sanitized title is plain: both separators and the colon are reserved characters. */
  lemma SanitizedPlain(title: string)
    ensures Plain(SanitizeFilename(title))
  {
    var t := SanitizeFilename(title);
    forall i | 0 <= i < |t| ensures !NtPath.IsSep(t[i]) && t[i] != ':' {
      assert !IsReserved(t[i]);
    }
  }

  /** With plain times and format, the clip's name has no separator and no colon. */
  lemma ClipFilenamePlain(title: string, start: string, end: string, format: string)
    requires NtPath.NoSep(start) && NtPath.NoSep(end) && Plain(format)
    ensures Plain(ClipFilename(title, start, end, format))
  {
    SanitizedPlain(title);
    WithoutPlain(start);
    WithoutPlain(end);
    LowerPlain(format);
    PlainConcat(SanitizeFilename(title), "_");
    PlainConcat(Without(start, ':'), "_");
    PlainConcat(Without(start, ':') + "_", Without(end, ':'));
    PlainConcat(SanitizeFilename(title) + "_", Without(start, ':') + "_" + Without(end, ':'));
    PlainConcat(".", Lower(format));
    PlainConcat(SanitizeFilename(title) + "_" + (Without(start, ':') + "_" + Without(end, ':')), "." + Lower(format));
  }

  /** A clip job that gets to run its tool successfully reports the clip by its file name. */
  lemma SuccessfulClipEvents(job: Job, env: ClipEnv)
    requires env.mkdirFault.None? && IsSupported(job.outputFormat) && Succeeded(env.run)
    requires NtPath.NoSep(job.startTime) && NtPath.NoSep(job.endTime)
    ensures JobClipEvents(job, env) == [
      Clipping("Running FFmpeg for " + job.outputFormat + "..."),
      Finished(SuccessPrefix + ClipFilename(job.videoTitle, job.startTime, job.endTime, job.outputFormat))]
  {
    var name := ClipFilename(job.videoTitle, job.startTime, job.endTime, job.outputFormat);
    var out := OutputFilepath(job);
    ClipNamed(job);
    assert RunEvent(env.run, out) == Finished(SuccessPrefix + name);
    assert JobClipEvents(job, env) == [Clipping("Running FFmpeg for " + job.outputFormat + "..."), RunEvent(env.run, out)];
  }

  /** The base name of the clip's path is the name the worker chose. */
  lemma ClipNamed(job: Job)
    requires IsSupported(job.outputFormat)
    requires NtPath.NoSep(job.startTime) && NtPath.NoSep(job.endTime)
    ensures NtPath.Basename(OutputFilepath(job)) == ClipFilename(job.videoTitle, job.startTime, job.endTime, job.outputFormat)
  {
    assert Plain(job.outputFormat) by {
      assert job.outputFormat in {"MP4", "MP3", "GIF"};
    }
    ClipFilenamePlain(job.videoTitle, job.startTime, job.endTime, job.outputFormat);
    NtPath.BasenameJoin(job.outputDir, ClipFilename(job.videoTitle, job.startTime, job.endTime, job.outputFormat));
  }

  /**
   * A job whose download is found, whose folder is created and whose tool exits with 0:
   * announce, then report the clip by the file name the worker chose, then `finished`.
   */
  lemma SuccessfulJobNamesClip(job: Job, steps: seq<Step>, end: TransferEnd, env: ClipEnv, filepath: string)
    requires Outcome(steps, end, job.outputDir) == [FinishedDownload(filepath)]
    requires env.mkdirFault.None? && IsSupported(job.outputFormat) && Succeeded(env.run)
    requires NtPath.NoSep(job.startTime) && NtPath.NoSep(job.endTime)
    ensures var sig := RunSignals(job, steps, end, env);
      var name := ClipFilename(job.videoTitle, job.startTime, job.endTime, job.outputFormat);
      |sig| >= 5 && sig[|sig| - 4..] == [
        Report(Info(CompleteMessage)),
        Report(Clipping("Running FFmpeg for " + job.outputFormat + "...")),
        Report(Finished(SuccessPrefix + name)),
        Done]
  {
    var a := [Report(Info(StartMessage))] + Forwarded(Replay(steps).events);
    var r := Reaction(job, FinishedDownload(filepath), env);
    SuccessTail(job, env, filepath);
    assert RunSignals(job, steps, end, env) == a + r by {
      RunStages(job, steps, end, env);
    }
    assert (a + r)[|a + r| - 4..] == r;
  }

  lemma SuccessTail(job: Job, env: ClipEnv, filepath: string)
    requires env.mkdirFault.None? && IsSupported(job.outputFormat) && Succeeded(env.run)
    requires NtPath.NoSep(job.startTime) && NtPath.NoSep(job.endTime)
    ensures Reaction(job, FinishedDownload(filepath), env) == [
        Report(Info(CompleteMessage)),
        Report(Clipping("Running FFmpeg for " + job.outputFormat + "...")),
        Report(Finished(SuccessPrefix + ClipFilename(job.videoTitle, job.startTime, job.endTime, job.outputFormat))),
        Done]
  {
    var es := JobClipEvents(job, env);
    var c := Clipping("Running FFmpeg for " + job.outputFormat + "...");
    var f := Finished(SuccessPrefix + ClipFilename(job.videoTitle, job.startTime, job.endTime, job.outputFormat));
    SuccessfulClipEvents(job, env);
    assert es == [c, f];
    ClipStageSignals(job, env);
    assert ClipSignals(es) == [Report(c), Report(f), Done];
    ReactionFound(job, filepath, env);
    PrependOne(Report(Info(CompleteMessage)), ClipSignals(es), Report(c), Report(f), Done);
  }

  lemma ReactionFound(job: Job, filepath: string, env: ClipEnv)
    ensures Reaction(job, FinishedDownload(filepath), env)
      == [Report(Info(CompleteMessage))] + ClipSignals(JobClipEvents(job, env))
  {
  }

  // ---------------------------------------------------------------- the window's check

  /** What the window knows about the fetched video. */
  datatype VideoInfo = VideoInfo(title: string, duration: Option<nat>, thumbnailUrl: Option<string>)

  /** The outcome of the check; `TypeErrorRaised` is the comparison of an end time with no duration. */
  datatype Verdict = Rejected(reason: string) | Accepted(startSec: int, endSec: int) | TypeErrorRaised

  /** The check in `start_clipping` before a worker is started. */
  function CheckRequest(info: Option<VideoInfo>, outputFolder: string, startText: string, endText: string): (v: Verdict)
    ensures v.Accepted? <==>
      && info.Some? && outputFolder != [] && HmsToSeconds(startText) < HmsToSeconds(endText)
      && info.value.duration.Some? && HmsToSeconds(endText) <= info.value.duration.value
    ensures v.TypeErrorRaised? <==>
      info.Some? && outputFolder != [] && HmsToSeconds(startText) < HmsToSeconds(endText) && info.value.duration.None?
    ensures v.Accepted? ==> v.startSec == HmsToSeconds(startText) && v.endSec == HmsToSeconds(endText)
    ensures v.Rejected? && (info.None? || outputFolder == []) ==> v.reason == MissingInputMessage
    ensures v.Rejected? && info.Some? && outputFolder != [] ==> v.reason == InvalidRangeMessage
  {
    if info.None? || outputFolder == [] then Rejected(MissingInputMessage)
    else
      var startSec := HmsToSeconds(startText);
      var endSec := HmsToSeconds(endText);
      if startSec >= endSec then Rejected(InvalidRangeMessage)
      else
        match info.value.duration
        case None => TypeErrorRaised
        case Some(duration) => if endSec > duration then Rejected(InvalidRangeMessage) else Accepted(startSec, endSec)
  }

  /**
   * The range the window fills in after a fetch, from 00:00:00 to the printed duration, is
   * accepted as the whole video once a folder is chosen, for any video at least a second long.
   */
  lemma DefaultRangeAccepted(info: VideoInfo, outputFolder: string)
    requires info.duration.Some? && info.duration.value >= 1 && outputFolder != []
    ensures CheckRequest(Some(info), outputFolder, SecondsToHms(Some(0)), SecondsToHms(info.duration))
      == Accepted(0, info.duration.value)
  {
    HmsRoundTrip(0);
    HmsRoundTrip(info.duration.value);
  }
}
