/**
 * `core/downloader.py`: the download stage. The transfer itself is supplied as a script:
 * the progress ticks the fetch library reports, interleaved with the moments the user asks
 * to cancel, followed by either the directory listing seen afterwards or the text of the
 * exception the transfer raised.
 */
module Download {
  import opened Options
  import opened PyStr
  import opened Events
  import opened Seqs
  import NtPath

  const TempFilename := "downloaded_video"
  const InterruptMessage := "Interrupted by user"
  const NotFoundMessage := "Downloaded file not found."

  /** A progress dictionary handed to the hook; an absent or `None` byte count is 0. */
  datatype Tick = Tick(status: string, totalBytes: nat, totalBytesEstimate: nat, downloadedBytes: nat)

  /** One moment of a transfer: a tick reaches the hook, or the user calls `cancel_download`. */
  datatype Step = Progress(tick: Tick) | UserCancel

  /** How the transfer ends when no tick raised: a listing of the output folder, or an exception. */
  datatype TransferEnd = Completed(listing: seq<string>) | Raised(message: string)

  /** `d.get('total_bytes') or d.get('total_bytes_estimate', 0)` */
  function TotalOf(t: Tick): (total: nat)
    ensures t.totalBytes != 0 ==> total == t.totalBytes
    ensures t.totalBytes == 0 ==> total == t.totalBytesEstimate
    ensures total == 0 <==> t.totalBytes == 0 && t.totalBytesEstimate == 0
  {
    if t.totalBytes != 0 then t.totalBytes else t.totalBytesEstimate
  }

  /** What `_on_progress` passes on for a tick while the stop flag is clear. */
  function TickEvents(t: Tick): (es: seq<Event>)
    ensures |es| <= 1
    ensures es != [] <==> t.status == "downloading" && TotalOf(t) > 0
    ensures es != [] ==> es[0].Downloading? && es[0].totalBytes == TotalOf(t)
    ensures es != [] ==> es[0].percent * (TotalOf(t) as real) == (t.downloadedBytes as real) * 100.0
    ensures es != [] && t.downloadedBytes <= TotalOf(t) ==> 0.0 <= es[0].percent <= 100.0
  {
    var total := TotalOf(t);
    if t.status == "downloading" && total > 0 then
      var percent := (t.downloadedBytes as real) / (total as real) * 100.0;
      assert t.downloadedBytes <= total ==> (t.downloadedBytes as real) / (total as real) <= 1.0;
      [Downloading(percent, total)]
    else []
  }

  /** The state of a transfer after some of its steps. */
  datatype Feeding = Feeding(events: seq<Event>, stop: bool, interrupted: bool)

  /** One step: a cancel sets the flag; a tick raises if the flag is set, else reports. */
  function Feed(f: Feeding, step: Step): Feeding {
    if f.interrupted then f
    else
      match step
      case UserCancel => f.(stop := true)
      case Progress(t) => if f.stop then f.(interrupted := true) else f.(events := f.events + TickEvents(t))
  }

  /** The steps of a transfer started by `download_video`, which first clears the flag. */
  function Replay(steps: seq<Step>): Feeding
    decreases |steps|
  {
    if steps == [] then Feeding([], false, false)
    else Feed(Replay(steps[..|steps| - 1]), steps[|steps| - 1])
  }

  /** The `except` branch: an interruption is swallowed, anything else reported. */
  function Handler(message: string): (es: seq<Event>)
    ensures es == [] <==> Contains(message, InterruptMessage)
    ensures es != [] ==> es == [Error(message)]
  {
    if Contains(message, InterruptMessage) then [] else [Error(message)]
  }

  /** The first listed name starting with the temporary base name. */
  function FirstMatch(listing: seq<string>): (found: Option<string>)
    ensures found.None? <==> forall i | 0 <= i < |listing| :: !StartsWith(listing[i], TempFilename)
    ensures found.Some? ==> exists i | 0 <= i < |listing| ::
      && listing[i] == found.value
      && StartsWith(listing[i], TempFilename)
      && forall j | 0 <= j < i :: !StartsWith(listing[j], TempFilename)
  {
    if listing == [] then None
    else if StartsWith(listing[0], TempFilename) then Some(listing[0])
    else
      var rest := FirstMatch(listing[1..]);
      if rest.Some? then
        ghost var i :| 0 <= i < |listing[1..]| && listing[1..][i] == rest.value
          && StartsWith(listing[1..][i], TempFilename)
          && forall j | 0 <= j < i :: !StartsWith(listing[1..][j], TempFilename);
        assert listing[i + 1] == rest.value;
        rest
      else rest
  }

  /** What is reported once the transfer is over and no tick raised. */
  function AfterTransfer(end: TransferEnd, outputPath: string): (es: seq<Event>)
    ensures end.Raised? ==> es == Handler(end.message)
    ensures end.Completed? && FirstMatch(end.listing).Some? ==>
      es == [FinishedDownload(NtPath.Join(outputPath, FirstMatch(end.listing).value))]
    ensures end.Completed? && FirstMatch(end.listing).None? ==> es == [Error(NotFoundMessage)]
  {
    match end
    case Raised(message) => Handler(message)
    case Completed(listing) =>
      match FirstMatch(listing)
      case Some(name) => [FinishedDownload(NtPath.Join(outputPath, name))]
      case None => [Error(NotFoundMessage)]
  }

  /** The last, non-progress report of a download: nothing, one found file, or one error. */
  function Outcome(steps: seq<Step>, end: TransferEnd, outputPath: string): (es: seq<Event>)
    ensures |es| <= 1
    ensures es != [] ==> es[0].FinishedDownload? || es[0].Error?
    ensures !Replay(steps).interrupted && end.Completed? ==>
      match FirstMatch(end.listing)
      case Some(name) => es == [FinishedDownload(NtPath.Join(outputPath, name))]
      case None => es == [Error(NotFoundMessage)]
    ensures !Replay(steps).interrupted && end.Raised? ==> es == Handler(end.message)
    ensures Replay(steps).interrupted ==> es == []
  {
    InterruptMessageContained();
    if Replay(steps).interrupted then Handler(InterruptMessage) else AfterTransfer(end, outputPath)
  }

  /** Everything a download passes to its hook, in order. */
  function DownloadEvents(steps: seq<Step>, end: TransferEnd, outputPath: string): seq<Event> {
    Replay(steps).events + Outcome(steps, end, outputPath)
  }

  /** A download says nothing at the end exactly when it was interrupted by the user. */
  predicate Silent(steps: seq<Step>, end: TransferEnd) {
    Replay(steps).interrupted || (end.Raised? && Contains(end.message, InterruptMessage))
  }

  // ---------------------------------------------------------------- properties of a transfer

  lemma InterruptMessageContained()
    ensures Contains(InterruptMessage, InterruptMessage)
  {
    assert InterruptMessage[..|InterruptMessage|] == InterruptMessage;
  }

  /** No end report is made exactly when the download is silent. */
  lemma OutcomeSilent(steps: seq<Step>, end: TransferEnd, outputPath: string)
    ensures Outcome(steps, end, outputPath) == [] <==> Silent(steps, end)
  {
    InterruptMessageContained();
  }

  /** Before the end report, only `downloading` events are passed on. */
  lemma {:induction false} ReplayOnlyDownloading(steps: seq<Step>)
    ensures forall i | 0 <= i < |Replay(steps).events| :: Replay(steps).events[i].Downloading?
    decreases |steps|
  {
    if steps != [] {
      ReplayOnlyDownloading(steps[..|steps| - 1]);
    }
  }

  /** Once a tick has raised, later steps change nothing. */
  lemma {:induction false} InterruptedStays(p: seq<Step>, q: seq<Step>)
    requires Replay(p).interrupted
    ensures Replay(p + q) == Replay(p)
    decreases |q|
  {
    if q == [] {
      assert p + q == p;
    } else {
      var init := q[..|q| - 1];
      assert (p + q)[..|p + q| - 1] == p + init;
      InterruptedStays(p, init);
    }
  }

  /**
   * After a cancel the hook receives nothing more from the ticks: the flag stays set, and
   * the first tick that follows raises.
   */
  lemma {:induction false} AfterCancel(p: seq<Step>, q: seq<Step>)
    ensures var f := Replay(p + [UserCancel] + q);
      && f.events == Replay(p).events
      && (f.interrupted || f.stop)
      && ((exists j | 0 <= j < |q| :: q[j].Progress?) ==> f.interrupted)
    decreases |q|
  {
    var s := p + [UserCancel] + q;
    if q == [] {
      assert s[..|s| - 1] == p;
    } else {
      var init := q[..|q| - 1];
      assert s[..|s| - 1] == p + [UserCancel] + init;
      AfterCancel(p, init);
      if exists j | 0 <= j < |q| :: q[j].Progress? {
        var j :| 0 <= j < |q| && q[j].Progress?;
        if j < |q| - 1 {
          assert init[j].Progress?;
        }
      }
    }
  }

  /**
   * Cancelling during a transfer: once a tick follows the cancel, the hook receives nothing
   * that came after the cancel, and no end report is made at all.
   */
  lemma CancelStopsReports(p: seq<Step>, q: seq<Step>, end: TransferEnd, outputPath: string)
    requires exists j | 0 <= j < |q| :: q[j].Progress?
    ensures Replay(p + [UserCancel] + q).interrupted
    ensures DownloadEvents(p + [UserCancel] + q, end, outputPath) == Replay(p).events
  {
    AfterCancel(p, q);
    InterruptMessageContained();
  }

  /** Cancelling after the last tick comes too late: the download reports as if never cancelled. */
  lemma LateCancelIgnored(p: seq<Step>, end: TransferEnd, outputPath: string)
    ensures DownloadEvents(p + [UserCancel], end, outputPath) == DownloadEvents(p, end, outputPath)
  {
    assert (p + [UserCancel])[..|p|] == p;
  }


  // ---------------------------------------------------------------- the downloader object

  /** `Downloader`, with its progress hook's calls recorded in `hookCalls`. */
  class Downloader {
    var stopDownload: bool
    var hookCalls: seq<Event>

    constructor ()
      ensures !stopDownload && hookCalls == []
    {
      stopDownload := false;
      hookCalls := [];
    }

    /** `cancel_download`: sets the flag whatever it was, so calling it again changes nothing. */
    method CancelDownload()
      modifies this`stopDownload
      ensures stopDownload
    {
      stopDownload := true;
    }

    /** `_on_progress`: raises (the returned text) when the flag is set, else reports the tick. */
    method OnProgress(t: Tick) returns (raised: Option<string>)
      modifies this`hookCalls
      ensures raised == (if stopDownload then Some(InterruptMessage) else None)
      ensures hookCalls == old(hookCalls) + (if stopDownload then [] else TickEvents(t))
    {
      if stopDownload {
        return Some(InterruptMessage);
      }
      raised := None;
      if t.status == "downloading" {
        var total := TotalOf(t);
        if total > 0 {
          var percent := (t.downloadedBytes as real) / (total as real) * 100.0;
          hookCalls := hookCalls + [Downloading(percent, total)];
        }
      }
    }

    /** The scan of the output folder for the file the transfer produced. */
    method LocateDownload(listing: seq<string>) returns (found: Option<string>)
      ensures found == FirstMatch(listing)
    {
      for i := 0 to |listing|
        invariant FirstMatch(listing) == FirstMatch(listing[i..])
      {
        assert listing[i..][1..] == listing[i + 1..];
        if StartsWith(listing[i], TempFilename) {
          return Some(listing[i]);
        }
      }
      return None;
    }

    /** The transfer proper: each step in turn, until a tick raises. */
    method Transfer(steps: seq<Step>) returns (raised: Option<string>)
      requires !stopDownload
      modifies this
      ensures hookCalls == old(hookCalls) + Replay(steps).events
      ensures stopDownload == Replay(steps).stop
      ensures raised == (if Replay(steps).interrupted then Some(InterruptMessage) else None)
    {
      raised := None;
      var i := 0;
      while i < |steps| && raised.None?
        invariant 0 <= i <= |steps|
        invariant hookCalls == old(hookCalls) + Replay(steps[..i]).events
        invariant stopDownload == Replay(steps[..i]).stop
        invariant raised == (if Replay(steps[..i]).interrupted then Some(InterruptMessage) else None)
        decreases |steps| - i
      {
        ghost var before := Replay(steps[..i]);
        assert steps[..i + 1][..i] == steps[..i];
        assert Replay(steps[..i + 1]) == Feed(before, steps[i]);
        match steps[i] {
          case UserCancel =>
            CancelDownload();
          case Progress(t) =>
            raised := OnProgress(t);
        }
        i := i + 1;
      }
      if i < |steps| {
        InterruptedStays(steps[..i], steps[i..]);
        assert steps[..i] + steps[i..] == steps;
      } else {
        assert steps[..i] == steps;
      }
    }

    /**
     * `download_video` followed by the body of its background thread: clear the flag, run
     * the transfer, then report the file found or the failure.
     */
    method DownloadVideo(url: string, outputPath: string, steps: seq<Step>, end: TransferEnd)
      modifies this
      ensures hookCalls == old(hookCalls) + DownloadEvents(steps, end, outputPath)
      ensures stopDownload == Replay(steps).stop
    {
      ghost var start := hookCalls;
      stopDownload := false;
      var raised := Transfer(steps);
      Conclude(outputPath, end, raised);
      assert (if raised.Some? then Handler(raised.value) else AfterTransfer(end, outputPath))
        == Outcome(steps, end, outputPath);
      AppendAssoc(start, Replay(steps).events, Outcome(steps, end, outputPath));
    }

    /** After the transfer: the listing scan, and the `except` branch for what was raised. */
    method Conclude(outputPath: string, end: TransferEnd, raised: Option<string>)
      modifies this`hookCalls
      ensures hookCalls == old(hookCalls) +
        (if raised.Some? then Handler(raised.value) else AfterTransfer(end, outputPath))
    {
      var failure := raised;
      if failure.None? {
        match end
        case Raised(message) =>
          failure := Some(message);
        case Completed(listing) =>
          var found := LocateDownload(listing);
          match found
          case Some(name) =>
            hookCalls := hookCalls + [FinishedDownload(NtPath.Join(outputPath, name))];
          case None =>
            hookCalls := hookCalls + [Error(NotFoundMessage)];
      }
      if failure.Some? && !Contains(failure.value, InterruptMessage) {
        hookCalls := hookCalls + [Error(failure.value)];
      }
    }
  }
}
