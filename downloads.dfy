/**
 * `FileDownload`: the first stage of a job. It fetches the source video
 * (unless it was uploaded with the request) and probes it; the later
 * stages wait for its `complete` flag and read its probe report.
 */
module Downloads {
  import opened Common
  import opened Text
  import opened Probe

  datatype DownloadState = DownloadState(downloaded: bool, complete: bool, failed: bool, probeInfo: Option<ProbeInfo>)

  /**
   * What `Download` leaves behind. `fetchOk` says whether fetching the URL
   * succeeds, `probeOutput` is what the probe prints and `decoded` what the
   * deserialiser makes of it. Every exception is caught inside `Download`:
   * a failed fetch changes nothing, an empty probe output marks the stage
   * complete and failed, an unreadable one stops before `complete` is set.
   */
  function DownloadStep(st: DownloadState, fetchOk: bool, probeOutput: Option<string>, decoded: Decoded): DownloadState
  {
    if !st.downloaded && !fetchOk then st
    else if st.probeInfo.Some? then st.(downloaded := true, complete := true)
    else if IsNullOrEmpty(probeOutput) then st.(complete := true, failed := true)
    else if decoded.Unreadable? then st
    else st.(downloaded := true, complete := true, probeInfo := decoded.info)
  }

  /** A failed fetch leaves the stage as it was: still incomplete and not failed. */
  lemma FetchFailureChangesNothing(st: DownloadState, probeOutput: Option<string>, decoded: Decoded)
    requires !st.downloaded
    ensures DownloadStep(st, false, probeOutput, decoded) == st
  {
  }

  /** An empty probe output makes the stage complete and failed, and leaves the report unset. */
  lemma EmptyProbeFails(st: DownloadState, fetchOk: bool, probeOutput: Option<string>, decoded: Decoded)
    requires st.downloaded || fetchOk
    requires st.probeInfo.None? && IsNullOrEmpty(probeOutput)
    ensures var r := DownloadStep(st, fetchOk, probeOutput, decoded);
      r.complete && r.failed && r.probeInfo.None?
  {
  }

  /** A report that decodes makes the stage complete with that report, without failing it. */
  lemma ProbeSucceeds(st: DownloadState, fetchOk: bool, out: string, p: ProbeInfo)
    requires st.downloaded || fetchOk
    requires st.probeInfo.None? && out != ""
    ensures var r := DownloadStep(st, fetchOk, Some(out), Parsed(Some(p)));
      r.complete && r.downloaded && r.failed == st.failed && r.probeInfo == Some(p)
  {
  }

  /** Once a report exists the probe is not run again, whatever it would print. */
  lemma ProbeSkippedWhenKnown(st: DownloadState, fetchOk: bool, o1: Option<string>, d1: Decoded, o2: Option<string>, d2: Decoded)
    requires st.probeInfo.Some?
    ensures DownloadStep(st, fetchOk, o1, d1) == DownloadStep(st, fetchOk, o2, d2)
    ensures DownloadStep(st, fetchOk, o1, d1).probeInfo == st.probeInfo
  {
  }

  /** `Download` never clears a failure, a report or the downloaded flag. */
  lemma DownloadMonotone(st: DownloadState, fetchOk: bool, probeOutput: Option<string>, decoded: Decoded)
    ensures var r := DownloadStep(st, fetchOk, probeOutput, decoded);
      (st.failed ==> r.failed) && (st.complete ==> r.complete) && (st.downloaded ==> r.downloaded)
  {
  }

  /**
   * The stages after the download wait for its `complete` flag. A fetch
   * that throws, or a report that cannot be deserialised, leaves the flag
   * unset for good, so every stage waiting for it waits forever.
   */
  lemma DownloadStaysIncomplete(st: DownloadState, fetchOk: bool, probeOutput: Option<string>, decoded: Decoded)
    requires !st.complete
    ensures !DownloadStep(st, fetchOk, probeOutput, decoded).complete <==>
      (!st.downloaded && !fetchOk) ||
      (st.probeInfo.None? && !IsNullOrEmpty(probeOutput) && decoded.Unreadable?)
  {
  }

  /**
   * `Download` as it evidently should end: every exception it catches
   * marks the stage complete and failed, so the stages waiting for it are
   * released. Otherwise it is the step above.
   */
  function IntendedDownloadStep(st: DownloadState, fetchOk: bool, probeOutput: Option<string>, decoded: Decoded): DownloadState
  {
    var r := DownloadStep(st, fetchOk, probeOutput, decoded);
    if r.complete then r else r.(complete := true, failed := true)
  }

  /**
   * The intended `Download` always completes the stage; it fails it
   * exactly when the step as written either fails it or leaves it
   * waiting, and agrees with the step as written whenever that completes.
   */
  lemma IntendedDownloadSettles(st: DownloadState, fetchOk: bool, probeOutput: Option<string>, decoded: Decoded)
    ensures var r := IntendedDownloadStep(st, fetchOk, probeOutput, decoded);
      var w := DownloadStep(st, fetchOk, probeOutput, decoded);
      && r.complete
      && (r.failed <==> w.failed || !w.complete)
      && (w.complete ==> r == w)
      && (!st.complete && !st.downloaded && !fetchOk ==> r.failed && r.probeInfo == st.probeInfo)
  {
  }

  class FileDownload {
    const id: string
    const url: Option<string>
    const workingDir: string
    const dest: string
    var downloaded: bool
    var complete: bool
    var failed: bool
    var probeInfo: Option<ProbeInfo>

    function State(): DownloadState
      reads this
    {
      DownloadState(downloaded, complete, failed, probeInfo)
    }

    /** A download of `url` into `workingDir + dest`: nothing is fetched yet. */
    constructor FromUrl(token: string, url: string, workingDir: string, dest: string)
      ensures this.id == token && this.url == Some(url) && this.workingDir == workingDir && this.dest == dest
      ensures State() == DownloadState(false, false, false, None)
    {
      id, this.url, this.workingDir, this.dest := token, Some(url), workingDir, dest;
      downloaded, complete, failed, probeInfo := false, false, false, None;
    }

    /** A file that came with the request: it counts as downloaded, so it is never fetched. */
    constructor Staged(token: string, workingDir: string, dest: string)
      ensures this.id == token && this.url == None && this.workingDir == workingDir && this.dest == dest
      ensures State() == DownloadState(true, false, false, None)
    {
      id, url, this.workingDir, this.dest := token, None, workingDir, dest;
      downloaded, complete, failed, probeInfo := true, false, false, None;
    }

    /**
     * `Download`. `fetched` says whether the URL was fetched and `probeArgs`
     * is the probe's command line when the probe was run.
     */
    method Download(fetchOk: bool, probeOutput: Option<string>, decoded: Decoded)
      returns (fetched: bool, probeArgs: Option<string>)
      modifies this
      ensures State() == DownloadStep(old(State()), fetchOk, probeOutput, decoded)
      ensures fetched <==> !old(downloaded)
      ensures probeArgs.Some? <==> (old(downloaded) || fetchOk) && old(probeInfo).None?
      ensures probeArgs.Some? ==> probeArgs.value == ProbeArguments(workingDir + dest)
    {
      fetched, probeArgs := false, None;
      if !downloaded {
        fetched := true;
        if !fetchOk {
          return; // the fetch throws
        }
      }
      if probeInfo.None? {
        probeArgs := Some(ProbeArguments(workingDir + dest));
        if IsNullOrEmpty(probeOutput) {
          complete := true;
          failed := true;
          return; // the JobFailureException is caught at once
        }
        if decoded.Unreadable? {
          return;
        }
        probeInfo := decoded.info;
      }
      downloaded := true;
      complete := true;
    }
  }
}
