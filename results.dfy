/**
 * `TranscoderResult`: the record of one transcoding task that the service
 * reports to its clients. Its property setters change the status, the
 * progress, the segment list and the result file; assigning the result
 * file probes it and copies the bit rate, size and duration out of the
 * probe's report.
 */
module Results {
  import opened Common
  import opened Text
  import opened Probe
  import opened Hls

  /** The figures copied out of a probe report. */
  datatype Measures = Measures(bitRate: int, width: int, height: int, duration: int)

  /** Everything a result's setters can change. Times are whole seconds. */
  datatype ResultState = ResultState(
    status: string,
    percentComplete: int,
    hasSegments: bool,
    segments: Option<seq<string>>,
    resultVideo: Option<string>,  // the file name, unset until a checked file is assigned
    playList: Option<string>,
    measures: Measures,
    fileSize: int,
    startTime: int,
    finishTime: int,
    timeProcessed: int)

  /** The URL under which a job's published file `name` is served. */
  function PublishedUrl(cfg: Config, jobID: string, name: string): (r: string)
    ensures EndsWith(r, "/" + name)
    ensures MoveMode(cfg) ==> StartsWith(r, cfg.serveUrl + cfg.videoDestination + "/" + jobID + "/")
    ensures !MoveMode(cfg) ==> StartsWith(r, cfg.videoDestination + "/")
  {
    if MoveMode(cfg) then cfg.serveUrl + cfg.videoDestination + "/" + jobID + "/" + name
    else cfg.videoDestination + "/" + name
  }

  // ---------------------------------------------------------- probe fields

  /** A bit rate that is present but that `Int32.Parse` refuses (it throws). */
  predicate BadRate(t: Option<string>) { t.Some? && ParseInt(t.value).None? }

  /** A scan of the streams either finishes or stops at a throwing bit rate, with what it had copied so far. */
  datatype Scan = Scanned(m: Measures) | Raised(m: Measures)

  /**
   * The `foreach` over the streams: each video stream's bit rate, width and
   * height, when present, overwrite what was copied before.
   */
  function ScanStreams(m: Measures, ss: seq<StreamInfo>): (r: Scan)
    ensures r.Raised? <==> exists i :: 0 <= i < |ss| && IsVideo(ss[i]) && BadRate(ss[i].bitRate)
    ensures r.m.duration == m.duration
    decreases |ss|
  {
    if ss == [] then Scanned(m)
    else
      var s := ss[0];
      var r := if !IsVideo(s) then ScanStreams(m, ss[1..])
        else if BadRate(s.bitRate) then Raised(m)
        else ScanStreams(StreamStep(m, s), ss[1..]);
      assert forall i :: 1 <= i < |ss| ==> ss[i] == ss[1..][i - 1];
      r
  }

  /** One step of the scan, as the loop takes it. */
  lemma ScanUnfold(m: Measures, ss: seq<StreamInfo>)
    ensures ss == [] ==> ScanStreams(m, ss) == Scanned(m)
    ensures ss != [] ==> ScanStreams(m, ss) == (if !IsVideo(ss[0]) then ScanStreams(m, ss[1..])
                                                 else if BadRate(ss[0].bitRate) then Raised(m)
                                                 else ScanStreams(StreamStep(m, ss[0]), ss[1..]))
  {
  }

  function StreamStep(m: Measures, s: StreamInfo): Measures
    requires !BadRate(s.bitRate)
  {
    m.(bitRate := if s.bitRate.Some? then ParseInt(s.bitRate.value).value else m.bitRate,
       width := if s.width.Some? then s.width.value else m.width,
       height := if s.height.Some? then s.height.value else m.height)
  }

  /** The width of the last video stream that reports one, or `w` when none does (a reference definition). */
  function LastVideoWidth(ss: seq<StreamInfo>, w: int): int
    decreases |ss|
  {
    if ss == [] then w
    else if IsVideo(ss[|ss| - 1]) && ss[|ss| - 1].width.Some? then ss[|ss| - 1].width.value
    else LastVideoWidth(ss[..|ss| - 1], w)
  }

  lemma {:induction false} ScanWidthFrom(m: Measures, ss: seq<StreamInfo>)
    requires ScanStreams(m, ss).Scanned?
    ensures ScanStreams(m, ss).m.width == LastVideoWidth(ss, m.width)
    decreases |ss|
  {
    if ss != [] {
      var s := ss[0];
      var m1 := if IsVideo(s) then StreamStep(m, s) else m;
      assert IsVideo(s) ==> !BadRate(s.bitRate);
      assert ScanStreams(m, ss) == ScanStreams(m1, ss[1..]);
      assert ss == [s] + ss[1..];
      ScanWidthFrom(m1, ss[1..]);
      LastVideoWidthCons(s, ss[1..], m.width);
    }
  }

  lemma {:induction false} LastVideoWidthCons(s: StreamInfo, rest: seq<StreamInfo>, w: int)
    ensures LastVideoWidth([s] + rest, w) ==
      LastVideoWidth(rest, if IsVideo(s) && s.width.Some? then s.width.value else w)
    decreases |rest|
  {
    if rest != [] {
      var ss := [s] + rest;
      assert ss[..|ss| - 1] == [s] + rest[..|rest| - 1];
      LastVideoWidthCons(s, rest[..|rest| - 1], w);
    } else {
      assert ([s] + rest)[..0] == [];
    }
  }

  /** What assigning a result file does once the probe has answered. */
  datatype Probed = Probed(m: Measures, failed: bool, raised: bool)

  /**
   * The checks of the `ResultVideo` setter on the decoded report: missing
   * data sets `failed`, a bit rate `Int32.Parse` refuses throws; the
   * format's bit rate is read after the streams' and so overrides them.
   */
  function ApplyProbe(m: Measures, info: Option<ProbeInfo>): (r: Probed)
    ensures info.None? ==> r == Probed(m, true, false)
    ensures info.Some? && (info.value.streams.None? || info.value.format.None?) && !r.raised ==> r.failed
    ensures info.Some? && info.value.streams.Some? && info.value.format.Some? ==> !r.failed
  {
    if info.None? then Probed(m, true, false)
    else
      var p := info.value;
      var scan := if p.streams.Some? then ScanStreams(m, p.streams.value) else Scanned(m);
      if scan.Raised? then Probed(scan.m, false, true)
      else
        var failed := p.streams.None?;
        if p.format.None? then Probed(scan.m, true, false)
        else
          var f := FormatStep(scan.m, p.format.value);
          if f.None? then Probed(scan.m, failed, true) else Probed(f.value, failed, false)
  }

  /**
   * The format's bit rate, then its duration (whole seconds, truncated);
   * `None` when the bit rate throws.
   */
  function FormatStep(m: Measures, f: FormatInfo): (r: Option<Measures>)
    ensures r.None? <==> BadRate(f.bitRate)
    ensures r.Some? ==> r.value.width == m.width && r.value.height == m.height
  {
    if BadRate(f.bitRate) then None
    else
      var m2 := m.(bitRate := if f.bitRate.Some? then ParseInt(f.bitRate.value).value else m.bitRate);
      Some(m2.(duration := if f.duration.Some? then Truncate(f.duration.value) else m2.duration))
  }

  /** The format's bit rate, when it parses, is the one a result keeps. */
  lemma FormatBitRateWins(m: Measures, p: ProbeInfo, t: string, b: int)
    requires p.format.Some? && p.format.value.bitRate == Some(t) && ParseInt(t) == Some(b)
    requires !ApplyProbe(m, Some(p)).raised
    ensures ApplyProbe(m, Some(p)).m.bitRate == b
  {
  }

  /** Width and height come only from the video streams: the width is the last one a video stream reports. */
  lemma WidthFromVideoStreams(m: Measures, p: ProbeInfo)
    requires p.streams.Some? && !ApplyProbe(m, Some(p)).raised
    ensures ApplyProbe(m, Some(p)).m.width == LastVideoWidth(p.streams.value, m.width)
  {
    ScanWidthFrom(m, p.streams.value);
  }

  /** The setter throws exactly when some video stream's or the format's bit rate does not parse. */
  lemma ProbeRaises(m: Measures, p: ProbeInfo)
    requires p.streams.Some? && p.format.Some?
    ensures ApplyProbe(m, Some(p)).raised <==>
      (exists i :: 0 <= i < |p.streams.value| && IsVideo(p.streams.value[i]) && BadRate(p.streams.value[i].bitRate))
      || BadRate(p.format.value.bitRate)
  {
  }

  /**
   * What the `ResultVideo` setter leaves behind, and whether it throws. A
   * missing file, or a probe that prints nothing, fails the result and
   * leaves the file unset; otherwise the report's figures are copied and
   * the file is stored unless a bit rate throws first.
   */
  function ResultVideoStep(st: ResultState, value: string, fileExists: bool, fileLength: int,
                           probeOutput: Option<string>, decoded: Decoded): (ResultState, bool)
  {
    if !fileExists then (st.(status := "Failed"), false)
    else if IsNullOrEmpty(probeOutput) then (st.(status := "Failed", fileSize := fileLength), false)
    else
      var p := ApplyProbe(st.measures, if decoded.Parsed? then decoded.info else None);
      (st.(fileSize := fileLength, measures := p.m,
           status := if p.failed then "Failed" else st.status,
           resultVideo := if p.raised then st.resultVideo else Some(value)), p.raised)
  }

  /**
   * The setter's checks: without a file or a probe output the file stays
   * unset and the result fails; once it returns normally the file is
   * stored; it never touches the status otherwise than to fail it, nor the
   * progress, segments, playlist or times.
   */
  lemma ResultVideoChecks(st: ResultState, value: string, fileExists: bool, fileLength: int,
                          probeOutput: Option<string>, decoded: Decoded)
    ensures var (r, raised) := ResultVideoStep(st, value, fileExists, fileLength, probeOutput, decoded);
      && (!fileExists || IsNullOrEmpty(probeOutput) ==> !raised && r.status == "Failed" && r.resultVideo == st.resultVideo)
      && (fileExists && !IsNullOrEmpty(probeOutput) && !raised ==> r.resultVideo == Some(value))
      && (r.status == st.status || r.status == "Failed")
      && r.percentComplete == st.percentComplete && r.segments == st.segments && r.hasSegments == st.hasSegments
      && r.playList == st.playList && r.startTime == st.startTime && r.finishTime == st.finishTime
      && r.timeProcessed == st.timeProcessed
  {
  }

  /** A report the deserialiser cannot read fails the result but still stores the file. */
  lemma UnreadableReportFails(st: ResultState, value: string, fileLength: int, out: string)
    requires out != ""
    ensures var (r, raised) := ResultVideoStep(st, value, true, fileLength, Some(out), Unreadable);
      !raised && r.status == "Failed" && r.resultVideo == Some(value) && r.fileSize == fileLength
  {
  }

  // ------------------------------------------------------------- the record

  class TranscoderResult {
    const jobID: string
    const taskID: string
    const workingDir: string
    var status: string
    var percentComplete: int
    var hasSegments: bool
    var segments: Option<seq<string>>
    var resultVideo: Option<string>
    var playList: Option<string>
    var bitRate: int
    var width: int
    var height: int
    var duration: int
    var fileSize: int
    var startTime: int
    var finishTime: int
    var timeProcessed: int

    function State(): ResultState
      reads this
    {
      ResultState(status, percentComplete, hasSegments, segments, resultVideo, playList,
        Measures(bitRate, width, height, duration), fileSize, startTime, finishTime, timeProcessed)
    }

    /** A new result is queued, at 0%, without segments and without a result file. */
    constructor(jobId: string, taskId: string, workingDirectory: string)
      ensures jobID == jobId && taskID == taskId && workingDir == workingDirectory
      ensures State() == ResultState("Queued", 0, false, None, None, None, Measures(0, 0, 0, 0), 0, 0, 0, 0)
    {
      jobID, taskID, workingDir := jobId, taskId, workingDirectory;
      status, percentComplete, hasSegments, segments := "Queued", 0, false, None;
      resultVideo, playList := None, None;
      bitRate, width, height, duration := 0, 0, 0, 0;
      fileSize, startTime, finishTime, timeProcessed := 0, 0, 0, 0;
    }

    method SetStatus(value: string)
      modifies this
      ensures State() == old(State()).(status := value)
    {
      status := value;
    }

    /**
     * `Interlocked.CompareExchange(ref percentComplete, value, percentComplete)`:
     * with no other writer the comparand is the current value, so the value is stored.
     */
    method SetPercentComplete(value: int)
      modifies this
      ensures State() == old(State()).(percentComplete := value)
    {
      percentComplete := value;
    }

    /** Storing a segment list marks the result as segmented for good. */
    method SetSegments(value: Option<seq<string>>)
      modifies this
      ensures State() == old(State()).(segments := value, hasSegments := true)
    {
      segments := value;
      hasSegments := true;
    }

    method SetPlaylist(value: Option<string>)
      modifies this
      ensures State() == old(State()).(playList := value)
    {
      playList := value;
    }

    method SetStartTime(t: int)
      modifies this
      ensures State() == old(State()).(startTime := t)
    {
      startTime := t;
    }

    /** The finish time also fixes the processing time, measured from the start time recorded last. */
    method SetFinishTime(t: int)
      modifies this
      ensures State() == old(State()).(finishTime := t, timeProcessed := t - old(startTime))
    {
      finishTime := t;
      timeProcessed := finishTime - startTime;
    }

    /** The processing time is reported only once the result is complete. */
    function ProcessingTime(): (r: Option<int>)
      reads this
      ensures r.Some? <==> status == "Complete"
      ensures r.Some? ==> r.value == timeProcessed
    {
      if status == "Complete" then Some(timeProcessed) else None
    }

    /** The `ResultVideo` getter: unset stays unset, otherwise the published URL of the file. */
    function ResultVideo(cfg: Config): (r: Option<string>)
      reads this
      ensures r.None? <==> resultVideo.None?
      ensures r.Some? ==> r.value == PublishedUrl(cfg, jobID, resultVideo.value)
    {
      if resultVideo.None? then None else Some(PublishedUrl(cfg, jobID, resultVideo.value))
    }

    /** The `Playlist` getter, published like the result file. */
    function Playlist(cfg: Config): (r: Option<string>)
      reads this
      ensures r.None? <==> playList.None?
      ensures r.Some? ==> r.value == PublishedUrl(cfg, jobID, playList.value)
    {
      if playList.None? then None else Some(PublishedUrl(cfg, jobID, playList.value))
    }

    /** The `Adaptive` getter: the job's master playlist, for a segmented result only. */
    function Adaptive(cfg: Config): (r: Option<string>)
      reads this
      ensures r.Some? <==> hasSegments
      ensures r.Some? ==> EndsWith(r.value, "/adaptive.m3u8")
    {
      if hasSegments then
        assert "/" + "adaptive.m3u8" == "/adaptive.m3u8";
        Some(PublishedUrl(cfg, jobID, "adaptive.m3u8"))
      else None
    }

    /** What a master playlist lists of this result. */
    function AsRendition(cfg: Config): (r: Rendition)
      reads this
      ensures r.bitRate == bitRate && r.resultFile == resultVideo && r.hasSegments == hasSegments
      ensures r.playlist == Playlist(cfg)
    {
      Hls.Rendition.Rendition(bitRate, resultVideo, hasSegments, Playlist(cfg))
    }

    /** The loop over the probe's streams; `stopped` is the bit rate that throws. */
    method ScanVideoStreams(ss: seq<StreamInfo>) returns (stopped: bool)
      modifies this
      ensures var scan := ScanStreams(old(State()).measures, ss);
        stopped == scan.Raised? && State() == old(State()).(measures := scan.m)
    {
      stopped := false;
      var i := 0;
      while i < |ss|
        invariant 0 <= i <= |ss|
        invariant State() == old(State()).(measures := Measures(bitRate, width, height, duration))
        invariant ScanStreams(old(State()).measures, ss) == ScanStreams(Measures(bitRate, width, height, duration), ss[i..])
      {
        ghost var m := Measures(bitRate, width, height, duration);
        ScanUnfold(m, ss[i..]);
        assert ss[i..][0] == ss[i] && ss[i..][1..] == ss[i + 1..];
        stopped := CopyStream(ss[i]);
        if stopped {
          return;
        }
        i := i + 1;
      }
      assert ss[i..] == [];
    }

    /**
     * One turn of the loop: a video stream's bit rate, width and height,
     * when present, are copied; `stopped` is a bit rate that throws, which
     * leaves everything as it was.
     */
    method CopyStream(s: StreamInfo) returns (stopped: bool)
      modifies this
      ensures stopped <==> IsVideo(s) && BadRate(s.bitRate)
      ensures stopped ==> State() == old(State())
      ensures !stopped ==> State() == old(State()).(measures := if IsVideo(s) then StreamStep(old(State()).measures, s) else old(State()).measures)
    {
      stopped := false;
      if s.codecType == Some("video") {
        if s.bitRate.Some? {
          var b := ParseInt(s.bitRate.value);
          if b.None? {
            stopped := true;
            return;
          }
          bitRate := b.value;
        }
        if s.width.Some? {
          width := s.width.value;
        }
        if s.height.Some? {
          height := s.height.value;
        }
      }
    }

    /** The format part of the setter; `ok` is false when its bit rate throws. */
    method ApplyFormat(f: FormatInfo) returns (ok: bool)
      modifies this
      ensures var r := FormatStep(old(State()).measures, f);
        ok == r.Some? && State() == old(State()).(measures := if r.Some? then r.value else old(State()).measures)
    {
      ghost var st := State();
      ghost var r := FormatStep(st.measures, f);
      ok := true;
      if f.bitRate.Some? {
        var b := ParseInt(f.bitRate.value);
        if b.None? {
          assert r.None?;
          ok := false;
          return;
        }
        bitRate := b.value;
      }
      if f.duration.Some? {
        duration := Truncate(f.duration.value);
      }
      assert r == Some(Measures(bitRate, width, height, duration));
      assert State() == st.(measures := r.value);
    }

    /**
     * The `ResultVideo` setter. A missing file, or a probe that prints
     * nothing, fails the result and leaves the file unset; otherwise the file
     * is stored (unless a bit rate throws, which leaves the setter early) and
     * the report's figures are copied. `raised` is the exception the setter
     * lets escape.
     */
    method SetResultVideo(value: string, fileExists: bool, fileLength: int, probeOutput: Option<string>, decoded: Decoded)
      returns (raised: bool)
      modifies this
      ensures (State(), raised) == ResultVideoStep(old(State()), value, fileExists, fileLength, probeOutput, decoded)
    {
      raised := false;
      if !fileExists {
        status := "Failed";
        return;
      }
      fileSize := fileLength;
      if IsNullOrEmpty(probeOutput) {
        status := "Failed";
        return;
      }
      var info: Option<ProbeInfo> := None;
      if decoded.Unreadable? {
        // the catch block
        status := "Failed";
        resultVideo := Some(value);
      } else {
        info := decoded.info;
      }
      if info.Some? {
        var p := info.value;
        if p.streams.None? {
          status := "Failed";
        } else {
          var stopped := ScanVideoStreams(p.streams.value);
          if stopped {
            raised := true;
            return;
          }
        }
        if p.format.Some? {
          var ok := ApplyFormat(p.format.value);
          if !ok {
            raised := true;
            return;
          }
        } else {
          status := "Failed";
        }
      } else {
        status := "Failed";
      }
      resultVideo := Some(value);
    }
  }
}
