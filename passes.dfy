/**
 * `Multipass`: the first pass of a two-pass encode. Once the job's download
 * is complete it substitutes the video's frame rate into its options and
 * runs the transcoder with `-pass 1`, leaving a pass log that the tasks of
 * the same output extension read in their second pass.
 */
module Passes {
  import opened Common
  import opened Text
  import opened Probe
  import opened Downloads

  // ------------------------------------------------------------ frame rate

  /** Reading this stream's frame rate throws: no codec type, or a video stream whose rate does not parse. */
  predicate RateThrows(s: StreamInfo) { s.codecType.None? || (IsVideo(s) && s.frameRate.None?) }

  /**
   * The `foreach` over the streams: every video stream's frame rate
   * overwrites `rate`; `None` is the exception of a stream whose rate
   * cannot be read.
   */
  function RateScan(rate: int, ss: seq<StreamInfo>): (r: Option<int>)
    ensures r.None? <==> exists i :: 0 <= i < |ss| && RateThrows(ss[i])
    decreases |ss|
  {
    if ss == [] then Some(rate)
    else
      assert forall i :: 1 <= i < |ss| ==> ss[i] == ss[1..][i - 1];
      if RateThrows(ss[0]) then None
      else RateScan(if IsVideo(ss[0]) then ss[0].frameRate.value else rate, ss[1..])
  }

  /** The frame rate of the last video stream, or `rate` when there is none (a reference definition). */
  function LastVideoRate(ss: seq<StreamInfo>, rate: int): int
    decreases |ss|
  {
    if ss == [] then rate
    else if IsVideo(ss[|ss| - 1]) && ss[|ss| - 1].frameRate.Some? then ss[|ss| - 1].frameRate.value
    else LastVideoRate(ss[..|ss| - 1], rate)
  }

  lemma {:induction false} LastVideoRateCons(s: StreamInfo, rest: seq<StreamInfo>, rate: int)
    ensures LastVideoRate([s] + rest, rate) ==
      LastVideoRate(rest, if IsVideo(s) && s.frameRate.Some? then s.frameRate.value else rate)
    decreases |rest|
  {
    if rest != [] {
      var ss := [s] + rest;
      assert ss[..|ss| - 1] == [s] + rest[..|rest| - 1];
      LastVideoRateCons(s, rest[..|rest| - 1], rate);
    } else {
      assert ([s] + rest)[..0] == [];
    }
  }

  /** When no stream throws, the scan ends with the last video stream's frame rate. */
  lemma {:induction false} RateScanIsLast(rate: int, ss: seq<StreamInfo>)
    requires RateScan(rate, ss).Some?
    ensures RateScan(rate, ss).value == LastVideoRate(ss, rate)
    decreases |ss|
  {
    if ss != [] {
      var s := ss[0];
      var rate1 := if IsVideo(s) then s.frameRate.value else rate;
      assert !RateThrows(s);
      assert RateScan(rate, ss) == RateScan(rate1, ss[1..]);
      assert ss == [s] + ss[1..];
      RateScanIsLast(rate1, ss[1..]);
      LastVideoRateCons(s, ss[1..], rate);
    }
  }

  /** The frame-rate loop of `RunPass`, which starts from 0. */
  method ScanFrameRate(ss: seq<StreamInfo>) returns (rate: Option<int>)
    ensures rate == RateScan(0, ss)
  {
    var r := 0;
    var i := 0;
    while i < |ss|
      invariant 0 <= i <= |ss|
      invariant RateScan(0, ss) == RateScan(r, ss[i..])
    {
      var s := ss[i];
      assert ss[i..][0] == s && ss[i..][1..] == ss[i + 1..];
      if s.codecType.None? {
        return None;
      }
      if s.codecType == Some("video") {
        if s.frameRate.None? {
          return None;
        }
        r := s.frameRate.value;
      }
      i := i + 1;
    }
    return Some(r);
  }

  // ----------------------------------------------------------- placeholders

  const QuotedFps: string := "'{{fps}}'"
  const QuotedFps2x: string := "'{{fps2x}}'"
  const Fps: string := "{{fps}}"
  const Fps2x: string := "{{fps2x}}"

  /**
   * The frame-rate placeholders: the quoted forms first, so that their
   * quotes go with them, then the bare ones. `fps2x` is twice the rate.
   */
  function SubstituteRate(opts: string, rate: int): string
  {
    var r1 := IntToString(rate);
    var r2 := IntToString(rate * 2);
    Replace(Replace(Replace(Replace(opts, QuotedFps, r1), QuotedFps2x, r2), Fps, r1), Fps2x, r2)
  }

  lemma NoBraceInNumber(n: int)
    ensures '{' !in IntToString(n)
  {
  }

  /** Options without a placeholder are passed on verbatim. */
  lemma SubstituteRateVerbatim(opts: string, rate: int)
    requires '{' !in opts
    ensures SubstituteRate(opts, rate) == opts
  {
    ReplaceAbsent(opts, QuotedFps, IntToString(rate), 1);
    ReplaceAbsent(opts, QuotedFps2x, IntToString(rate * 2), 1);
    ReplaceAbsent(opts, Fps, IntToString(rate), 0);
    ReplaceAbsent(opts, Fps2x, IntToString(rate * 2), 0);
  }

  /** Three '{'-free parts make a '{'-free text. */
  lemma NoBraceJoin(a: string, b: string, c: string)
    requires '{' !in a && '{' !in b && '{' !in c
    ensures '{' !in a + b + c
  {
    var s := a + b + c;
    forall i | 0 <= i < |s|
      ensures s[i] != '{'
    {
      if i < |a| {
        assert s[i] == a[i];
      } else if i < |a| + |b| {
        assert s[i] == b[i - |a|];
      } else {
        assert s[i] == c[i - |a| - |b|];
      }
    }
  }

  /** A text made of `prefix`, a number and `suffix` has no '{' when neither part has one. */
  lemma NoBraceAround(prefix: string, n: int, suffix: string)
    requires '{' !in prefix && '{' !in suffix
    ensures '{' !in prefix + IntToString(n) + suffix
  {
    NoBraceInNumber(n);
    NoBraceJoin(prefix, IntToString(n), suffix);
  }

  /**
   * A pattern that opens with one character other than '{' and then a '{'
   * occurs just once in `prefix + p + suffix` when neither part has a '{',
   * and is replaced there.
   */
  lemma ReplaceBetween(prefix: string, p: string, suffix: string, q: string)
    requires |p| >= 2 && p[0] != '{' && p[1] == '{'
    requires '{' !in prefix && '{' !in suffix
    ensures Replace(prefix + p + suffix, p, q) == prefix + q + suffix
  {
    var t := p + suffix;
    var s := prefix + t;
    assert prefix + p + suffix == s;
    forall i | 0 <= i < |prefix|
      ensures !OccursAt(s, p, i)
    {
      assert OccursAt(s, p, i) ==> s[i + 1] == '{' by {
        if OccursAt(s, p, i) {
          assert s[i..i + |p|][1] == s[i + 1];
        }
      }
      if i + 1 < |prefix| {
        assert s[i + 1] == prefix[i + 1];
      } else {
        assert s[i + 1] == p[0];
      }
    }
    ReplaceAfter(prefix, t, p, q);
    ReplaceHead(p, suffix, q);
    ReplaceAbsent(suffix, p, q, 1);
  }

  /**
   * A quoted placeholder is replaced by the bare number: its quotes do not
   * survive, and the number is not touched by the later replacements.
   */
  lemma QuotedFpsReplaced(prefix: string, suffix: string, rate: int)
    requires '{' !in prefix && '{' !in suffix
    ensures SubstituteRate(prefix + QuotedFps + suffix, rate) == prefix + IntToString(rate) + suffix
  {
    var r1 := IntToString(rate);
    var r2 := IntToString(rate * 2);
    ReplaceBetween(prefix, QuotedFps, suffix, r1);
    var s1 := prefix + r1 + suffix;
    NoBraceAround(prefix, rate, suffix);
    ReplaceAbsent(s1, QuotedFps2x, r2, 1);
    ReplaceAbsent(s1, Fps, r1, 0);
    ReplaceAbsent(s1, Fps2x, r2, 0);
  }

  /** The `'{{fps2x}}'` placeholder gets twice the frame rate, likewise. */
  lemma QuotedFps2xReplaced(prefix: string, suffix: string, rate: int)
    requires '{' !in prefix && '{' !in suffix
    ensures SubstituteRate(prefix + QuotedFps2x + suffix, rate) == prefix + IntToString(rate * 2) + suffix
  {
    var r1 := IntToString(rate);
    var r2 := IntToString(rate * 2);
    var s0 := prefix + QuotedFps2x + suffix;
    NoQuotedFpsIn(prefix, suffix);
    assert Replace(s0, QuotedFps, r1) == s0;
    ReplaceBetween(prefix, QuotedFps2x, suffix, r2);
    var s2 := prefix + r2 + suffix;
    NoBraceAround(prefix, rate * 2, suffix);
    ReplaceAbsent(s2, Fps, r1, 0);
    ReplaceAbsent(s2, Fps2x, r2, 0);
  }

  /** `'{{fps}}'` does not occur in `prefix + '{{fps2x}}' + suffix` when neither part has a '{'. */
  lemma NoQuotedFpsIn(prefix: string, suffix: string)
    requires '{' !in prefix && '{' !in suffix
    ensures !Contains(prefix + QuotedFps2x + suffix, QuotedFps)
  {
    var s := prefix + QuotedFps2x + suffix;
    var n := |prefix|;
    forall i | 0 <= i <= |s| - |QuotedFps|
      ensures !OccursAt(s, QuotedFps, i)
    {
      assert OccursAt(s, QuotedFps, i) ==> s[i + 1] == '{' && s[i + 2] == '{' && s[i + 6] == '}' by {
        if OccursAt(s, QuotedFps, i) {
          assert s[i..i + |QuotedFps|] == QuotedFps;
          assert s[i..i + |QuotedFps|][1] == s[i + 1];
          assert s[i..i + |QuotedFps|][2] == s[i + 2];
          assert s[i..i + |QuotedFps|][6] == s[i + 6];
        }
      }
      // the only '{' of `s` are at n + 1 and n + 2
      if i + 1 < n {
        assert s[i + 1] == prefix[i + 1];
      } else if i + 1 >= n + |QuotedFps2x| {
        assert s[i + 1] == suffix[i + 1 - n - |QuotedFps2x|];
      } else if i == n {
        assert s[i + 6] == QuotedFps2x[6];
      } else if i == n + 1 {
        assert s[i + 2] == QuotedFps2x[3];
      } else {
        assert s[i + 1] == QuotedFps2x[i + 1 - n];
      }
    }
  }

  // ------------------------------------------------------------ the command

  /** Where the first pass writes its output: `<wd>fastpass_<dest>.<ext>`. */
  function PassOutput(workingDir: string, dest: string, extension: string): string
  {
    workingDir + "fastpass_" + dest + "." + extension
  }

  /** The pass log the second passes read. */
  function PassLog(output: string): string { output + "-multipass" }

  /** The part of the first pass's command before its options: it reads the download. */
  function PassHead(workingDir: string, dest: string): string { "-i " + workingDir + dest + " -y " }

  /** The part after the options: `-pass 1`, the pass log, and the output file. */
  function PassTail(output: string): string { " -pass 1 -passlogfile \"" + PassLog(output) + "\" " + output }

  /** `buildTranscodingArguments` of the first pass: the options are trimmed twice over. */
  function FirstPassCommand(workingDir: string, dest: string, opts: string, output: string): string
  {
    PassHead(workingDir, dest) + Trim(Trim(opts)) + PassTail(output)
  }

  /** The command reads the download, keeps the trimmed options, logs to the pass log and writes to the output. */
  lemma FirstPassCommandShape(workingDir: string, dest: string, opts: string, output: string)
    ensures var c := FirstPassCommand(workingDir, dest, opts, output);
      var head := PassHead(workingDir, dest);
      var tail := PassTail(output);
      StartsWith(c, head) && EndsWith(c, tail) && c[|head|..|c| - |tail|] == Trim(opts)
  {
    TrimTwice(opts);
    ThreeParts(PassHead(workingDir, dest), Trim(opts), PassTail(output));
  }

  // ------------------------------------------------------------- the stage

  datatype PassState = PassState(options: string, complete: bool, failed: bool, multiPassFile: Option<string>)

  /**
   * What `RunPass` leaves behind, given the download's report and the exit
   * code `exitOf(c)` of command `c`. A missing report or empty options
   * complete and fail the pass (the exception is caught at once); missing
   * streams or an unreadable frame rate throw before anything is run, and
   * the pass stays incomplete.
   */
  function PassStep(st: PassState, workingDir: string, dest: string, extension: string,
                    probe: Option<ProbeInfo>, exitOf: string -> int): PassState
  {
    if probe.None? || st.options == "" then st.(complete := true, failed := true)
    else if probe.value.streams.None? then st
    else
      match RateScan(0, probe.value.streams.value)
      case None => st
      case Some(rate) =>
        var opts := SubstituteRate(st.options, rate);
        var output := PassOutput(workingDir, dest, extension);
        var code := exitOf(FirstPassCommand(workingDir, dest, opts, output));
        PassState(opts, true, st.failed || code != 0, Some(PassLog(output)))
  }

  /** Without a report, or without options, the pass fails without running anything. */
  lemma PassFailsEarly(st: PassState, workingDir: string, dest: string, extension: string,
                       probe: Option<ProbeInfo>, exitOf: string -> int)
    requires probe.None? || st.options == ""
    ensures var r := PassStep(st, workingDir, dest, extension, probe, exitOf);
      r.complete && r.failed && r.multiPassFile == st.multiPassFile && r.options == st.options
  {
  }

  /**
   * Once the command runs the pass is complete, it fails exactly when the
   * exit code is not 0 (a fresh pass), and its pass log is the output plus
   * "-multipass".
   */
  lemma PassRuns(st: PassState, workingDir: string, dest: string, extension: string,
                 p: ProbeInfo, exitOf: string -> int)
    requires st.options != "" && p.streams.Some?
    requires RateScan(0, p.streams.value).Some?
    ensures var r := PassStep(st, workingDir, dest, extension, Some(p), exitOf);
      var rate := LastVideoRate(p.streams.value, 0);
      var output := PassOutput(workingDir, dest, extension);
      && r.complete
      && r.options == SubstituteRate(st.options, rate)
      && r.multiPassFile == Some(workingDir + "fastpass_" + dest + "." + extension + "-multipass")
      && (r.failed <==> st.failed || exitOf(FirstPassCommand(workingDir, dest, r.options, output)) != 0)
  {
    RateScanIsLast(0, p.streams.value);
  }

  /**
   * A second pass waits for its first pass's `complete` flag. Missing
   * streams, or a frame rate that cannot be read, throw before the flag is
   * set, so a second pass waiting for it waits forever.
   */
  lemma PassStaysIncomplete(st: PassState, workingDir: string, dest: string, extension: string,
                            probe: Option<ProbeInfo>, exitOf: string -> int)
    requires !st.complete
    ensures !PassStep(st, workingDir, dest, extension, probe, exitOf).complete <==>
      probe.Some? && st.options != "" &&
      (probe.value.streams.None? || RateScan(0, probe.value.streams.value).None?)
  {
  }

  /**
   * `RunPass` as it evidently should end: every exception it catches marks
   * the pass complete and failed, so the second passes waiting for it are
   * released. Otherwise it is the step above.
   */
  function IntendedPassStep(st: PassState, workingDir: string, dest: string, extension: string,
                            probe: Option<ProbeInfo>, exitOf: string -> int): PassState
  {
    var r := PassStep(st, workingDir, dest, extension, probe, exitOf);
    if r.complete then r else r.(complete := true, failed := true)
  }

  /**
   * The intended `RunPass` always completes the pass; it fails it exactly
   * when the step as written either fails it or leaves it waiting, and
   * agrees with the step as written whenever that completes.
   */
  lemma IntendedPassSettles(st: PassState, workingDir: string, dest: string, extension: string,
                            probe: Option<ProbeInfo>, exitOf: string -> int)
    ensures var r := IntendedPassStep(st, workingDir, dest, extension, probe, exitOf);
      var w := PassStep(st, workingDir, dest, extension, probe, exitOf);
      && r.complete
      && (r.failed <==> w.failed || !w.complete)
      && (w.complete ==> r == w)
  {
  }

  class Multipass {
    const token: string
    const workingDir: string
    const dest: string
    const extension: string
    var options: string
    var complete: bool
    var failed: bool
    var multiPassFile: Option<string>

    function State(): PassState
      reads this
    {
      PassState(options, complete, failed, multiPassFile)
    }

    /** A new pass takes its input file from the job's download, which must exist. */
    constructor(download: FileDownload?, token: string, workingDir: string, extension: string, options: string)
      requires download != null
      ensures this.token == token && this.workingDir == workingDir && this.extension == extension
      ensures this.dest == download.dest
      ensures State() == PassState(options, false, false, None)
    {
      this.token, this.workingDir, this.extension := token, workingDir, extension;
      this.dest := download.dest;
      this.options := options;
      complete, failed, multiPassFile := false, false, None;
    }

    /**
     * `RunPass`, after its wait for the download; `probe` is the download's
     * report. `command` is the transcoder command it ran, if any.
     */
    method RunPass(probe: Option<ProbeInfo>, exitOf: string -> int) returns (command: Option<string>)
      modifies this
      ensures State() == PassStep(old(State()), workingDir, dest, extension, probe, exitOf)
      ensures command.Some? <==> probe.Some? && old(options) != "" && probe.value.streams.Some? && RateScan(0, probe.value.streams.value).Some?
      ensures command.Some? ==> command.value == FirstPassCommand(workingDir, dest, options, PassOutput(workingDir, dest, extension))
    {
      command := None;
      if probe.None? || options == "" {
        complete := true;
        failed := true;
        return;
      }
      if probe.value.streams.None? {
        return;
      }
      var rate := ScanFrameRate(probe.value.streams.value);
      if rate.None? {
        return;
      }
      var r1 := IntToString(rate.value);
      var r2 := IntToString(rate.value * 2);
      options := Replace(options, QuotedFps, r1);
      options := Replace(options, QuotedFps2x, r2);
      options := Replace(options, Fps, r1);
      options := Replace(options, Fps2x, r2);
      var output := PassOutput(workingDir, dest, extension);
      multiPassFile := Some(PassLog(output));
      var c := FirstPassCommand(workingDir, dest, options, output);
      command := Some(c);
      if exitOf(c) != 0 {
        failed := true;
      }
      complete := true;
    }
  }
}
