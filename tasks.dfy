/**
 * `TranscodeTask`: one output of a job. It waits for the download (and for
 * its first pass in a two-pass encode), checks that the source can give
 * the requested resolution, fills the placeholders of its options, runs
 * the transcoder, optionally cuts the output into HLS segments, and
 * records everything in its `TranscoderResult`.
 */
module Tasks {
  import opened Common
  import opened Text
  import opened Probe
  import opened Downloads
  import opened Passes
  import opened Results
  import opened Statistics

  // ----------------------------------------------------------------- naming

  /** The task's output file: `<token>_<taskId>.<extension>`. */
  function OutputFile(token: string, taskId: string, extension: string): string
  {
    token + "_" + taskId + "." + extension
  }

  /** The HLS playlist, for an "hls" task only: the output file name plus ".m3u8". */
  function SegmentFile(token: string, taskId: string, extension: string, segment: Option<string>): (r: Option<string>)
    ensures r.Some? <==> segment == Some("hls")
    ensures r.Some? ==> r.value == OutputFile(token, taskId, extension) + ".m3u8"
  {
    if segment == Some("hls") then Some(OutputFile(token, taskId, extension) + ".m3u8") else None
  }

  // ----------------------------------------------------------- capabilities

  /** What the stream loop learns: whether 1080p and 720p outputs make sense, and the frame rate. */
  datatype Capability = Capability(can1080: bool, can720: bool, frameRate: int)

  const NoCapability: Capability := Capability(false, false, 0)

  /** A video stream's width that `int.TryParse` accepts. */
  predicate WidthAtLeast(s: StreamInfo, w: int)
  {
    s.width.Some? && IsInt32(s.width.value) && s.width.value >= w
  }

  /**
   * Reading this stream throws: no codec type, or a video stream whose
   * frame rate cannot be read or that has no width at all.
   */
  predicate CapThrows(s: StreamInfo)
  {
    s.codecType.None? || (IsVideo(s) && (s.frameRate.None? || s.width.None?))
  }

  /** One step of the loop over the streams. */
  function CapStep(c: Capability, s: StreamInfo): Capability
    requires !CapThrows(s)
  {
    if !IsVideo(s) then c
    else Capability(
      c.can1080 || WidthAtLeast(s, 1920),
      c.can720 || WidthAtLeast(s, 1920) || WidthAtLeast(s, 1280),
      s.frameRate.value)
  }

  /** The loop over the streams of the report; `None` is the exception of an unreadable stream. */
  function CapScan(c: Capability, ss: seq<StreamInfo>): (r: Option<Capability>)
    ensures r.None? <==> exists i :: 0 <= i < |ss| && CapThrows(ss[i])
    decreases |ss|
  {
    if ss == [] then Some(c)
    else
      assert forall i :: 1 <= i < |ss| ==> ss[i] == ss[1..][i - 1];
      if CapThrows(ss[0]) then None else CapScan(CapStep(c, ss[0]), ss[1..])
  }

  /**
   * The loop's flags: a 1080p output is possible iff some video stream is
   * at least 1920 wide, a 720p output iff some video stream is at least
   * 1280 wide; the frame rate is the last video stream's.
   */
  lemma {:induction false} CapScanSpec(c: Capability, ss: seq<StreamInfo>)
    requires CapScan(c, ss).Some?
    ensures var r := CapScan(c, ss).value;
      && (r.can1080 <==> c.can1080 || exists i :: 0 <= i < |ss| && IsVideo(ss[i]) && WidthAtLeast(ss[i], 1920))
      && (r.can720 <==> c.can720 || exists i :: 0 <= i < |ss| && IsVideo(ss[i]) && WidthAtLeast(ss[i], 1280))
      && r.frameRate == LastVideoRate(ss, c.frameRate)
    decreases |ss|
  {
    if ss != [] {
      var s := ss[0];
      assert !CapThrows(s);
      var c1 := CapStep(c, s);
      assert CapScan(c, ss) == CapScan(c1, ss[1..]);
      CapScanSpec(c1, ss[1..]);
      assert ss == [s] + ss[1..];
      assert forall i :: 1 <= i < |ss| ==> ss[i] == ss[1..][i - 1];
      assert forall i :: 0 <= i < |ss[1..]| ==> ss[1..][i] == ss[i + 1];
      LastVideoRateCons(s, ss[1..], c.frameRate);
    }
  }

  /** The loop over the streams in `Handle`. */
  method ScanCapabilities(ss: seq<StreamInfo>) returns (cap: Option<Capability>)
    ensures cap == CapScan(NoCapability, ss)
  {
    var can1080, can720, frameRate := false, false, 0;
    var i := 0;
    while i < |ss|
      invariant 0 <= i <= |ss|
      invariant CapScan(NoCapability, ss) == CapScan(Capability(can1080, can720, frameRate), ss[i..])
    {
      var s := ss[i];
      assert ss[i..][0] == s && ss[i..][1..] == ss[i + 1..];
      if s.codecType.None? {
        return None;
      }
      if s.codecType == Some("video") {
        if s.frameRate.None? {
          return None;
        }
        frameRate := s.frameRate.value;
        if s.width.None? {
          return None;
        }
        var width := s.width.value;
        if IsInt32(width) {
          if width >= 1920 {
            can1080 := true;
            can720 := true;
          }
          if width >= 1280 {
            can720 := true;
          }
        }
      }
      i := i + 1;
    }
    return Some(Capability(can1080, can720, frameRate));
  }

  /** The options ask for a 1080p output, in any of the spellings the task recognises. */
  predicate Wants1080(opts: string)
  {
    Contains(opts, "hd1080") || Contains(opts, "-s 1920x1080") || Contains(opts, "-s '1920x1080'") || Contains(opts, "-s \"1920x1080\"")
  }

  /** The options ask for a 720p output. */
  predicate Wants720(opts: string)
  {
    Contains(opts, "hd720") || Contains(opts, "-s 1280x720") || Contains(opts, "-s '1280x720'") || Contains(opts, "-s \"1280x720\"")
  }

  /** A task is processed unless it asks for a resolution the source cannot give. */
  predicate DoProcessing(opts: string, c: Capability)
  {
    !(Wants1080(opts) && !c.can1080) && !(Wants720(opts) && !c.can720)
  }

  // ------------------------------------------------------------- resolution

  predicate IsQuote(c: char) { c == '"' || c == '\'' }

  /** The end of the run of digits that starts at `k`. */
  function DigitsEnd(s: string, k: nat): (e: nat)
    requires k <= |s|
    ensures k <= e <= |s| && AllDigits(s[k..e]) && (e < |s| ==> !IsDigit(s[e]))
    decreases |s| - k
  {
    if k < |s| && IsDigit(s[k]) then
      var e := DigitsEnd(s, k + 1);
      assert s[k..e] == [s[k]] + s[k + 1..e];
      e
    else k
  }

  /** A frame size: digits, 'x', digits. */
  predicate IsSize(t: string)
  {
    exists m :: 0 < m < |t| - 1 && AllDigits(t[..m]) && t[m] == 'x' && AllDigits(t[m + 1..])
  }

  /** `[0-9]+x[0-9]+` matched greedily at `k`. */
  function DimsAt(s: string, k: nat): (r: Option<string>)
    requires k <= |s|
    ensures r.Some? ==> IsSize(r.value) && k + |r.value| <= |s| && s[k..k + |r.value|] == r.value
  {
    var e1 := DigitsEnd(s, k);
    if e1 == k || e1 == |s| || s[e1] != 'x' then None
    else
      var e2 := DigitsEnd(s, e1 + 1);
      if e2 == e1 + 1 then None
      else
        var t := s[k..e2];
        assert t[..e1 - k] == s[k..e1] && t[e1 - k] == 'x' && t[e1 - k + 1..] == s[e1 + 1..e2];
        Some(t)
  }

  /** The pattern `-s ["']?([0-9]+x[0-9]+)["']?` tried at `i`: the captured size. */
  function SizeAt(s: string, i: nat): (r: Option<string>)
    requires i <= |s|
    ensures r.Some? ==> IsSize(r.value) && OccursAt(s, "-s ", i)
  {
    if !OccursAt(s, "-s ", i) then None
    else
      var j := i + 3;
      DimsAt(s, if j < |s| && IsQuote(s[j]) then j + 1 else j)
  }

  /** `Regex.Match`: the leftmost position at which the pattern matches. */
  function FirstSize(s: string, i: nat): (r: Option<string>)
    requires i <= |s|
    ensures r.Some? ==> IsSize(r.value)
    ensures r.None? <==> forall j :: i <= j <= |s| ==> SizeAt(s, j).None?
    decreases |s| - i
  {
    if SizeAt(s, i).Some? then SizeAt(s, i)
    else if i == |s| then None
    else FirstSize(s, i + 1)
  }

  /**
   * The resolution named by the options: the keywords first, in the order
   * hd720, hd1080, hd480, sd480 (any case), then an explicit `-s WxH`, else
   * nothing.
   */
  function Resolution(opts: string): (r: string)
    ensures Contains(ToLower(opts), "hd720") ==> r == "1280x720"
    ensures !Contains(ToLower(opts), "hd720") && Contains(ToLower(opts), "hd1080") ==> r == "1920x1080"
    ensures r == "" || r == "1280x720" || r == "1920x1080" || r == "720x480" || IsSize(r)
    ensures r == "" <==>
      !Contains(ToLower(opts), "hd720") && !Contains(ToLower(opts), "hd1080") &&
      !Contains(ToLower(opts), "hd480") && !Contains(ToLower(opts), "sd480") && FirstSize(opts, 0).None?
  {
    var lower := ToLower(opts);
    if Contains(lower, "hd720") then "1280x720"
    else if Contains(lower, "hd1080") then "1920x1080"
    else if Contains(lower, "hd480") then "720x480"
    else if Contains(lower, "sd480") then "720x480"
    else match FirstSize(opts, 0) case Some(t) => t case None => ""
  }

  // --------------------------------------------------------------- bit rate

  /**
   * `s.Substring(start)` cut at its first space: the token there. `None`
   * is the exception when `start` is past the end or no space follows.
   */
  function TokenAfter(s: string, start: int): (r: Option<string>)
    ensures r.Some? <==> 0 <= start <= |s| && ' ' in s[start..]
    ensures r.Some? ==>
      start + |r.value| < |s| && s[start..start + |r.value|] == r.value && s[start + |r.value|] == ' ' && ' ' !in r.value
  {
    match SubstringFrom(s, start)
    case None => None
    case Some(rest) =>
      var k := IndexOfChar(rest, ' ');
      if k < 0 then None
      else
        assert rest[..k] == s[start..start + k];
        Some(rest[..k])
  }

  /**
   * The bit rate named by the options: the token after `-minrate `, else
   * after `-maxrate `, else after `-b:v `. The flag is looked for in any
   * case but located case-sensitively, as written.
   */
  function Bitrate(opts: string): (r: Option<string>)
    ensures !Contains(ToLower(opts), "-minrate") && !Contains(ToLower(opts), "-maxrate") && !Contains(ToLower(opts), "-b:v") ==> r == Some("")
    ensures Contains(ToLower(opts), "-minrate") ==> r == TokenAfter(opts, IndexOf(opts, "-minrate") + 9)
    ensures !Contains(ToLower(opts), "-minrate") && Contains(ToLower(opts), "-maxrate") ==>
      r == TokenAfter(opts, IndexOf(opts, "-maxrate") + 9)
    ensures !Contains(ToLower(opts), "-minrate") && !Contains(ToLower(opts), "-maxrate") && Contains(ToLower(opts), "-b:v") ==>
      r == TokenAfter(opts, IndexOf(opts, "-b:v") + 5)
  {
    var lower := ToLower(opts);
    if Contains(lower, "-minrate") then TokenAfter(opts, IndexOf(opts, "-minrate") + 9)
    else if Contains(lower, "-maxrate") then TokenAfter(opts, IndexOf(opts, "-maxrate") + 9)
    else if Contains(lower, "-b:v") then TokenAfter(opts, IndexOf(opts, "-b:v") + 5)
    else Some("")
  }

  // ----------------------------------------------------------- placeholders

  /** Every placeholder, quoted forms first (their quotes go with them), then the bare ones. */
  function Substitute(opts: string, bitrate: string, rate: int, resolution: string): string
  {
    var r1 := IntToString(rate);
    var r2 := IntToString(rate * 2);
    var s1 := Replace(Replace(Replace(Replace(opts, "'{{bitrate}}'", bitrate), QuotedFps, r1), QuotedFps2x, r2), "'{{resolution}}'", resolution);
    Replace(Replace(Replace(Replace(s1, "{{bitrate}}", bitrate), Fps, r1), Fps2x, r2), "{{resolution}}", resolution)
  }

  /** Options without a placeholder are passed on verbatim. */
  lemma SubstituteVerbatim(opts: string, bitrate: string, rate: int, resolution: string)
    requires '{' !in opts
    ensures Substitute(opts, bitrate, rate, resolution) == opts
  {
    var r1 := IntToString(rate);
    var r2 := IntToString(rate * 2);
    ReplaceAbsent(opts, "'{{bitrate}}'", bitrate, 1);
    ReplaceAbsent(opts, QuotedFps, r1, 1);
    ReplaceAbsent(opts, QuotedFps2x, r2, 1);
    ReplaceAbsent(opts, "'{{resolution}}'", resolution, 1);
    ReplaceAbsent(opts, "{{bitrate}}", bitrate, 0);
    ReplaceAbsent(opts, Fps, r1, 0);
    ReplaceAbsent(opts, Fps2x, r2, 0);
    ReplaceAbsent(opts, "{{resolution}}", resolution, 0);
  }

  /** A quoted bit-rate placeholder is replaced, quotes and all, by the bit rate. */
  lemma QuotedBitrateReplaced(prefix: string, suffix: string, bitrate: string, rate: int, resolution: string)
    requires '{' !in prefix && '{' !in suffix && '{' !in bitrate
    ensures Substitute(prefix + "'{{bitrate}}'" + suffix, bitrate, rate, resolution) == prefix + bitrate + suffix
  {
    var r1 := IntToString(rate);
    var r2 := IntToString(rate * 2);
    ReplaceBetween(prefix, "'{{bitrate}}'", suffix, bitrate);
    var s := prefix + bitrate + suffix;
    NoBraceJoin(prefix, bitrate, suffix);
    ReplaceAbsent(s, QuotedFps, r1, 1);
    ReplaceAbsent(s, QuotedFps2x, r2, 1);
    ReplaceAbsent(s, "'{{resolution}}'", resolution, 1);
    ReplaceAbsent(s, "{{bitrate}}", bitrate, 0);
    ReplaceAbsent(s, Fps, r1, 0);
    ReplaceAbsent(s, Fps2x, r2, 0);
    ReplaceAbsent(s, "{{resolution}}", resolution, 0);
  }

  // --------------------------------------------------------------- commands

  /** The pass log of a second pass; a missing one reads as the empty string, as null does in `+`. */
  function LogText(log: Option<string>): string { if log.Some? then log.value else "" }

  /** The start of both commands: read `<wd><input>`, overwrite the output. */
  function CommandHead(workingDir: string, input: string): string { "-i " + workingDir + input + " -y " }

  /** The end of both commands: the output `<wd><outFile>`. */
  function CommandTail(workingDir: string, outFile: string): string { " " + workingDir + outFile }

  /** The second-pass arguments naming the first pass's log. */
  function Pass2Args(log: string): string { " -pass 2 -passlogfile \"" + log + "\"" }

  /** The arguments of `buildTranscodingArguments`: trimmed options, plus the second pass in a two-pass encode. */
  function EncodeArgs(opts: string, pass2: Option<string>): string
  {
    if pass2.Some? then Trim(Trim(opts)) + Pass2Args(pass2.value) else Trim(opts)
  }

  /** `buildTranscodingArguments`. */
  function EncodeCommand(workingDir: string, input: string, opts: string, outFile: string, pass2: Option<string>): string
  {
    CommandHead(workingDir, input) + EncodeArgs(opts, pass2) + CommandTail(workingDir, outFile)
  }

  /** The segment file pattern: `<wd><token>_<taskId>_%03d.ts`. */
  function ChunkPattern(workingDir: string, token: string, taskId: string): string
  {
    workingDir + token + "_" + taskId + "_%03d.ts"
  }

  /** Stream copying, and the HLS muxer's arguments up to the chunk pattern. */
  const CopyArgs: string := "-vcodec copy -acodec copy"
  const HlsArgs: string := " -bsf:v h264_mp4toannexb -hls_list_size 0 -hls_segment_filename "

  /**
   * The arguments of `buildTranscodingSegmentArguments`: the options are
   * replaced by stream copying, the bitstream filter and the HLS arguments.
   */
  function SegmentArgs(workingDir: string, token: string, taskId: string, pass2: Option<string>): string
  {
    var hls := CopyArgs + HlsArgs + ChunkPattern(workingDir, token, taskId);
    if pass2.Some? then hls + Pass2Args(pass2.value) else hls
  }

  /** `buildTranscodingSegmentArguments`. */
  function SegmentCommand(workingDir: string, input: string, token: string, taskId: string, outFile: string, pass2: Option<string>): string
  {
    CommandHead(workingDir, input) + SegmentArgs(workingDir, token, taskId, pass2) + CommandTail(workingDir, outFile)
  }

  /**
   * An encode command reads the input, writes the output and carries the
   * trimmed options, followed by the second-pass arguments exactly when a
   * first pass log is given.
   */
  lemma EncodeCommandParts(workingDir: string, input: string, opts: string, outFile: string, pass2: Option<string>)
    ensures var c := EncodeCommand(workingDir, input, opts, outFile, pass2);
      var h := CommandHead(workingDir, input);
      StartsWith(c, h) && EndsWith(c, CommandTail(workingDir, outFile)) &&
      c[|h|..|h| + |EncodeArgs(opts, pass2)|] == EncodeArgs(opts, pass2) &&
      (pass2.None? ==> EncodeArgs(opts, pass2) == Trim(opts)) &&
      (pass2.Some? ==> EncodeArgs(opts, pass2) == Trim(opts) + Pass2Args(pass2.value))
  {
    TrimTwice(opts);
    ThreeParts(CommandHead(workingDir, input), EncodeArgs(opts, pass2), CommandTail(workingDir, outFile));
  }

  /** The segmenting arguments: stream copying, the HLS muxer with its chunk pattern, then any second pass. */
  lemma SegmentArgsParts(workingDir: string, token: string, taskId: string, pass2: Option<string>)
    ensures SegmentArgs(workingDir, token, taskId, pass2) ==
      CopyArgs + (HlsArgs + ChunkPattern(workingDir, token, taskId) + (if pass2.Some? then Pass2Args(pass2.value) else ""))
  {
    var pat := ChunkPattern(workingDir, token, taskId);
    var rest := if pass2.Some? then Pass2Args(pass2.value) else "";
    Regroup4(CopyArgs, HlsArgs, pat, rest);
  }

  /** Four strings concatenated, grouped from the second one on. */
  lemma Regroup4(a: string, b: string, p: string, r: string)
    ensures a + b + p + r == a + (b + p + r)
    ensures r == "" ==> a + b + p == a + (b + p + r)
  {
  }

  /** Concatenation regrouped around its fourth part. */
  lemma Regroup(h: string, x: string, y: string, p: string, r: string, t: string)
    ensures h + (x + (y + p + r)) + t == (h + x + y) + p + (r + t)
  {
  }

  /** A segmenting command names the chunk pattern right after the HLS muxer's arguments. */
  lemma SegmentCommandParts(workingDir: string, input: string, token: string, taskId: string, outFile: string, pass2: Option<string>)
    ensures OccursAt(SegmentCommand(workingDir, input, token, taskId, outFile, pass2), ChunkPattern(workingDir, token, taskId),
                     |CommandHead(workingDir, input)| + |CopyArgs| + |HlsArgs|)
  {
    var h := CommandHead(workingDir, input);
    var t := CommandTail(workingDir, outFile);
    var pat := ChunkPattern(workingDir, token, taskId);
    var rest := if pass2.Some? then Pass2Args(pass2.value) else "";
    SegmentArgsParts(workingDir, token, taskId, pass2);
    var pre := h + CopyArgs + HlsArgs;
    var c := SegmentCommand(workingDir, input, token, taskId, outFile, pass2);
    assert c == h + (CopyArgs + (HlsArgs + pat + rest)) + t;
    Regroup(h, CopyArgs, HlsArgs, pat, rest, t);
    ThreeParts(pre, pat, rest + t);
  }

  /** The two ends of a segmenting command. */
  lemma SegmentCommandEnds(workingDir: string, input: string, token: string, taskId: string, outFile: string, pass2: Option<string>)
    ensures var c := SegmentCommand(workingDir, input, token, taskId, outFile, pass2);
      StartsWith(c, CommandHead(workingDir, input) + CopyArgs) &&
      EndsWith(c, CommandTail(workingDir, outFile))
  {
    var h := CommandHead(workingDir, input);
    var t := CommandTail(workingDir, outFile);
    var pat := ChunkPattern(workingDir, token, taskId);
    var rest := if pass2.Some? then Pass2Args(pass2.value) else "";
    var m := HlsArgs + pat + rest;
    SegmentArgsParts(workingDir, token, taskId, pass2);
    var c := h + (CopyArgs + m) + t;
    assert c == (h + CopyArgs) + m + t;
    ThreeParts(h + CopyArgs, m, t);
  }

  // --------------------------------------------------------------- progress

  /**
   * The percentage a progress line reports: time over duration, capped at
   * 100, less 10 while a segmenting step is still to come, truncated. With a
   * zero duration a positive time is +infinity (capped); `None` stands for
   * NaN and -infinity, whose conversion to `int` does not raise the stored
   * value.
   */
  function ActivePercent(time: real, duration: real, segmenting: bool): (r: Option<int>)
    ensures r.Some? ==> r.value <= 100
    ensures r.Some? && segmenting ==> r.value <= 90
    ensures duration > 0.0 && time >= 0.0 ==> r.Some? && r.value >= (if segmenting then -10 else 0)
  {
    var cut := if segmenting then 10.0 else 0.0;
    if duration != 0.0 then
      var pct := time / duration * 100.0;
      Some(Truncate((if pct > 100.0 then 100.0 else pct) - cut))
    else if time > 0.0 then Some(Truncate(100.0 - cut))
    else None
  }

  /** The stored percentage after the progress lines reporting `times`: raised only to a larger value. */
  function ProgressAfter(percent: int, times: seq<real>, duration: real, segmenting: bool): int
    decreases |times|
  {
    if times == [] then percent
    else
      var p := ActivePercent(times[0], duration, segmenting);
      ProgressAfter(if p.Some? && percent < p.value then p.value else percent, times[1..], duration, segmenting)
  }

  /**
   * Progress never goes down, never passes 100 (90 while segmenting) unless
   * it started higher, and ends at the start value or at one some line reported.
   */
  lemma {:induction false} ProgressMonotone(percent: int, times: seq<real>, duration: real, segmenting: bool)
    ensures var r := ProgressAfter(percent, times, duration, segmenting);
      && r >= percent
      && (percent <= 100 ==> r <= 100)
      && (segmenting && percent <= 90 ==> r <= 90)
      && (r == percent || exists i :: 0 <= i < |times| && ActivePercent(times[i], duration, segmenting) == Some(r))
    decreases |times|
  {
    if times != [] {
      var p := ActivePercent(times[0], duration, segmenting);
      var next := if p.Some? && percent < p.value then p.value else percent;
      ProgressMonotone(next, times[1..], duration, segmenting);
      var r := ProgressAfter(next, times[1..], duration, segmenting);
      if r != next {
        var i :| 0 <= i < |times[1..]| && ActivePercent(times[1..][i], duration, segmenting) == Some(r);
        assert times[1..][i] == times[i + 1];
      } else if next != percent {
        assert ActivePercent(times[0], duration, segmenting) == Some(r);
      }
    }
  }

  /** The progress callback, one reported time after another. */
  method TrackProgress(result: TranscoderResult, times: seq<real>, duration: real, segmenting: bool)
    modifies result
    ensures result.State() == old(result.State()).(percentComplete := ProgressAfter(old(result.percentComplete), times, duration, segmenting))
  {
    var i := 0;
    while i < |times|
      invariant 0 <= i <= |times|
      invariant result.State() == old(result.State()).(percentComplete := result.percentComplete)
      invariant ProgressAfter(old(result.percentComplete), times, duration, segmenting) ==
                ProgressAfter(result.percentComplete, times[i..], duration, segmenting)
    {
      assert times[i..][0] == times[i] && times[i..][1..] == times[i + 1..];
      var p := ActivePercent(times[i], duration, segmenting);
      if p.Some? && result.percentComplete < p.value {
        result.SetPercentComplete(p.value);
      }
      i := i + 1;
    }
  }

  // ---------------------------------------------------------------- segments

  /** The manifest's segment names: its lines, trimmed, that end in ".ts", in file order. */
  function SegmentNames(lines: seq<string>): seq<string>
    decreases |lines|
  {
    if lines == [] then []
    else
      var t := Trim(lines[0]);
      (if EndsWith(t, ".ts") then [t] else []) + SegmentNames(lines[1..])
  }

  /** A segment name as the manifest loop keeps it: it ends in ".ts" and is its own trim. */
  predicate CleanName(n: string) { EndsWith(n, ".ts") && Trim(n) == n }

  /** The name a line contributes, if any, is clean. */
  lemma CleanLine(line: string)
    requires EndsWith(Trim(line), ".ts")
    ensures CleanName(Trim(line))
  {
    TrimTwice(line);
  }

  /** Every listed name ends in ".ts" and is its own trim. */
  lemma {:induction false} SegmentNameAt(lines: seq<string>, i: nat)
    requires i < |SegmentNames(lines)|
    ensures CleanName(SegmentNames(lines)[i])
    decreases |lines|
  {
    var t := Trim(lines[0]);
    var head := if EndsWith(t, ".ts") then [t] else [];
    var rest := SegmentNames(lines[1..]);
    assert SegmentNames(lines) == head + rest;
    var n := SegmentNames(lines)[i];
    if i < |head| {
      assert n == t;
      CleanLine(lines[0]);
    } else {
      assert n == rest[i - |head|];
      SegmentNameAt(lines[1..], i - |head|);
    }
  }

  /** The names of some lines followed by one more: the names before, then that line's own, if any. */
  lemma {:induction false} SegmentNamesSnoc(lines: seq<string>, line: string)
    ensures SegmentNames(lines + [line]) ==
      SegmentNames(lines) + (if EndsWith(Trim(line), ".ts") then [Trim(line)] else [])
    decreases |lines|
  {
    if lines != [] {
      assert (lines + [line])[1..] == lines[1..] + [line];
      SegmentNamesSnoc(lines[1..], line);
    } else {
      assert [line][1..] == [];
    }
  }

  /** The names of two runs of lines are the names of the first, then those of the second. */
  lemma {:induction false} SegmentNamesAppend(a: seq<string>, b: seq<string>)
    ensures SegmentNames(a + b) == SegmentNames(a) + SegmentNames(b)
    decreases |a|
  {
    if a != [] {
      var t := Trim(a[0]);
      var head := if EndsWith(t, ".ts") then [t] else [];
      assert (a + b)[1..] == a[1..] + b;
      SegmentNamesAppend(a[1..], b);
      assert SegmentNames(a + b) == head + SegmentNames(a[1..] + b);
      assert SegmentNames(a) == head + SegmentNames(a[1..]);
    } else {
      assert a + b == b;
    }
  }

  /**
   * Every line that ends in ".ts" once trimmed is listed, right after the
   * names of the lines before it.
   */
  lemma SegmentNamesComplete(lines: seq<string>, j: int)
    requires 0 <= j < |lines| && EndsWith(Trim(lines[j]), ".ts")
    ensures |SegmentNames(lines[..j])| < |SegmentNames(lines)|
    ensures SegmentNames(lines)[|SegmentNames(lines[..j])|] == Trim(lines[j])
  {
    assert lines == lines[..j] + lines[j..];
    SegmentNamesAppend(lines[..j], lines[j..]);
    var tail := lines[j..];
    assert tail[0] == lines[j];
    assert SegmentNames(tail) == [Trim(lines[j])] + SegmentNames(tail[1..]);
  }

  /** One more line of the loop: the names so far, then that line's own, if any. */
  lemma SegmentNamesStep(lines: seq<string>, i: int)
    requires 0 <= i < |lines|
    ensures EndsWith(Trim(lines[i]), ".ts") ==> SegmentNames(lines[..i + 1]) == SegmentNames(lines[..i]) + [Trim(lines[i])]
    ensures !EndsWith(Trim(lines[i]), ".ts") ==> SegmentNames(lines[..i + 1]) == SegmentNames(lines[..i])
  {
    assert lines[..i + 1] == lines[..i] + [lines[i]];
    SegmentNamesSnoc(lines[..i], lines[i]);
  }

  /** The `ReadLine` loop over the playlist file. */
  method CollectSegments(content: string) returns (segments: seq<string>)
    ensures segments == SegmentNames(SplitLines(content))
  {
    var lines := SplitLines(content);
    segments := [];
    var i := 0;
    while i < |lines|
      invariant 0 <= i <= |lines|
      invariant segments == SegmentNames(lines[..i])
    {
      var line := Trim(lines[i]);
      SegmentNamesStep(lines, i);
      if EndsWith(line, ".ts") {
        segments := segments + [line];
      }
      i := i + 1;
    }
    assert lines[..i] == lines;
  }

  // ------------------------------------------------------------ the outcome

  /** What a task is: its constant fields. */
  datatype TaskConfig = TaskConfig(
    token: string, taskId: string, workingDir: string, extension: string,
    multiPass: bool, outputFile: string, segmentFile: Option<string>)

  /**
   * What `Handle` meets from outside: the clock at the start and at the end,
   * the exit code of each command, the times the progress lines report,
   * the playlist file's text if it exists, and what the `ResultVideo`
   * setter finds on disk and hears from the probe.
   */
  datatype TaskInputs = TaskInputs(
    now: int, finish: int, exitOf: string -> int, progress: seq<real>, listing: Option<string>,
    fileExists: bool, fileLength: int, probeOutput: Option<string>, decoded: Decoded)

  /**
   * How `Handle` ends: the first pass is missing (the lookup throws) or
   * failed, the download has no report or failed, reading the streams
   * throws, the options are `null` (their first use throws), the task is
   * skipped, reading the bit rate throws, or the transcoder ran with these
   * options and this command.
   */
  datatype Path =
    | PassMissing
    | PassFailed
    | NoReport
    | StreamsThrew
    | NullOptions
    | Skipped
    | OptionsThrew
    | Ran(options: string, command: string, exitCode: int)

  /** The first pass's log, in a two-pass encode. */
  function Pass2Log(c: TaskConfig, pass: Option<PassState>): (r: Option<string>)
    ensures r.Some? <==> c.multiPass && pass.Some?
  {
    if c.multiPass && pass.Some? then Some(LogText(pass.value.multiPassFile)) else None
  }

  /** The way `Handle` goes, given the options, the download's state and the first pass (`None` when missing). */
  function TaskPath(c: TaskConfig, options: Option<string>, dest: string, dl: DownloadState, pass: Option<PassState>,
                    exitOf: string -> int): Path
  {
    if c.multiPass && pass.None? then PassMissing
    else if c.multiPass && pass.value.failed then PassFailed
    else ProcessPath(c, options, dest, dl, pass, exitOf)
  }

  /** The way `Handle` goes once the first pass, if any, has succeeded. */
  function ProcessPath(c: TaskConfig, options: Option<string>, dest: string, dl: DownloadState, pass: Option<PassState>,
                       exitOf: string -> int): Path
  {
    if dl.probeInfo.None? || dl.failed then NoReport
    else InspectPath(c, options, dest, dl.probeInfo.value.streams, pass, exitOf)
  }

  /** The way `Handle` goes from the loop over the streams on. */
  function InspectPath(c: TaskConfig, options: Option<string>, dest: string, streams: Option<seq<StreamInfo>>,
                       pass: Option<PassState>, exitOf: string -> int): Path
  {
    if streams.None? then StreamsThrew
    else
      match CapScan(NoCapability, streams.value)
      case None => StreamsThrew
      case Some(cap) =>
        if options.None? then NullOptions
        else if !DoProcessing(options.value, cap) then Skipped
        else EncodePath(c, options.value, dest, cap, pass, exitOf)
  }

  /** The way the encoding branch goes: reading the bit rate throws, or the transcoder runs. */
  function EncodePath(c: TaskConfig, options: string, dest: string, cap: Capability, pass: Option<PassState>,
                      exitOf: string -> int): Path
  {
    match Bitrate(options)
    case None => OptionsThrew
    case Some(b) =>
      var opts := Substitute(options, b, cap.frameRate, Resolution(options));
      var cmd := EncodeCommand(c.workingDir, dest, opts, c.outputFile, Pass2Log(c, pass));
      Ran(opts, cmd, exitOf(cmd))
  }

  /** The transcoder commands a task issues: the encode, then the segmenting step of a successful HLS task. */
  function TaskCommands(c: TaskConfig, pass: Option<PassState>, path: Path): seq<string>
  {
    if !path.Ran? then []
    else if path.exitCode == 0 && c.segmentFile.Some? then
      [path.command, SegmentCommand(c.workingDir, c.outputFile, c.token, c.taskId, c.segmentFile.value, Pass2Log(c, pass))]
    else [path.command]
  }

  /** How every failure ends a result: finished now, with a status and no progress. */
  function FailState(r: ResultState, finish: int, status: string): ResultState
  {
    r.(finishTime := finish, timeProcessed := finish - r.startTime, status := status, percentComplete := 0)
  }

  /** The segment names read from the playlist file, `null` when it does not exist. */
  function ListedSegments(listing: Option<string>): Option<seq<string>>
  {
    if listing.Some? then Some(SegmentNames(SplitLines(listing.value))) else None
  }

  /** The success branch up to the output file: finished, with the playlist of an HLS task, complete at 100%. */
  function Completed(r: ResultState, c: TaskConfig, inp: TaskInputs): ResultState
  {
    var r1 := r.(finishTime := inp.finish, timeProcessed := inp.finish - r.startTime);
    var r2 := if c.segmentFile.Some? then r1.(playList := c.segmentFile) else r1;
    var r3 := r2.(status := "Complete", percentComplete := 100);
    if c.segmentFile.Some? then r3.(segments := ListedSegments(inp.listing), hasSegments := true) else r3
  }

  /** The success branch: complete at 100%, then the output file is assigned (which may throw). */
  function Finished(r: ResultState, c: TaskConfig, inp: TaskInputs): (ResultState, bool)
  {
    ResultVideoStep(Completed(r, c, inp), c.outputFile, inp.fileExists, inp.fileLength, inp.probeOutput, inp.decoded)
  }

  /**
   * The success branch ends finished at `finish`, "Complete" or "Failed";
   * "Complete" needs the output file and stands at 100%, with the file
   * assigned unless a bit rate threw; an HLS task names its playlist and
   * its segments whatever the setter does.
   */
  lemma FinishedChecks(r: ResultState, c: TaskConfig, inp: TaskInputs)
    ensures var (s, raised) := Finished(r, c, inp);
      && s.startTime == r.startTime && s.finishTime == inp.finish && s.timeProcessed == inp.finish - r.startTime
      && (s.status == "Complete" || s.status == "Failed")
      && (s.status == "Complete" ==> inp.fileExists && s.percentComplete == 100)
      && (s.status == "Complete" && !raised ==> s.resultVideo == Some(c.outputFile))
      && (c.segmentFile.Some? ==> s.playList == c.segmentFile && s.hasSegments && s.segments == ListedSegments(inp.listing))
  {
    ResultVideoChecks(Completed(r, c, inp), c.outputFile, inp.fileExists, inp.fileLength, inp.probeOutput, inp.decoded);
  }

  /** The result once `Handle` returns, from the result as it was and the way `Handle` went. */
  function TaskResult(r0: ResultState, c: TaskConfig, path: Path, inp: TaskInputs): ResultState
  {
    ProcessResult(r0.(startTime := inp.now), c, path, inp)
  }

  /** The result from the moment `Handle` has taken its start time. */
  function ProcessResult(r: ResultState, c: TaskConfig, path: Path, inp: TaskInputs): ResultState
  {
    match path
    case NoReport => FailState(r, inp.finish, "Failed/Skipped")
    case Skipped => FailState(r, inp.finish, "Skipped")
    case _ => EncodeResult(r, c, path, inp)
  }

  /** The status shown while waiting is overwritten by the outcome. */
  lemma ProcessResultForgetsStatus(r: ResultState, status: string, c: TaskConfig, path: Path, inp: TaskInputs)
    ensures ProcessResult(r.(status := status), c, path, inp) == ProcessResult(r, c, path, inp)
  {
    if path.Ran? && path.exitCode == 0 {
      CompletedOverwrites(r, status, r.percentComplete, c, inp);
      assert r.(status := status).(status := r.status, percentComplete := r.percentComplete) == r;
    }
  }

  /** The success branch sets the status and the progress itself, whatever they were. */
  lemma CompletedOverwrites(r: ResultState, status: string, p: int, c: TaskConfig, inp: TaskInputs)
    ensures Completed(r.(status := status, percentComplete := p), c, inp) == Completed(r, c, inp)
  {
  }

  /** The result after the encoding branch, and after every other failure. */
  function EncodeResult(r: ResultState, c: TaskConfig, path: Path, inp: TaskInputs): ResultState
  {
    if path.Ran? && path.exitCode == 0 then
      var (s, raised) := Finished(r, c, inp);
      if raised then FailState(s, inp.finish, "Failed") else s
    else FailState(r, inp.finish, "Failed")
  }

  /** The progress reached during the encode is overwritten by the outcome. */
  lemma EncodeResultForgetsProgress(r: ResultState, p: int, c: TaskConfig, path: Path, inp: TaskInputs)
    ensures EncodeResult(r.(percentComplete := p), c, path, inp) == EncodeResult(r, c, path, inp)
  {
    if path.Ran? && path.exitCode == 0 {
      CompletedOverwrites(r, r.status, p, c, inp);
      assert r.(percentComplete := p) == r.(status := r.status, percentComplete := p);
    }
  }

  /** Whether `Handle` reports the task complete to the counters: always, except after a failed encode. */
  predicate CountsCompletion(path: Path) { !(path.Ran? && path.exitCode != 0) }

  /** The running-task counter after `Handle`. */
  function RunningAfter(running: int, path: Path): int
  {
    if CountsCompletion(path) then Wrap32(running - 1) else running
  }

  /** The task's mutable fields: its options, its last command and its last output path. */
  datatype TaskFields = TaskFields(options: Option<string>, command: Option<string>, output: Option<string>)

  /**
   * The fields after `Handle`: a task that ran keeps its filled-in options
   * and its encode command, and points at its output file, or at its
   * playlist once an HLS task has been segmented; any other task keeps them.
   */
  function FieldsAfter(f: TaskFields, c: TaskConfig, path: Path): TaskFields
  {
    if !path.Ran? then f
    else TaskFields(Some(path.options), Some(path.command),
                    Some(c.workingDir + if path.exitCode == 0 && c.segmentFile.Some? then c.segmentFile.value else c.outputFile))
  }

  /**
   * Every task ends finished at `finish`, timed from the start of `Handle`,
   * with one of four statuses. "Skipped" and "Failed/Skipped" name exactly
   * the skip and the missing report. A task that ended before its encode
   * succeeded is at 0% and has no output; "Complete" means the encode
   * succeeded and the output exists, at 100%.
   */
  lemma TaskOutcome(r0: ResultState, c: TaskConfig, path: Path, inp: TaskInputs)
    ensures var r := TaskResult(r0, c, path, inp);
      && r.startTime == inp.now && r.finishTime == inp.finish && r.timeProcessed == inp.finish - inp.now
      && (r.status == "Complete" || r.status == "Failed" || r.status == "Failed/Skipped" || r.status == "Skipped")
      && (r.status == "Skipped" <==> path == Skipped)
      && (r.status == "Failed/Skipped" <==> path == NoReport)
      && (!path.Ran? || path.exitCode != 0 ==>
            r.percentComplete == 0 && r.resultVideo == r0.resultVideo && r.segments == r0.segments &&
            r.playList == r0.playList && r.hasSegments == r0.hasSegments)
      && (r.status == "Complete" ==>
            path.Ran? && path.exitCode == 0 && inp.fileExists && r.percentComplete == 100 &&
            r.resultVideo == Some(c.outputFile))
  {
    if path.Ran? && path.exitCode == 0 {
      FinishedChecks(r0.(startTime := inp.now), c, inp);
    }
  }

  /** A complete HLS task names its playlist and lists the segments read from it. */
  lemma HlsOutcome(r0: ResultState, c: TaskConfig, path: Path, inp: TaskInputs)
    requires c.segmentFile.Some?
    ensures var r := TaskResult(r0, c, path, inp);
      r.status == "Complete" ==> r.playList == c.segmentFile && r.hasSegments && r.segments == ListedSegments(inp.listing)
  {
    if path.Ran? && path.exitCode == 0 {
      FinishedChecks(r0.(startTime := inp.now), c, inp);
    }
  }

  /**
   * Once the first pass and the report are in order and the streams can
   * be read, a task is skipped exactly when it asks for 1080p and no video
   * stream is 1920 wide, or for 720p and none is 1280 wide.
   */
  lemma SkipRule(c: TaskConfig, options: Option<string>, dest: string, dl: DownloadState, pass: Option<PassState>,
                 exitOf: string -> int)
    requires c.multiPass ==> pass.Some? && !pass.value.failed
    requires dl.probeInfo.Some? && !dl.failed && dl.probeInfo.value.streams.Some?
    requires forall i :: 0 <= i < |dl.probeInfo.value.streams.value| ==> !CapThrows(dl.probeInfo.value.streams.value[i])
    ensures var ss := dl.probeInfo.value.streams.value;
      TaskPath(c, options, dest, dl, pass, exitOf) == Skipped <==>
        options.Some? &&
        ((Wants1080(options.value) && !exists i :: 0 <= i < |ss| && IsVideo(ss[i]) && WidthAtLeast(ss[i], 1920)) ||
         (Wants720(options.value) && !exists i :: 0 <= i < |ss| && IsVideo(ss[i]) && WidthAtLeast(ss[i], 1280)))
  {
    CapScanSpec(NoCapability, dl.probeInfo.value.streams.value);
  }

  /** A ran task's encode reads the download and writes the output file, with the filled-in options. */
  lemma RanCommand(c: TaskConfig, options: Option<string>, dest: string, dl: DownloadState, pass: Option<PassState>,
                   exitOf: string -> int)
    requires TaskPath(c, options, dest, dl, pass, exitOf).Ran?
    ensures var p := TaskPath(c, options, dest, dl, pass, exitOf);
      && p.command == EncodeCommand(c.workingDir, dest, p.options, c.outputFile, Pass2Log(c, pass))
      && StartsWith(p.command, CommandHead(c.workingDir, dest))
      && EndsWith(p.command, CommandTail(c.workingDir, c.outputFile))
      && p.exitCode == exitOf(p.command)
      && options.Some?
      && ('{' !in options.value ==> p.options == options.value)
  {
    var p := TaskPath(c, options, dest, dl, pass, exitOf);
    EncodeCommandParts(c.workingDir, dest, p.options, c.outputFile, Pass2Log(c, pass));
    if '{' !in options.value {
      var cap := CapScan(NoCapability, dl.probeInfo.value.streams.value).value;
      SubstituteVerbatim(options.value, Bitrate(options.value).value, cap.frameRate, Resolution(options.value));
    }
  }

  /**
   * A task whose options are `null` (a job that named only a preset) never
   * runs the transcoder: once its first pass and report are in order and
   * its streams can be read, its first use of the options throws, and it
   * ends "Failed" at 0% with no output.
   */
  lemma NullOptionsFail(r0: ResultState, c: TaskConfig, dest: string, dl: DownloadState, pass: Option<PassState>,
                        inp: TaskInputs)
    ensures var path := TaskPath(c, None, dest, dl, pass, inp.exitOf);
      var r := TaskResult(r0, c, path, inp);
      && !path.Ran? && TaskCommands(c, pass, path) == []
      && (r.status == "Failed" || r.status == "Failed/Skipped")
      && r.percentComplete == 0 && r.resultVideo == r0.resultVideo
      && (path != PassMissing && path != PassFailed && path != NoReport && path != StreamsThrew ==>
            path == NullOptions && r.status == "Failed")
  {
    TaskOutcome(r0, c, TaskPath(c, None, dest, dl, pass, inp.exitOf), inp);
  }

  /**
   * With the intended stages, a task that would have waited forever is
   * released and fails: after a download left waiting it finds no report
   * ("Failed/Skipped", or "Failed" when its first pass is missing or
   * failed); after a first pass left waiting it fails at once.
   */
  lemma ReleasedTaskFails(r0: ResultState, c: TaskConfig, options: Option<string>, dest: string,
                          st: DownloadState, fetchOk: bool, probeOutput: Option<string>, decoded: Decoded,
                          pass: Option<PassState>, inp: TaskInputs)
    ensures var w := DownloadStep(st, fetchOk, probeOutput, decoded);
      var path := TaskPath(c, options, dest, IntendedDownloadStep(st, fetchOk, probeOutput, decoded), pass, inp.exitOf);
      var r := TaskResult(r0, c, path, inp);
      !w.complete ==>
        && (path == PassMissing || path == PassFailed || path == NoReport)
        && (r.status == "Failed" || r.status == "Failed/Skipped") && r.percentComplete == 0
    ensures forall pst: PassState, wd: string, ext: string, probe: Option<ProbeInfo>, code: string -> int ::
      c.multiPass && !PassStep(pst, wd, dest, ext, probe, code).complete ==>
        TaskPath(c, options, dest, st, Some(IntendedPassStep(pst, wd, dest, ext, probe, code)), inp.exitOf) == PassFailed
  {
    IntendedDownloadSettles(st, fetchOk, probeOutput, decoded);
    TaskOutcome(r0, c, TaskPath(c, options, dest, IntendedDownloadStep(st, fetchOk, probeOutput, decoded), pass, inp.exitOf), inp);
  }

  /** The first pass's state, `None` when the job has none for this extension. */
  function PassOf(pass: Multipass?): Option<PassState>
    reads pass
  {
    if pass == null then None else Some(pass.State())
  }

  // -------------------------------------------------------------- the task

  class TranscodeTask {
    const token: string
    const taskId: string
    const workingDir: string
    const extension: string
    const segment: Option<string>
    const multiPass: bool
    const outputFile: string
    const segmentFile: Option<string>
    const result: TranscoderResult
    var options: Option<string>
    var taskCommand: Option<string>
    var taskOutput: Option<string>

    function Fields(): TaskFields
      reads this
    {
      TaskFields(options, taskCommand, taskOutput)
    }

    function Config(): TaskConfig
    {
      TaskConfig(token, taskId, workingDir, extension, multiPass, outputFile, segmentFile)
    }

    /** A new task counts itself as started and marks its result pending. */
    constructor(token: string, workingDir: string, stats: Stats, result: TranscoderResult, taskId: string,
                segment: Option<string>, options: Option<string>, extension: string, multiPass: bool, now: int)
      requires stats.Valid()
      modifies stats, result
      ensures this.token == token && this.taskId == taskId && this.workingDir == workingDir
      ensures this.extension == extension && this.segment == segment && this.multiPass == multiPass
      ensures this.result == result && this.options == options
      ensures outputFile == OutputFile(token, taskId, extension)
      ensures segmentFile == SegmentFile(token, taskId, extension, segment)
      ensures taskCommand == None && taskOutput == None
      ensures result.State() == old(result.State()).(status := "Pending", startTime := now)
      ensures stats.Valid() && stats.totalJobs == old(stats.totalJobs)
      ensures stats.totalFilesTranscoded == Wrap32(old(stats.totalFilesTranscoded) + 1)
      ensures stats.runningJobs == Wrap32(old(stats.runningJobs) + 1)
    {
      stats.AddTask();
      this.token, this.taskId, this.workingDir, this.extension := token, taskId, workingDir, extension;
      this.segment, this.multiPass, this.result, this.options := segment, multiPass, result, options;
      outputFile := OutputFile(token, taskId, extension);
      segmentFile := SegmentFile(token, taskId, extension, segment);
      taskCommand, taskOutput := None, None;
      result.SetStatus("Pending");
      result.SetStartTime(now);
    }

    /** `IsSegmented`: a segment kind was given at all. */
    predicate IsSegmented() { !IsNullOrEmpty(segment) }

    /** Every failure: finish now, at 0% progress. */
    method Fail(finish: int, status: string)
      modifies result
      ensures result.State() == FailState(old(result.State()), finish, status)
    {
      result.SetFinishTime(finish);
      result.SetStatus(status);
      result.SetPercentComplete(0);
    }

    /**
     * `Handle`, after its waits for the download and the first pass. `pass`
     * is the job's first pass for this task's extension, `null` when there
     * is none. `commands` are the transcoder commands issued.
     */
    method Handle(stats: Stats, dl: FileDownload, pass: Multipass?, inp: TaskInputs)
      returns (path: Path, commands: seq<string>)
      requires stats.Valid() && dl.complete
      requires multiPass && pass != null ==> pass.complete
      modifies this, result, stats
      ensures path == TaskPath(Config(), old(options), dl.dest, dl.State(), PassOf(pass), inp.exitOf)
      ensures result.State() == TaskResult(old(result.State()), Config(), path, inp)
      ensures commands == TaskCommands(Config(), PassOf(pass), path)
      ensures Fields() == FieldsAfter(old(Fields()), Config(), path)
      ensures stats.Valid() && stats.totalJobs == old(stats.totalJobs)
      ensures stats.totalFilesTranscoded == old(stats.totalFilesTranscoded)
      ensures stats.runningJobs == RunningAfter(old(stats.runningJobs), path)
    {
      result.SetStartTime(inp.now);
      if multiPass && (pass == null || pass.failed) {
        path := PassFailure(stats, pass, inp);
      } else {
        if multiPass {
          result.SetStatus("Waiting on First Pass");
        }
        ghost var started := result.State();
        result.SetStatus("Processing");
        ProcessResultForgetsStatus(started, "Processing", Config(), ProcessPath(Config(), options, dl.dest, dl.State(), PassOf(pass), inp.exitOf), inp);
        if multiPass {
          ProcessResultForgetsStatus(old(result.State()).(startTime := inp.now), "Processing", Config(), ProcessPath(Config(), options, dl.dest, dl.State(), PassOf(pass), inp.exitOf), inp);
        }
        path := Process(stats, dl, pass, inp);
      }
      commands := TaskCommands(Config(), PassOf(pass), path);
    }

    /** A two-pass task whose first pass is missing (the lookup throws) or failed. */
    method PassFailure(stats: Stats, pass: Multipass?, inp: TaskInputs) returns (path: Path)
      requires stats.Valid() && (pass == null || pass.failed)
      modifies result, stats
      ensures path == if pass == null then PassMissing else PassFailed
      ensures result.State() == FailState(old(result.State()), inp.finish, "Failed")
      ensures stats.Valid() && stats.totalJobs == old(stats.totalJobs)
      ensures stats.totalFilesTranscoded == old(stats.totalFilesTranscoded)
      ensures stats.runningJobs == Wrap32(old(stats.runningJobs) - 1)
    {
      result.SetStatus("Waiting on First Pass");
      if pass == null {
        path := PassMissing;
        Fail(inp.finish, "Failed");
        stats.CompleteTask();
      } else {
        path := PassFailed;
        stats.CompleteTask();
        Fail(inp.finish, "Failed");
      }
    }

    /** `Handle` from "Processing" on: check the report and the streams, then skip or encode. */
    method Process(stats: Stats, dl: FileDownload, pass: Multipass?, inp: TaskInputs)
      returns (path: Path)
      requires stats.Valid()
      requires multiPass ==> pass != null
      modifies this, result, stats
      ensures path == ProcessPath(Config(), old(options), dl.dest, dl.State(), PassOf(pass), inp.exitOf)
      ensures result.State() == ProcessResult(old(result.State()), Config(), path, inp)
      ensures Fields() == FieldsAfter(old(Fields()), Config(), path)
      ensures stats.Valid() && stats.totalJobs == old(stats.totalJobs)
      ensures stats.totalFilesTranscoded == old(stats.totalFilesTranscoded)
      ensures stats.runningJobs == RunningAfter(old(stats.runningJobs), path)
    {
      if dl.probeInfo.None? || dl.failed {
        path := NoReport;
        stats.CompleteTask();
        Fail(inp.finish, "Failed/Skipped");
        return;
      }
      path := Inspect(stats, dl, pass, inp);
    }

    /** Read the streams' capabilities, then skip or encode. */
    method Inspect(stats: Stats, dl: FileDownload, pass: Multipass?, inp: TaskInputs)
      returns (path: Path)
      requires stats.Valid() && dl.probeInfo.Some?
      requires multiPass ==> pass != null
      modifies this, result, stats
      ensures path == InspectPath(Config(), old(options), dl.dest, dl.probeInfo.value.streams, PassOf(pass), inp.exitOf)
      ensures result.State() == ProcessResult(old(result.State()), Config(), path, inp)
      ensures Fields() == FieldsAfter(old(Fields()), Config(), path)
      ensures stats.Valid() && stats.totalJobs == old(stats.totalJobs)
      ensures stats.totalFilesTranscoded == old(stats.totalFilesTranscoded)
      ensures stats.runningJobs == RunningAfter(old(stats.runningJobs), path)
    {
      var probe := dl.probeInfo.value;
      if probe.streams.None? {
        path := StreamsThrew;
        Fail(inp.finish, "Failed");
        stats.CompleteTask();
        return;
      }
      var cap := ScanCapabilities(probe.streams.value);
      if cap.None? {
        path := StreamsThrew;
        Fail(inp.finish, "Failed");
        stats.CompleteTask();
        return;
      }
      if options.None? {
        path := NullOptions;
        Fail(inp.finish, "Failed");
        stats.CompleteTask();
        return;
      }
      if !DoProcessing(options.value, cap.value) {
        path := Skipped;
        stats.CompleteTask();
        Fail(inp.finish, "Skipped");
        return;
      }
      path := EncodeAndRun(stats, dl, pass, inp, cap.value);
    }

    /** The branch that fills in the options and runs the transcoder. */
    method EncodeAndRun(stats: Stats, dl: FileDownload, pass: Multipass?, inp: TaskInputs, cap: Capability)
      returns (path: Path)
      requires stats.Valid() && dl.probeInfo.Some? && options.Some?
      requires multiPass ==> pass != null
      modifies this, result, stats
      ensures path == EncodePath(Config(), old(options).value, dl.dest, cap, PassOf(pass), inp.exitOf)
      ensures result.State() == EncodeResult(old(result.State()), Config(), path, inp)
      ensures Fields() == FieldsAfter(old(Fields()), Config(), path)
      ensures stats.Valid() && stats.totalJobs == old(stats.totalJobs)
      ensures stats.totalFilesTranscoded == old(stats.totalFilesTranscoded)
      ensures stats.runningJobs == RunningAfter(old(stats.runningJobs), path)
    {
      path := Encode(stats, dl, pass, inp, cap);
      if path.Ran? {
        Run(stats, path, dl.probeInfo.value.format, inp);
      }
    }

    /** Read the bit rate and, unless that throws, fill in the options and build the command. */
    method Encode(stats: Stats, dl: FileDownload, pass: Multipass?, inp: TaskInputs, cap: Capability)
      returns (path: Path)
      requires stats.Valid() && dl.probeInfo.Some? && options.Some?
      requires multiPass ==> pass != null
      modifies this, result, stats
      ensures path == EncodePath(Config(), old(options).value, dl.dest, cap, PassOf(pass), inp.exitOf)
      ensures path.Ran? ==> options == Some(path.options) && taskCommand == Some(path.command) && taskOutput == Some(workingDir + outputFile)
      ensures !path.Ran? ==> options == old(options) && taskCommand == old(taskCommand) && taskOutput == old(taskOutput)
      ensures !path.Ran? ==> result.State() == FailState(old(result.State()), inp.finish, "Failed")
      ensures result.State() == old(result.State()) || !path.Ran?
      ensures stats.Valid() && stats.totalJobs == old(stats.totalJobs)
      ensures stats.totalFilesTranscoded == old(stats.totalFilesTranscoded)
      ensures stats.runningJobs == if path.Ran? then old(stats.runningJobs) else Wrap32(old(stats.runningJobs) - 1)
    {
      var resolution := Resolution(options.value);
      var bitrate := Bitrate(options.value);
      if bitrate.None? {
        path := OptionsThrew;
        Fail(inp.finish, "Failed");
        stats.CompleteTask();
        return;
      }
      var pass2 := Pass2Log(Config(), PassOf(pass));
      path := Prepare(dl.dest, bitrate.value, cap.frameRate, resolution, pass2, inp.exitOf);
    }

    /** Fill in the options and build the encode command; `path` is the run it leads to. */
    method Prepare(dest: string, bitrate: string, rate: int, resolution: string, pass2: Option<string>, exitOf: string -> int)
      returns (path: Path)
      requires options.Some?
      modifies this
      ensures path.Ran? && path.options == Substitute(old(options).value, bitrate, rate, resolution)
      ensures path.command == EncodeCommand(workingDir, dest, path.options, outputFile, pass2)
      ensures path.exitCode == exitOf(path.command)
      ensures options == Some(path.options) && taskCommand == Some(path.command) && taskOutput == Some(workingDir + outputFile)
    {
      FillOptions(bitrate, rate, resolution);
      var command := EncodeCommand(workingDir, dest, options.value, outputFile, pass2);
      taskOutput := Some(workingDir + outputFile);
      taskCommand := Some(command);
      path := Ran(options.value, command, exitOf(command));
    }

    /** Run the encode: track its progress, then fail on a non-zero exit or complete. */
    method Run(stats: Stats, path: Path, format: Option<FormatInfo>, inp: TaskInputs)
      requires stats.Valid() && path.Ran?
      modifies this, result, stats
      ensures result.State() == EncodeResult(old(result.State()), Config(), path, inp)
      ensures options == old(options) && taskCommand == old(taskCommand)
      ensures taskOutput == if path.exitCode == 0 && segmentFile.Some? then Some(workingDir + segmentFile.value) else old(taskOutput)
      ensures stats.Valid() && stats.totalJobs == old(stats.totalJobs)
      ensures stats.totalFilesTranscoded == old(stats.totalFilesTranscoded)
      ensures stats.runningJobs == RunningAfter(old(stats.runningJobs), path)
    {
      ghost var before := result.State();
      if format.Some? && format.value.duration.Some? {
        TrackProgress(result, inp.progress, format.value.duration.value, segmentFile.Some?);
      }
      EncodeResultForgetsProgress(before, result.percentComplete, Config(), path, inp);
      if path.exitCode != 0 {
        Fail(inp.finish, "Failed");
        return;
      }
      if segmentFile.Some? {
        taskOutput := Some(workingDir + segmentFile.value);
      }
      Succeed(inp);
      stats.CompleteTask();
    }

    /** The eight placeholder replacements, quoted forms first. */
    method FillOptions(bitrate: string, rate: int, resolution: string)
      requires options.Some?
      modifies this
      ensures options == Some(Substitute(old(options).value, bitrate, rate, resolution))
      ensures taskCommand == old(taskCommand) && taskOutput == old(taskOutput)
    {
      var r1 := IntToString(rate);
      var r2 := IntToString(rate * 2);
      var o := options.value;
      o := Replace(o, "'{{bitrate}}'", bitrate);
      o := Replace(o, QuotedFps, r1);
      o := Replace(o, QuotedFps2x, r2);
      o := Replace(o, "'{{resolution}}'", resolution);
      o := Replace(o, "{{bitrate}}", bitrate);
      o := Replace(o, Fps, r1);
      o := Replace(o, Fps2x, r2);
      o := Replace(o, "{{resolution}}", resolution);
      options := Some(o);
    }

    /** The branch after a successful encode: complete the result, then assign the output. */
    method Succeed(inp: TaskInputs)
      modifies result
      ensures var (s, raised) := Finished(old(result.State()), Config(), inp);
        result.State() == if raised then FailState(s, inp.finish, "Failed") else s
    {
      Complete(inp);
      var raised := result.SetResultVideo(outputFile, inp.fileExists, inp.fileLength, inp.probeOutput, inp.decoded);
      if raised {
        Fail(inp.finish, "Failed");
      }
    }

    /** Read the playlist and mark the result complete. */
    method Complete(inp: TaskInputs)
      modifies result
      ensures result.State() == Completed(old(result.State()), Config(), inp)
    {
      var segments: Option<seq<string>> := None;
      if segmentFile.Some? && inp.listing.Some? {
        var names := CollectSegments(inp.listing.value);
        segments := Some(names);
      }
      result.SetFinishTime(inp.finish);
      if segmentFile.Some? {
        result.SetPlaylist(segmentFile);
      }
      result.SetStatus("Complete");
      result.SetPercentComplete(100);
      if segmentFile.Some? {
        result.SetSegments(segments);
      }
    }
  }
}
