/**
 * `ThumbnailGenerator`: once the job's download is complete, asks the
 * transcoder for up to five thumbnails of the source video, and asks again
 * with a lower scene threshold when the first attempt writes none.
 */
module Thumbnails {
  import opened Common
  import opened Text
  import opened Probe
  import opened Downloads

  /** The number of thumbnails asked for. */
  const ThumbCount: int := 5

  /** The transcoder's message when it wrote no thumbnail. */
  const EmptyOutput: string := "Output file is empty"

  /** The scene-change filters of the first and of the second attempt. */
  const SceneFilter: string := "select=gt(scene\\,0.4)"
  const ShortSceneFilter: string := "select=gt(scene\\,0.05)"

  /** Where the thumbnails are written: `thumbnail-<id>_0001.jpg` and on. */
  function ThumbPattern(workingDir: string, id: string): string
  {
    workingDir + "thumbnail-" + id + "_%04d.jpg"
  }

  /**
   * The video's length in whole seconds as the generator sees it: -1 when
   * the probe reported no duration.
   */
  function DurationOf(p: Option<ProbeInfo>): (r: int)
    ensures (p.None? || p.value.format.None? || p.value.format.value.duration.None?) ==> r == -1
    ensures p.Some? && p.value.format.Some? && p.value.format.value.duration.Some? && p.value.format.value.duration.value >= 0.0
      ==> r >= 0 && r as real <= p.value.format.value.duration.value < r as real + 1.0
  {
    if p.Some? && p.value.format.Some? && p.value.format.value.duration.Some?
    then Truncate(p.value.format.value.duration.value)
    else -1
  }

  /**
   * The sampling filter. A video longer than ten seconds is sampled at
   * one frame per fifth of its length; a shorter or unknown one by scene
   * changes.
   */
  function Filter(duration: int): string
  {
    if duration > 10 then "fps=fps=1/" + IntToString(duration / 5) else SceneFilter
  }

  /**
   * For a video longer than ten seconds the five frames taken one span
   * apart all fall inside the video, the span is at least two seconds and
   * it is the largest whole span that fits five times.
   */
  lemma SpanFitsFiveFrames(duration: int)
    requires duration > 10
    ensures var span := duration / 5;
      span >= 2 && (ThumbCount - 1) * span < duration && ThumbCount * span <= duration < ThumbCount * (span + 1)
  {
  }

  /** The transcoder command for a given filter. */
  function Command(inputDir: string, filename: string, filter: string, pattern: string): string
  {
    "-i " + inputDir + filename + " -y " + "-vf \"" + filter + "\" -frames:v 5 -vsync vfr" + [' '] + pattern
  }

  /** The command reads `inputDir + filename`, quotes `filter` and writes to `pattern`. */
  lemma CommandParts(inputDir: string, filename: string, filter: string, pattern: string)
    ensures var c := Command(inputDir, filename, filter, pattern);
      var head := "-i " + inputDir + filename + " -y -vf \"";
      var tail := "\" -frames:v 5 -vsync vfr " + pattern;
      c == head + filter + tail && StartsWith(c, head) && EndsWith(c, tail) &&
      c[|head|..|head| + |filter|] == filter
  {
    var c := Command(inputDir, filename, filter, pattern);
    var head := "-i " + inputDir + filename + " -y -vf \"";
    var tail := "\" -frames:v 5 -vsync vfr " + pattern;
    assert c == head + filter + tail;
    assert (head + filter + tail)[..|head|] == head;
    assert (head + filter + tail)[|head| + |filter|..] == tail;
    assert (head + filter + tail)[|head|..|head| + |filter|] == filter;
  }

  /**
   * `buildThumbnailArguments`. `None` is the exception thrown when the
   * file name has no '.' (its extension is cut off before anything else).
   */
  function ThumbnailArguments(inputDir: string, outputDir: string, id: string, filename: string, duration: int): (r: Option<string>)
    ensures r.Some? <==> '.' in filename
  {
    if LastIndexOfChar(filename, '.') < 0 then None
    else Some(Command(inputDir, filename, Filter(duration), ThumbPattern(outputDir, id)))
  }

  /** `buildThumbnailArgumentsShort`: the same command with the lower scene threshold. */
  function ShortArguments(inputDir: string, outputDir: string, id: string, filename: string): (r: Option<string>)
    ensures r.Some? <==> '.' in filename
  {
    if LastIndexOfChar(filename, '.') < 0 then None
    else Some(Command(inputDir, filename, ShortSceneFilter, ThumbPattern(outputDir, id)))
  }

  /**
   * The commands `generate` issues, in order, for a download in state `st`;
   * `tool` is what the transcoder prints for a command.
   */
  function ThumbCommands(st: DownloadState, workingDir: string, id: string, dest: string, tool: string -> string): seq<string>
  {
    if st.failed then []
    else
      match ThumbnailArguments(workingDir, workingDir, id, dest, DurationOf(st.probeInfo))
      case None => []
      case Some(c) =>
        if Contains(tool(c), EmptyOutput) then [c] + [ShortArguments(workingDir, workingDir, id, dest).value]
        else [c]
  }

  /**
   * A failed download gets no command; otherwise there is one command,
   * and a second exactly when the first wrote no thumbnail. The second
   * differs from the first only in its filter.
   */
  lemma ThumbRetry(st: DownloadState, workingDir: string, id: string, dest: string, tool: string -> string)
    ensures var cs := ThumbCommands(st, workingDir, id, dest, tool);
      (st.failed || '.' !in dest ==> cs == []) &&
      (!st.failed && '.' in dest ==> 1 <= |cs| <= 2 && (|cs| == 2 <==> Contains(tool(cs[0]), EmptyOutput))) &&
      (|cs| == 2 ==> cs[1] == Command(workingDir, dest, ShortSceneFilter, ThumbPattern(workingDir, id)) &&
                     cs[0] == Command(workingDir, dest, Filter(DurationOf(st.probeInfo)), ThumbPattern(workingDir, id)))
  {
  }

  /** Without a known duration the first attempt samples by scene change. */
  lemma UnknownDurationUsesScenes(st: DownloadState, workingDir: string, id: string, dest: string, tool: string -> string)
    requires !st.failed && '.' in dest
    requires st.probeInfo.None? || st.probeInfo.value.format.None? || st.probeInfo.value.format.value.duration.None?
    ensures ThumbCommands(st, workingDir, id, dest, tool)[0] == Command(workingDir, dest, SceneFilter, ThumbPattern(workingDir, id))
  {
  }

  class ThumbnailGenerator {
    const id: string
    const workingDir: string
    const downloader: FileDownload?
    var complete: bool
    var thumbTaskCommand: Option<string>

    constructor(token: string, workingDir: string, downloader: FileDownload?)
      ensures this.id == token && this.workingDir == workingDir && this.downloader == downloader
      ensures !complete && thumbTaskCommand == None
    {
      id, this.workingDir, this.downloader := token, workingDir, downloader;
      complete, thumbTaskCommand := false, None;
    }

    /**
     * `generate`, after its wait for the download. `commands` are the
     * transcoder commands it issued. Without a download the first access
     * throws and the stage never completes.
     */
    method Generate(tool: string -> string) returns (commands: seq<string>)
      requires downloader != null ==> downloader.complete
      modifies this
      ensures downloader == null ==> commands == [] && complete == old(complete) && thumbTaskCommand == old(thumbTaskCommand)
      ensures downloader != null ==>
        commands == ThumbCommands(downloader.State(), workingDir, id, downloader.dest, tool) && complete
      ensures downloader != null ==>
        thumbTaskCommand == if commands == [] then old(thumbTaskCommand) else Some(commands[|commands| - 1])
    {
      commands := [];
      if downloader == null {
        return;
      }
      if downloader.failed {
        complete := true;
        return;
      }
      var duration := DurationOf(downloader.probeInfo);
      var first := ThumbnailArguments(workingDir, workingDir, id, downloader.dest, duration);
      if first.Some? {
        thumbTaskCommand := first;
        commands := [first.value];
        if Contains(tool(first.value), EmptyOutput) {
          var second := ShortArguments(workingDir, workingDir, id, downloader.dest);
          thumbTaskCommand := second;
          commands := commands + [second.value];
        }
      }
      complete := true;
    }
  }
}
