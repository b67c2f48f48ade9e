/**
 * `TranscodeJob`: one job of the service. It owns the download, the first
 * passes, the transcoding tasks and the thumbnail stage, collects the
 * tasks' results, and keeps the status clients see. The stages run on a
 * task set from a thread-pool library; whether that task set has finished
 * is an input of the operations that ask it.
 */
module Jobs {
  import opened Common
  import opened Text
  import opened Hls
  import Results
  import Downloads
  import Thumbnails
  import Passes
  import Tasks

  /** A runnable handed to the job's task set. */
  datatype Stage =
    | DownloadStage(download: Downloads.FileDownload)
    | PassStage(pass: Passes.Multipass)
    | TaskStage(task: Tasks.TranscodeTask)
    | ThumbStage(generator: Thumbnails.ThumbnailGenerator)

  /** The statuses a job reports; `Name` is how clients see each. */
  datatype JobStatus = Downloading | Working | Waiting | Complete | Incomplete | Failed
  {
    function Name(): (r: string)
      ensures r in ["Downloading", "Working", "Waiting", "Complete", "Incomplete", "Failed"]
    {
      match this
      case Downloading => "Downloading"
      case Working => "Working"
      case Waiting => "Waiting"
      case Complete => "Complete"
      case Incomplete => "Incomplete"
      case Failed => "Failed"
    }
  }

  /** Distinct statuses show distinct texts, so comparing the status strings compares the statuses. */
  lemma NameInjective(a: JobStatus, b: JobStatus)
    ensures a.Name() == b.Name() <==> a == b
  {
  }

  /** A job may expire once it is more than a day old (ages are in seconds). */
  const ExpiryAge: int := 24 * 3600

  /**
   * Where the job stands: the completion flag, the failure and clean-up
   * flags, the status and message clients see, the end time and the
   * job's duration, and the counts of tasks added and reported back.
   */
  datatype Progress = Progress(
    flaggedComplete: bool,
    failed: bool,
    cleaned: bool,
    status: Option<JobStatus>,
    message: Option<string>,
    endTime: Option<int>,
    jobTime: Option<int>,
    totalTasks: int,
    markedTasks: int)

  /**
   * What runs the job: `hasTaskSet` is false once the clean-up has dropped
   * the task set, `enqueued` lists what was handed to it in order; the
   * download, the thumbnail stage, the first passes by extension, and the
   * callback.
   */
  datatype Stages = Stages(
    hasTaskSet: bool,
    enqueued: seq<Stage>,
    download: Downloads.FileDownload?,
    thumbGenerator: Thumbnails.ThumbnailGenerator?,
    passes: map<string, Passes.Multipass>,
    callbackUrl: Option<string>)

  /** What the job produced: the tasks' results, whether one is segmented, the master playlist last written. */
  datatype Outputs = Outputs(
    results: Option<seq<Results.TranscoderResult>>,
    adaptive: bool,
    manifest: Option<string>)

  /**
   * The job's fields; `dirExists` and `files` describe its working
   * directory, `publishDir` whether its directory under the video
   * destination, where move mode publishes, exists.
   */
  datatype JobState = JobState(
    progress: Progress,
    stages: Stages,
    outputs: Outputs,
    tag: Option<string>,
    dirExists: bool,
    files: set<string>,
    publishDir: bool)

  /** The job's working directory: the configured root, the token, and a closing separator. */
  function WorkingDirectory(root: string, token: string): (d: string)
    ensures |d| > 0 && d[|d| - 1] == Sep
    ensures StartsWith(d, root + [Sep] + token)
    ensures token != [] && token[|token| - 1] != Sep ==> d == root + [Sep] + token + [Sep]
  {
    var d := root + [Sep] + token;
    if d[|d| - 1] != Sep then d + [Sep] else d
  }

  // ------------------------------------------------------------ completion

  /**
   * `IsComplete`, given whether the task set and the thumbnail stage have
   * finished. Before the clean-up both must exist.
   */
  predicate IsCompleteOf(st: JobState, taskSetDone: bool, thumbsDone: bool)
  {
    if !st.progress.cleaned && (!st.stages.hasTaskSet || st.stages.thumbGenerator == null) then false
    else st.progress.flaggedComplete && (st.progress.cleaned || (taskSetDone && thumbsDone))
  }

  /**
   * A complete job has been flagged complete. A job that has not been
   * cleaned is complete exactly when it is flagged and its task set and
   * thumbnail stage both exist and have finished; a cleaned one as soon
   * as it is flagged.
   */
  lemma IsCompleteRule(st: JobState, taskSetDone: bool, thumbsDone: bool)
    ensures IsCompleteOf(st, taskSetDone, thumbsDone) ==> st.progress.flaggedComplete
    ensures !st.progress.cleaned ==>
      (IsCompleteOf(st, taskSetDone, thumbsDone) <==>
         st.progress.flaggedComplete && st.stages.hasTaskSet && st.stages.thumbGenerator != null && taskSetDone && thumbsDone)
    ensures st.progress.cleaned ==> (IsCompleteOf(st, taskSetDone, thumbsDone) <==> st.progress.flaggedComplete)
  {
  }

  /** `CanExpire`: older than a day, or complete with every task reported back. */
  function CanExpireOf(st: JobState, startTime: int, now: int, taskSetDone: bool, thumbsDone: bool): (r: bool)
    ensures now - startTime > ExpiryAge ==> r
    ensures r ==> now - startTime > ExpiryAge || st.progress.flaggedComplete
  {
    now - startTime > ExpiryAge || (IsCompleteOf(st, taskSetDone, thumbsDone) && st.progress.markedTasks == st.progress.totalTasks)
  }

  /**
   * What `CanExpire` promises its callers. Once a job can expire it stays
   * able to as time passes. A complete job with every task reported back
   * can expire at any age. A job under a day old can expire only when it
   * is complete and every task has been reported back.
   */
  lemma CanExpireRule(st: JobState, startTime: int, now: int, later: int, taskSetDone: bool, thumbsDone: bool)
    ensures now <= later && CanExpireOf(st, startTime, now, taskSetDone, thumbsDone) ==>
      CanExpireOf(st, startTime, later, taskSetDone, thumbsDone)
    ensures IsCompleteOf(st, taskSetDone, thumbsDone) && st.progress.markedTasks == st.progress.totalTasks ==>
      CanExpireOf(st, startTime, now, taskSetDone, thumbsDone)
    ensures now - startTime <= ExpiryAge && !IsCompleteOf(st, taskSetDone, thumbsDone) ==>
      !CanExpireOf(st, startTime, now, taskSetDone, thumbsDone)
    ensures now - startTime <= ExpiryAge && st.progress.markedTasks != st.progress.totalTasks ==>
      !CanExpireOf(st, startTime, now, taskSetDone, thumbsDone)
  {
  }

  /** The job ends with `status`, finished now. */
  function Finish(p: Progress, status: JobStatus, startTime: int, now: int): (r: Progress)
    ensures r.status == Some(status) && r.endTime == Some(now) && r.jobTime == Some(now - startTime)
    ensures r.(status := p.status, endTime := p.endTime, jobTime := p.jobTime) == p
  {
    p.(status := Some(status), endTime := Some(now), jobTime := Some(now - startTime))
  }

  /**
   * `Complete`. Only the first call acts: it flags the job and, when the
   * thumbnail stage exists and both it and the task set have finished,
   * makes a job that has not failed "Complete". `raised` is the null task
   * set the call trips over when a thumbnail stage outlived the clean-up.
   */
  function CompleteStep(p: Progress, s: Stages, startTime: int, now: int, taskSetDone: bool, thumbsDone: bool): (Progress, bool)
  {
    if p.flaggedComplete then (p, false)
    else
      var p1 := p.(flaggedComplete := true);
      if s.thumbGenerator == null then (p1, false)
      else if !s.hasTaskSet then (p1, true)
      else if taskSetDone && thumbsDone && !p1.failed then (Finish(p1, Complete, startTime, now), false)
      else (p1, false)
  }

  /** Once flagged, later calls of `Complete` change nothing, whatever the inputs then. */
  lemma CompleteOnce(p: Progress, s: Stages, startTime: int, now: int, taskSetDone: bool, thumbsDone: bool,
                     later: Stages, laterNow: int, laterTaskSetDone: bool, laterThumbsDone: bool)
    ensures var (p1, _) := CompleteStep(p, s, startTime, now, taskSetDone, thumbsDone);
      p1.flaggedComplete && CompleteStep(p1, later, startTime, laterNow, laterTaskSetDone, laterThumbsDone) == (p1, false)
  {
  }

  /**
   * `Complete` makes a job "Complete" exactly on its first call, with a
   * thumbnail stage, a finished task set and finished thumbnails, and not
   * after a failure; the job is then complete. It raises only when the
   * thumbnail stage outlived the task set. Nothing but the flag, the
   * status and the times changes.
   */
  lemma CompleteStatus(st: JobState, startTime: int, now: int, taskSetDone: bool, thumbsDone: bool)
    requires st.progress.status != Some(Complete)
    ensures var (p, raised) := CompleteStep(st.progress, st.stages, startTime, now, taskSetDone, thumbsDone);
      && (p.status == Some(Complete) <==>
            !st.progress.flaggedComplete && st.stages.thumbGenerator != null && st.stages.hasTaskSet &&
            taskSetDone && thumbsDone && !st.progress.failed)
      && (p.status == Some(Complete) ==> IsCompleteOf(st.(progress := p), taskSetDone, thumbsDone))
      && (raised <==> !st.progress.flaggedComplete && st.stages.thumbGenerator != null && !st.stages.hasTaskSet)
      && p.(flaggedComplete := st.progress.flaggedComplete, status := st.progress.status,
            endTime := st.progress.endTime, jobTime := st.progress.jobTime) == st.progress
  {
  }

  // --------------------------------------------------------- clean-up, fail

  /**
   * `CleanUp`: deleting the files and the directory throws when the
   * directory does not exist, and the exception is caught before anything
   * else changes. Otherwise the job drops its stages and its callback.
   */
  function CleanUpStep(st: JobState): JobState
  {
    if !st.dirExists then st
    else st.(files := {}, dirExists := false, progress := st.progress.(cleaned := true),
             stages := st.stages.(passes := map[], hasTaskSet := false, download := null,
                                  thumbGenerator := null, callbackUrl := None))
  }

  /**
   * The clean-up succeeds exactly when the directory exists; a second one
   * changes nothing. A cleaned job has no stages, no passes and no
   * callback, and is complete as soon as it is flagged. The outputs, the
   * tag, the tasks handed over and all of the progress but the clean-up
   * flag stay.
   */
  lemma CleanUpRule(st: JobState, taskSetDone: bool, thumbsDone: bool)
    ensures var s := CleanUpStep(st);
      && (s != st <==> st.dirExists)
      && CleanUpStep(s) == s
      && (st.dirExists ==>
            s.progress.cleaned && !s.dirExists && s.files == {} && s.stages.passes == map[] && !s.stages.hasTaskSet &&
            s.stages.download == null && s.stages.thumbGenerator == null && s.stages.callbackUrl == None &&
            (IsCompleteOf(s, taskSetDone, thumbsDone) <==> s.progress.flaggedComplete))
      && s.progress.(cleaned := st.progress.cleaned) == st.progress
      && s.outputs == st.outputs && s.tag == st.tag && s.stages.enqueued == st.stages.enqueued
  {
  }

  /** `Fail`: failed, "Failed", with the message, finished now, then cleaned up. */
  function FailStep(st: JobState, startTime: int, now: int, message: string): JobState
  {
    CleanUpStep(st.(progress := Finish(st.progress.(failed := true, message := Some(message)), Failed, startTime, now)))
  }

  /** A failed job stays "Failed": neither `Complete` nor a task's report changes its status afterwards. */
  lemma FailIsFinal(st: JobState, startTime: int, now: int, message: string,
                    later: int, taskSetDone: bool, thumbsDone: bool, isResult: bool, moveMode: bool,
                    opensDir: bool, segmentsMissing: bool, renditions: seq<Rendition>)
    ensures var s := FailStep(st, startTime, now, message);
      && s.progress.failed && s.progress.status == Some(Failed) && s.progress.message == Some(message)
      && s.progress.endTime == Some(now) && s.progress.jobTime == Some(now - startTime)
      && (s.progress.cleaned <==> st.progress.cleaned || st.dirExists)
      && CompleteStep(s.progress, s.stages, startTime, later, taskSetDone, thumbsDone).0.status == Some(Failed)
      && NotifyStep(s, startTime, later, isResult, moveMode, opensDir, segmentsMissing, renditions, taskSetDone).progress.status == Some(Failed)
  {
  }

  // ------------------------------------------------------------ stages

  /** A stage handed to the task set, unless the job failed (or the task set is gone: that throws and is caught). */
  function Enqueue(s: Stages, failed: bool, x: Stage): (r: Stages)
    ensures r.(enqueued := s.enqueued) == s
    ensures r.enqueued == if !failed && s.hasTaskSet then s.enqueued + [x] else s.enqueued
  {
    if !failed && s.hasTaskSet then s.(enqueued := s.enqueued + [x]) else s
  }

  /**
   * `AddDownload`: "Downloading", the stage is stored, the directory is
   * created and emptied, a staged upload is moved into it, the result
   * list starts empty, and the stage is enqueued.
   */
  function AddDownloadStep(st: JobState, d: Downloads.FileDownload, staged: bool): JobState
  {
    st.(progress := st.progress.(status := Some(Downloading)),
        stages := Enqueue(st.stages.(download := d), st.progress.failed, DownloadStage(d)),
        dirExists := true, files := if staged then {d.dest} else {},
        outputs := st.outputs.(results := Some([])))
  }

  /**
   * `AddFirstPass`: the first pass registered for an extension stays;
   * a later one for the same extension is ignored.
   */
  function AddPassStep(st: JobState, p: Passes.Multipass): JobState
  {
    if p.extension in st.stages.passes then st
    else st.(stages := Enqueue(st.stages.(passes := st.stages.passes[p.extension := p]), st.progress.failed, PassStage(p)),
             dirExists := true)
  }

  /** The first pass for an extension is the one kept; the passes for other extensions do not change. */
  lemma AddPassRule(st: JobState, p: Passes.Multipass)
    ensures var s := AddPassStep(st, p);
      && p.extension in s.stages.passes
      && (p.extension in st.stages.passes ==> s == st)
      && (p.extension !in st.stages.passes ==> s.stages.passes[p.extension] == p)
      && (forall e :: e != p.extension ==> (e in s.stages.passes <==> e in st.stages.passes))
      && (forall e :: e != p.extension && e in st.stages.passes ==> s.stages.passes[e] == st.stages.passes[e])
  {
  }

  /**
   * `AddTask`. A job that is flagged complete or failed refuses the task
   * and does not change. Otherwise the directory is created, a segmented
   * task makes the job adaptive and creates its publish directory, and
   * the job is "Working"; the task is
   * enqueued and the result appended, unless the task set or the result
   * list is missing, which throws and is caught and answers false.
   */
  function AddTaskStep(st: JobState, t: Tasks.TranscodeTask, r: Results.TranscoderResult): (JobState, bool)
  {
    if st.progress.flaggedComplete || st.progress.failed then (st, false)
    else
      var s1 := st.(dirExists := true, outputs := st.outputs.(adaptive := st.outputs.adaptive || t.IsSegmented()),
                    publishDir := st.publishDir || t.IsSegmented(),
                    progress := st.progress.(status := Some(Working)));
      if !s1.stages.hasTaskSet then (s1, false)
      else
        var s2 := s1.(stages := s1.stages.(enqueued := s1.stages.enqueued + [TaskStage(t)]));
        if s2.outputs.results.None? then (s2, false)
        else (s2.(outputs := s2.outputs.(results := Some(s2.outputs.results.value + [r])),
                  progress := s2.progress.(totalTasks := Wrap32(s2.progress.totalTasks + 1))), true)
  }

  /**
   * A task is accepted exactly when the job is neither flagged complete
   * nor failed and has its task set and result list; an accepted task's
   * job is "Working", its result list grows by exactly that result and it
   * counts one more task. A refused task changes nothing when the job was
   * flagged complete or failed.
   */
  lemma AddTaskRule(st: JobState, t: Tasks.TranscodeTask, r: Results.TranscoderResult)
    ensures var (s, ok) := AddTaskStep(st, t, r);
      && (ok <==> !st.progress.flaggedComplete && !st.progress.failed && st.stages.hasTaskSet && st.outputs.results.Some?)
      && (ok ==> s.progress.status == Some(Working) && s.outputs.results == Some(st.outputs.results.value + [r]) &&
                 s.progress.totalTasks == Wrap32(st.progress.totalTasks + 1) &&
                 s.stages.enqueued == st.stages.enqueued + [TaskStage(t)])
      && (st.progress.flaggedComplete || st.progress.failed ==> s == st)
      && s.progress.flaggedComplete == st.progress.flaggedComplete && s.progress.failed == st.progress.failed
      && s.progress.markedTasks == st.progress.markedTasks
      && (s.publishDir <==> st.publishDir || (!st.progress.flaggedComplete && !st.progress.failed && t.IsSegmented()))
  {
  }

  /**
   * `GenerateThumbnails` with `g` the new thumbnail stage: refused after a
   * failure; otherwise the stage is stored, the job is "Working", and the
   * stage is enqueued when the task set still exists.
   */
  function ThumbStep(st: JobState, g: Thumbnails.ThumbnailGenerator): (JobState, bool)
  {
    if st.progress.failed then (st, false)
    else
      (st.(dirExists := true, progress := st.progress.(status := Some(Working)),
           stages := Enqueue(st.stages.(thumbGenerator := g), false, ThumbStage(g))),
       st.stages.hasTaskSet)
  }

  // ---------------------------------------------------------- notifications

  /** What a master playlist lists of the job's results. */
  function Renditions(rs: seq<Results.TranscoderResult>, cfg: Config): (r: seq<Rendition>)
    reads set x | x in rs
    ensures |r| == |rs|
    ensures forall i :: 0 <= i < |rs| ==> r[i] == rs[i].AsRendition(cfg)
  {
    if rs == [] then [] else [rs[0].AsRendition(cfg)] + Renditions(rs[1..], cfg)
  }

  /**
   * How a task's report settles the status: once the task set has
   * finished, a job that has not failed is "Complete" when flagged and
   * "Waiting" otherwise.
   */
  function Settle(p: Progress, hasTaskSet: bool, taskSetDone: bool, startTime: int, now: int): Progress
  {
    if hasTaskSet && taskSetDone && !p.failed then
      if p.flaggedComplete then Finish(p, Complete, startTime, now) else p.(status := Some(Waiting))
    else p
  }

  /** Whether a task's result is moved to the publish directory: a result, in move mode, with a result list. */
  predicate Moves(st: JobState, isResult: bool, moveMode: bool)
  {
    isResult && moveMode && st.outputs.results.Some?
  }

  /**
   * In move mode a result that names a file or is segmented creates the
   * publish directory (`opensDir`), and the files of a segmented result
   * are moved one by one: a result flagged as segmented whose segment
   * list is `null` (the segmenter wrote no playlist) makes that loop
   * throw. The master playlist is then written into the publish
   * directory, which throws when it still does not exist.
   */
  predicate NotifyThrows(st: JobState, isResult: bool, moveMode: bool, opensDir: bool, segmentsMissing: bool)
  {
    Moves(st, isResult, moveMode) && (segmentsMissing || !(st.publishDir || opensDir))
  }

  /**
   * `NotifyCompleted`. For a task's result, in move mode, the master
   * playlist of `renditions` (the results, as they stand) is written with
   * every listed result required to have a file; a callback, when there is
   * one, counts one more reported task whether or not it is delivered.
   * Then the status settles. When the move throws (see `NotifyThrows`)
   * the exception is caught and nothing happens after it.
   */
  function NotifyStep(st: JobState, startTime: int, now: int, isResult: bool, moveMode: bool, opensDir: bool,
                      segmentsMissing: bool, renditions: seq<Rendition>, taskSetDone: bool): JobState
  {
    var (s, raised) := RecordStep(st, isResult, moveMode, opensDir, segmentsMissing, renditions);
    if raised then s else s.(progress := Settle(s.progress, s.stages.hasTaskSet, taskSetDone, startTime, now))
  }

  /** The first half of `NotifyCompleted`: the manifest and the reported count, or the exception. */
  function RecordStep(st: JobState, isResult: bool, moveMode: bool, opensDir: bool, segmentsMissing: bool,
                      renditions: seq<Rendition>): (JobState, bool)
  {
    var s0 := if Moves(st, isResult, moveMode) && opensDir then st.(publishDir := true) else st;
    if NotifyThrows(st, isResult, moveMode, opensDir, segmentsMissing) then (s0, true)
    else
      var o := if Moves(st, isResult, moveMode)
               then st.outputs.(manifest := Some(MasterPlaylist(renditions, true))) else st.outputs;
      var p := if isResult && !IsNullOrEmpty(st.stages.callbackUrl)
               then st.progress.(markedTasks := Wrap32(st.progress.markedTasks + 1)) else st.progress;
      (s0.(outputs := o, progress := p), false)
  }

  /**
   * A task's report with a callback counts exactly one more reported task;
   * nothing else does. The status follows the task set and the flag, and
   * the manifest is the master playlist of the results. In move mode a
   * segmented result without its segment list, or a result that leaves
   * the publish directory missing, changes nothing but that directory:
   * no manifest, no count, no status.
   */
  lemma NotifyRule(st: JobState, startTime: int, now: int, isResult: bool, moveMode: bool, opensDir: bool,
                   segmentsMissing: bool, renditions: seq<Rendition>, taskSetDone: bool)
    ensures var s := NotifyStep(st, startTime, now, isResult, moveMode, opensDir, segmentsMissing, renditions, taskSetDone);
      && (NotifyThrows(st, isResult, moveMode, opensDir, segmentsMissing) <==>
            Moves(st, isResult, moveMode) && (segmentsMissing || (!st.publishDir && !opensDir)))
      && (s.publishDir <==> st.publishDir || (Moves(st, isResult, moveMode) && opensDir))
      && (NotifyThrows(st, isResult, moveMode, opensDir, segmentsMissing) ==> s == st.(publishDir := s.publishDir))
      && (!NotifyThrows(st, isResult, moveMode, opensDir, segmentsMissing) ==>
            && s.progress.markedTasks ==
                 (if isResult && !IsNullOrEmpty(st.stages.callbackUrl) then Wrap32(st.progress.markedTasks + 1) else st.progress.markedTasks)
            && s.progress.status == (if st.stages.hasTaskSet && taskSetDone && !st.progress.failed
                                      then Some(if st.progress.flaggedComplete then Complete else Waiting)
                                      else st.progress.status)
            && s.outputs.manifest ==
                 (if Moves(st, isResult, moveMode) then Some(MasterPlaylist(renditions, true)) else st.outputs.manifest))
      && s.outputs.results == st.outputs.results && s.stages == st.stages
      && s.progress.flaggedComplete == st.progress.flaggedComplete && s.progress.failed == st.progress.failed
      && s.progress.cleaned == st.progress.cleaned && s.progress.totalTasks == st.progress.totalTasks
  {
  }

  /** An exception a stage reports: whether it, or its inner exception, is a job failure. */
  datatype Failure = Failure(isJobFailure: bool, innerIsJobFailure: bool, message: string)

  predicate FailsJob(ex: Failure) { ex.isJobFailure || ex.innerIsJobFailure }

  /**
   * `NotifyException`. A job failure is reported to the callback (counting
   * a reported task only when the request goes through) and fails the
   * job. Any other exception only leaves its message and, once the task
   * set has finished, makes the job "Incomplete" when flagged and
   * "Waiting" otherwise; without a task set that test throws and is caught.
   */
  function ExceptionStep(st: JobState, startTime: int, now: int, ex: Failure, posted: bool, taskSetDone: bool): JobState
  {
    if FailsJob(ex) then
      var p := if !IsNullOrEmpty(st.stages.callbackUrl) && posted
               then st.progress.(markedTasks := Wrap32(st.progress.markedTasks + 1)) else st.progress;
      FailStep(st.(progress := p), startTime, now, ex.message)
    else
      var p := st.progress.(message := Some(ex.message));
      st.(progress := if st.stages.hasTaskSet && taskSetDone
                      then p.(status := Some(if p.flaggedComplete then Incomplete else Waiting)) else p)
  }

  /**
   * An exception always leaves its message. A job failure fails the job;
   * any other exception changes neither the failure flag, the completion
   * flag nor the reported count, and sets the status only once the task
   * set has finished.
   */
  lemma ExceptionRule(st: JobState, startTime: int, now: int, ex: Failure, posted: bool, taskSetDone: bool)
    ensures var s := ExceptionStep(st, startTime, now, ex, posted, taskSetDone);
      && s.progress.message == Some(ex.message)
      && (FailsJob(ex) ==> s.progress.failed && s.progress.status == Some(Failed) &&
                           (s.progress.cleaned <==> st.progress.cleaned || st.dirExists))
      && (!FailsJob(ex) ==>
            s.progress.failed == st.progress.failed && s.progress.markedTasks == st.progress.markedTasks &&
            s.progress.flaggedComplete == st.progress.flaggedComplete &&
            s.progress.status == (if st.stages.hasTaskSet && taskSetDone
                                  then Some(if st.progress.flaggedComplete then Incomplete else Waiting)
                                  else st.progress.status))
  {
  }

  // ------------------------------------------------------------- getters

  /** The name of the `x`-th thumbnail the thumbnail stage writes for a job. */
  function ThumbName(token: string, x: int): string
  {
    "thumbnail-" + token + "_000" + IntToString(x) + ".jpg"
  }

  /** Where a client fetches the `x`-th thumbnail. */
  function ThumbUrl(cfg: Config, token: string, x: int): string
  {
    if MoveMode(cfg) then cfg.serveUrl + cfg.thumbDestination + "/" + token + "/" + ThumbName(token, x)
    else "/thumbs/" + ThumbName(token, x)
  }

  /**
   * Whether the `x`-th thumbnail exists: among the published files in
   * move mode, in the working directory's `files` otherwise.
   */
  predicate ThumbExists(cfg: Config, token: string, files: set<string>, published: set<string>, x: int)
  {
    if MoveMode(cfg) then cfg.fileRoot + [Sep] + cfg.thumbDestination + [Sep] + token + [Sep] + ThumbName(token, x) in published
    else ThumbName(token, x) in files
  }

  /** The thumbnails `x` to 5 that exist, in order. */
  function ThumbsFrom(cfg: Config, token: string, files: set<string>, published: set<string>, x: int): (r: seq<string>)
    requires 1 <= x <= 6
    ensures |r| <= 6 - x
    decreases 6 - x
  {
    if x == 6 then []
    else (if ThumbExists(cfg, token, files, published, x) then [ThumbUrl(cfg, token, x)] else [])
         + ThumbsFrom(cfg, token, files, published, x + 1)
  }

  /** The list holds exactly the URLs of the thumbnails from `x` on that exist. */
  lemma {:induction false} ThumbsFromSpec(cfg: Config, token: string, files: set<string>, published: set<string>, x: int)
    requires 1 <= x <= 6
    ensures forall y :: x <= y <= 5 && ThumbExists(cfg, token, files, published, y) ==>
      ThumbUrl(cfg, token, y) in ThumbsFrom(cfg, token, files, published, x)
    ensures forall u :: u in ThumbsFrom(cfg, token, files, published, x) ==>
      exists y :: x <= y <= 5 && ThumbExists(cfg, token, files, published, y) && u == ThumbUrl(cfg, token, y)
    decreases 6 - x
  {
    if x < 6 {
      ThumbsFromSpec(cfg, token, files, published, x + 1);
    }
  }

  /** One step of collecting the thumbnails: the `x`-th is taken or skipped. */
  lemma ThumbsStep(cfg: Config, token: string, files: set<string>, published: set<string>, x: int, done: seq<string>)
    requires 1 <= x <= 5
    ensures done + ThumbsFrom(cfg, token, files, published, x) ==
      (if ThumbExists(cfg, token, files, published, x) then done + [ThumbUrl(cfg, token, x)] else done)
      + ThumbsFrom(cfg, token, files, published, x + 1)
  {
    var rest := ThumbsFrom(cfg, token, files, published, x + 1);
    var found := if ThumbExists(cfg, token, files, published, x) then [ThumbUrl(cfg, token, x)] else [];
    assert ThumbsFrom(cfg, token, files, published, x) == found + rest;
    SeqAssoc(done, found, rest);
  }

  lemma SeqAssoc(a: seq<string>, b: seq<string>, c: seq<string>)
    ensures a + (b + c) == (a + b) + c
  {
  }

  /** A result whose move creates the publish directory: it names a result file, or is segmented. */
  predicate OpensPublishDir(data: Results.TranscoderResult?)
    reads data
  {
    data != null && (!IsNullOrEmpty(data.resultVideo) || data.hasSegments)
  }

  /** A segmented result whose segment list is `null`. */
  predicate SegmentsMissing(data: Results.TranscoderResult?)
    reads data
  {
    data != null && data.hasSegments && data.segments.None?
  }

  // ---------------------------------------------------------- the job

  /**
   * The job. Its fields are kept in the three records above (`progress`,
   * `stages`, `outputs`) beside the tag and the working directory.
   */
  class TranscodeJob {
    const jobToken: string
    const workingDirectory: string
    const startTime: int
    var progress: Progress
    var stages: Stages
    var outputs: Outputs
    var tag: Option<string>
    var dirExists: bool
    var files: set<string>
    var publishDir: bool

    function State(): JobState
      reads this
    {
      JobState(progress, stages, outputs, tag, dirExists, files, publishDir)
    }

    /** Whether the thumbnail stage exists and has finished. */
    predicate ThumbsDone()
      reads this, stages.thumbGenerator
    {
      stages.thumbGenerator != null && stages.thumbGenerator.complete
    }

    predicate IsComplete(taskSetDone: bool)
      reads this, stages.thumbGenerator
    {
      IsCompleteOf(State(), taskSetDone, ThumbsDone())
    }

    predicate CanExpire(now: int, taskSetDone: bool)
      reads this, stages.thumbGenerator
    {
      CanExpireOf(State(), startTime, now, taskSetDone, ThumbsDone())
    }

    /**
     * A new job at time `now`: nothing added yet, with its own task set.
     * `dirExists` and `files` are what the disk holds at its working directory,
     * `publishDir` whether its publish directory exists already.
     */
    constructor(cfg: Config, token: string, callbackUrl: Option<string>, now: int, dirExists: bool, files: set<string>,
                publishDir: bool)
      ensures jobToken == token && workingDirectory == WorkingDirectory(cfg.workingDir, token) && startTime == now
      ensures State() == JobState(Progress(false, false, false, None, None, None, None, 0, 0),
                                  Stages(true, [], null, null, map[], callbackUrl),
                                  Outputs(None, false, None), None, dirExists, files, publishDir)
    {
      jobToken, startTime := token, now;
      workingDirectory := WorkingDirectory(cfg.workingDir, token);
      progress := Progress(false, false, false, None, None, None, None, 0, 0);
      stages := Stages(true, [], null, null, map[], callbackUrl);
      outputs := Outputs(None, false, None);
      tag := None;
      this.dirExists, this.files, this.publishDir := dirExists, files, publishDir;
    }

    method SetTag(value: Option<string>)
      modifies this
      ensures State() == old(State()).(tag := value)
    {
      tag := value;
    }

    method CleanUp()
      modifies this
      ensures State() == CleanUpStep(old(State()))
    {
      if !dirExists {
        return;
      }
      files, dirExists := {}, false;
      stages := stages.(passes := map[], hasTaskSet := false, download := null, thumbGenerator := null, callbackUrl := None);
      progress := progress.(cleaned := true);
    }

    method Fail(msg: string, now: int)
      modifies this
      ensures State() == FailStep(old(State()), startTime, now, msg)
    {
      progress := progress.(failed := true, message := Some(msg));
      progress := Finish(progress, Failed, startTime, now);
      CleanUp();
    }

    /** `Complete`; `raised` is the exception it lets escape. */
    method Complete(now: int, taskSetDone: bool) returns (raised: bool)
      modifies this
      ensures (progress, raised) == CompleteStep(old(progress), old(stages), startTime, now, taskSetDone, old(ThumbsDone()))
      ensures stages == old(stages) && outputs == old(outputs) && tag == old(tag)
      ensures dirExists == old(dirExists) && files == old(files) && publishDir == old(publishDir)
    {
      raised := false;
      if progress.flaggedComplete {
        return;
      }
      progress := progress.(flaggedComplete := true);
      if stages.thumbGenerator == null {
        return;
      }
      if !stages.hasTaskSet {
        raised := true;
        return;
      }
      if taskSetDone && stages.thumbGenerator.complete && !progress.failed {
        progress := Finish(progress, JobStatus.Complete, startTime, now);
      }
    }

    /** `staged` says whether the upload is waiting at the root of the working tree. */
    method AddDownload(d: Downloads.FileDownload, staged: bool)
      modifies this
      ensures State() == AddDownloadStep(old(State()), d, staged)
    {
      progress := progress.(status := Some(Downloading));
      stages := stages.(download := d);
      dirExists := true;
      files := {};
      if staged {
        files := files + {d.dest};
      }
      outputs := outputs.(results := Some([]));
      stages := Enqueue(stages, progress.failed, DownloadStage(d));
    }

    method AddFirstPass(p: Passes.Multipass)
      modifies this
      ensures State() == AddPassStep(old(State()), p)
    {
      if p.extension !in stages.passes {
        stages := stages.(passes := stages.passes[p.extension := p]);
        dirExists := true;
        stages := Enqueue(stages, progress.failed, PassStage(p));
      }
    }

    method AddTask(t: Tasks.TranscodeTask, r: Results.TranscoderResult) returns (ok: bool)
      modifies this
      ensures (State(), ok) == AddTaskStep(old(State()), t, r)
    {
      if progress.flaggedComplete || progress.failed {
        return false;
      }
      dirExists := true;
      if t.IsSegmented() {
        outputs := outputs.(adaptive := true);
        publishDir := true;
      }
      progress := progress.(status := Some(Working));
      if !stages.hasTaskSet {
        return false;
      }
      stages := stages.(enqueued := stages.enqueued + [TaskStage(t)]);
      if outputs.results.None? {
        return false;
      }
      outputs := outputs.(results := Some(outputs.results.value + [r]));
      progress := progress.(totalTasks := Wrap32(progress.totalTasks + 1));
      return true;
    }

    method GenerateThumbnails() returns (ok: bool)
      modifies this
      ensures old(progress.failed) ==> !ok && State() == old(State())
      ensures !old(progress.failed) ==>
        var g := stages.thumbGenerator;
        g != null && fresh(g) && g.id == jobToken && g.workingDir == workingDirectory &&
        g.downloader == old(stages.download) && !g.complete &&
        (State(), ok) == ThumbStep(old(State()), g)
    {
      if progress.failed {
        return false;
      }
      dirExists := true;
      var g := new Thumbnails.ThumbnailGenerator(jobToken, workingDirectory, stages.download);
      progress := progress.(status := Some(Working));
      stages := Enqueue(stages.(thumbGenerator := g), false, ThumbStage(g));
      ok := stages.hasTaskSet;
    }

    /** `NotifyCompleted`; `data` is the task's result, `null` for any other stage. */
    method NotifyCompleted(data: Results.TranscoderResult?, cfg: Config, taskSetDone: bool, now: int)
      modifies this
      ensures State() == NotifyStep(old(State()), startTime, now, data != null, MoveMode(cfg), OpensPublishDir(data),
                                    SegmentsMissing(data),
                                    old(if outputs.results.Some? then Renditions(outputs.results.value, cfg) else []),
                                    taskSetDone)
    {
      var rendered := if outputs.results.Some? then Renditions(outputs.results.value, cfg) else [];
      var raised := Record(data != null, MoveMode(cfg), OpensPublishDir(data), SegmentsMissing(data), rendered);
      if !raised {
        progress := Settle(progress, stages.hasTaskSet, taskSetDone, startTime, now);
      }
    }

    method Record(isResult: bool, moveMode: bool, opensDir: bool, segmentsMissing: bool, rendered: seq<Rendition>)
      returns (raised: bool)
      modifies this
      ensures (State(), raised) == RecordStep(old(State()), isResult, moveMode, opensDir, segmentsMissing, rendered)
    {
      if isResult {
        if outputs.results.Some? && moveMode {
          if opensDir {
            publishDir := true;
          }
          if segmentsMissing {
            return true; // the loop over the segment files throws on null
          }
          if !publishDir {
            return true; // the master playlist's writer throws on a missing directory
          }
          var text := BuildMasterPlaylist(rendered, true);
          outputs := outputs.(manifest := Some(text));
        }
        if !IsNullOrEmpty(stages.callbackUrl) {
          progress := progress.(markedTasks := Wrap32(progress.markedTasks + 1));
        }
      }
      return false;
    }

    /** `NotifyException`; `posted` says whether the callback request goes through. */
    method NotifyException(ex: Failure, posted: bool, taskSetDone: bool, now: int)
      modifies this
      ensures State() == ExceptionStep(old(State()), startTime, now, ex, posted, taskSetDone)
    {
      if FailsJob(ex) {
        if !IsNullOrEmpty(stages.callbackUrl) && posted {
          progress := progress.(markedTasks := Wrap32(progress.markedTasks + 1));
        }
        Fail(ex.message, now);
      } else {
        progress := progress.(message := Some(ex.message));
        if stages.hasTaskSet && taskSetDone {
          progress := progress.(status := Some(if progress.flaggedComplete then Incomplete else Waiting));
        }
      }
    }

    /** The `Thumbnails` getter: the thumbnails that exist, once the thumbnail stage is over. */
    method Thumbnails(cfg: Config, published: set<string>) returns (thumbs: seq<string>)
      ensures thumbs == if ThumbsDone() || (stages.thumbGenerator == null && progress.cleaned)
                        then ThumbsFrom(cfg, jobToken, files, published, 1) else []
    {
      thumbs := [];
      if ThumbsDone() || (stages.thumbGenerator == null && progress.cleaned) {
        var x := 1;
        while x <= 5
          invariant 1 <= x <= 6
          invariant thumbs + ThumbsFrom(cfg, jobToken, files, published, x) == ThumbsFrom(cfg, jobToken, files, published, 1)
        {
          ThumbsStep(cfg, jobToken, files, published, x, thumbs);
          if ThumbExists(cfg, jobToken, files, published, x) {
            thumbs := thumbs + [ThumbUrl(cfg, jobToken, x)];
          }
          x := x + 1;
        }
      }
    }

    /** The `Adaptive` getter: the job's master playlist, once a result exists and a task was segmented. */
    function Adaptive(cfg: Config): (r: Option<string>)
      reads this
      ensures r.Some? <==> outputs.results.Some? && outputs.results.value != [] && outputs.adaptive
      ensures r.Some? ==> EndsWith(r.value, "/adaptive.m3u8")
    {
      if outputs.results.None? || outputs.results.value == [] then None
      else if outputs.adaptive then
        Some(if MoveMode(cfg) then cfg.serveUrl + cfg.videoDestination + "/" + jobToken + "/adaptive.m3u8"
             else cfg.videoDestination + "/adaptive.m3u8")
      else None
    }
  }
}
