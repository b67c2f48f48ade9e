/**
 * `JobHandler`: the resource through which clients submit tasks. A POST
 * is checked parameter by parameter, in a fixed order, and the first
 * failing check answers 400; an accepted POST finds, creates or replaces
 * the job in the registry the sweep shares, and adds one task to it.
 * DELETE is meant to clean up and drop a job.
 */
module JobHandling {
  import opened Common
  import opened Text
  import opened Utility
  import HttpServer
  import Jobs
  import Service
  import Statistics
  import Downloads
  import Passes
  import Results
  import Tasks
  import Thumbnails

  // ---------------------------------------------------------- validation

  /** `^[a-zA-Z0-9_-]+$`, the pattern for job and task ids. */
  predicate IsId(s: string) { IsIdText(Anchored(s)) }

  /** `^[a-zA-Z0-9]+$`, the pattern for extensions. */
  predicate IsExtension(s: string) { IsAlnumText(Anchored(s)) }

  /** The identifiers the pattern accepts may end with one line feed, but not with two. */
  lemma IdWithLineFeed()
    ensures IsId("job\n") && !IsId("\n") && !IsId("job\n\n")
  {
    var s, t := "job\n", "job\n\n";
    assert Anchored(s) == "job";
    assert Anchored(t) == s && s[3] == '\n';
  }

  const MissingJobId: string := "Missing parameter jobid"
  const BadJobId: string := "Job parameter container invalid characters [allowed characters a-Z, 0-9, _ -]"
  const NoSuchJob: string := "No such job"
  const BadTaskId: string := "TaskID parameter container invalid characters [allowed characters a-Z, 0-9, _ -]"
  const MissingExtension: string := "Missing parameter extension"
  const BadExtension: string := "Extension contains invalid characters [allowed characters a-Z, 0-9]"
  const MissingPassOptions: string := "MultiPass enabled but multipass-options not provided"
  const MissingPassExtension: string := "MultiPass enabled but multipass-extension not provided"
  const BadPassExtension: string := "Multipass extension contains invalid characters [allowed characters a-Z, 0-9]"
  const BadSegment: string := "Invalid segment type valid types are [hls]"
  const MissingOptions: string := "Job must specify ffmpeg parameters or a preset"
  const MissingVideo: string := "Missing parameter video"
  const VideoTwice: string := "A video was uploaded but a video url parameter was also provided"
  const ServerError: string := "Server Error"

  /** Where the video comes from: the first uploaded file, or a URL to fetch. */
  datatype VideoSource = Upload(name: string) | Remote(url: string)

  /** The first pass a task asks for: the pass's extension and its options. */
  datatype FirstPass = FirstPass(extension: string, options: string)

  /** An accepted POST, its values normalised as the handler uses them. */
  datatype Submission = Submission(
    jobId: string,
    taskId: string,
    tag: Option<string>,
    extension: string,
    multiPass: Option<FirstPass>,
    segment: Option<string>,
    options: Option<string>,
    source: VideoSource,
    callbackUrl: Option<string>)

  /** How the checks end: a 400 with its message, a request to complete a job, or a submission. */
  datatype Checked = Rejected(message: string) | CompleteJob(jobId: string) | Accepted(sub: Submission)

  /** A form value as `Uri.UnescapeDataString(v.Replace("+", " "))` decodes it. */
  function Decoded(unescape: string -> string, v: string): string
  {
    unescape(Replace(v, "+", " "))
  }

  /** A parameter that counts as given: present and not empty. */
  function NonEmpty(v: Option<string>): (r: Option<string>)
    ensures r.Some? <==> !IsNullOrEmpty(v)
    ensures r.Some? ==> r == v
  {
    if IsNullOrEmpty(v) then None else v
  }

  /** The parameters a POST reads, each the first value under its name or `None` (null). */
  datatype Form = Form(
    jobId: Option<string>,
    taskId: Option<string>,
    complete: Option<string>,
    tag: Option<string>,
    video: Option<string>,
    preset: Option<string>,
    options: Option<string>,
    callback: Option<string>,
    extension: Option<string>,
    multiPass: Option<string>,
    passExtension: Option<string>,
    passOptions: Option<string>,
    segment: Option<string>)

  function FormOf(ps: Params): Form
  {
    Form(GetFirstValue(ps, "jobid"), GetFirstValue(ps, "taskid"), GetFirstValue(ps, "complete"),
         GetFirstValue(ps, "tag"), GetFirstValue(ps, "video"), GetFirstValue(ps, "preset"),
         GetFirstValue(ps, "encoding-options"), GetFirstValue(ps, "callback"),
         GetFirstValue(ps, "extension"), GetFirstValue(ps, "multipass"),
         GetFirstValue(ps, "multipass-extension"), GetFirstValue(ps, "multipass-options"),
         GetFirstValue(ps, "segment"))
  }

  /** One check of a POST: whether it fails, and the message it then answers. */
  datatype Check = Check(fails: bool, message: string)

  /** The message of the first failing check, if any fails. */
  function FirstFailure(cs: seq<Check>): (r: Option<string>)
    ensures r.None? <==> forall i :: 0 <= i < |cs| ==> !cs[i].fails
    ensures r.Some? ==> exists i :: 0 <= i < |cs| && cs[i].fails && cs[i].message == r.value &&
                                    forall j :: 0 <= j < i ==> !cs[j].fails
  {
    if cs == [] then None
    else if cs[0].fails then Some(cs[0].message)
    else
      var r := FirstFailure(cs[1..]);
      assert forall i :: 1 <= i < |cs| ==> cs[i] == cs[1..][i - 1];
      if r.Some? then
        var i :| 0 <= i < |cs[1..]| && cs[1..][i].fails && cs[1..][i].message == r.value &&
                 forall j :: 0 <= j < i ==> !cs[1..][j].fails;
        assert cs[i + 1].fails && forall j :: 0 <= j < i + 1 ==> !cs[j].fails;
        r
      else r
  }

  /**
   * The checks `HandlePost` makes after the job id and the `complete`
   * switch, in source order, on the form `f` with `uploads` the names of
   * the uploaded files. The handler returns at the first one that fails.
   */
  function Checks(f: Form, uploads: seq<string>): seq<Check>
  {
    var multiPass := !IsNullOrEmpty(f.multiPass);
    [Check(!IsNullOrEmpty(f.taskId) && !IsId(f.taskId.value), BadTaskId),
     Check(IsNullOrEmpty(f.extension), MissingExtension),
     Check(f.extension.Some? && !IsExtension(f.extension.value), BadExtension),
     Check(multiPass && IsNullOrEmpty(f.passOptions), MissingPassOptions),
     Check(multiPass && IsNullOrEmpty(f.passExtension), MissingPassExtension),
     Check(multiPass && f.passExtension.Some? && !IsExtension(f.passExtension.value), BadPassExtension),
     Check(!IsNullOrEmpty(f.segment) && ToLower(f.segment.value) != "hls", BadSegment),
     Check(IsNullOrEmpty(f.preset) && IsNullOrEmpty(f.options), MissingOptions),
     Check(|uploads| == 0 && IsNullOrEmpty(f.video), MissingVideo),
     Check(|uploads| > 0 && !IsNullOrEmpty(f.video), VideoTwice)]
  }

  /** Whether every check of `Checks` passes. */
  predicate AllPass(f: Form, uploads: seq<string>)
  {
    FirstFailure(Checks(f, uploads)).None?
  }

  /**
   * What the checks guarantee once all pass: an id-shaped task id when
   * one is given, a valid extension, a complete and valid first pass when
   * multipass is on, a segment type that reads `hls` in some case, ffmpeg
   * options or a preset, and exactly one video source; and the other way
   * round.
   */
  lemma AllPassRule(f: Form, uploads: seq<string>)
    ensures AllPass(f, uploads) <==>
      (!IsNullOrEmpty(f.taskId) ==> IsId(f.taskId.value)) &&
      f.extension.Some? && IsExtension(f.extension.value) &&
      (!IsNullOrEmpty(f.multiPass) ==>
         !IsNullOrEmpty(f.passOptions) && f.passExtension.Some? && IsExtension(f.passExtension.value)) &&
      (IsNullOrEmpty(f.segment) || ToLower(f.segment.value) == "hls") &&
      (!IsNullOrEmpty(f.preset) || !IsNullOrEmpty(f.options)) &&
      (|uploads| == 0 <==> !IsNullOrEmpty(f.video))
  {
    NoneOfTen(Checks(f, uploads));
  }

  /** No check of ten fails exactly when each of them passes. */
  lemma NoneOfTen(cs: seq<Check>)
    requires |cs| == 10
    ensures FirstFailure(cs).None? <==>
      !cs[0].fails && !cs[1].fails && !cs[2].fails && !cs[3].fails && !cs[4].fails &&
      !cs[5].fails && !cs[6].fails && !cs[7].fails && !cs[8].fails && !cs[9].fails
  {
  }

  /**
   * `HandlePost`'s chain of early returns on the form `ps` with `uploads`
   * the names of the uploaded files: a missing or malformed job id first,
   * then `complete`, then the checks of `Checks` in order. `randomId` is
   * the number drawn for a task without an id and `unescape` the URL
   * decoder.
   */
  function CheckPost(ps: Params, uploads: seq<string>, randomId: nat, unescape: string -> string): Checked
  {
    CheckForm(FormOf(ps), uploads, randomId, unescape)
  }

  function CheckForm(f: Form, uploads: seq<string>, randomId: nat, unescape: string -> string): Checked
  {
    if IsNullOrEmpty(f.jobId) then Rejected(MissingJobId)
    else if !IsId(f.jobId.value) then Rejected(BadJobId)
    else if !IsNullOrEmpty(f.complete) then CompleteJob(f.jobId.value)
    else match FirstFailure(Checks(f, uploads))
      case Some(m) => Rejected(m)
      case None => Accepted(Normalised(f, uploads, randomId, unescape))
  }

  /**
   * The submission of a form that passed every check: an empty task id is
   * replaced by the random number, the tag, callback and video URL are
   * unescaped, the options have '+' turned into a space first, the
   * segment type is written `hls`, and the pass values are dropped when
   * multipass is off.
   */
  function Normalised(f: Form, uploads: seq<string>, randomId: nat, unescape: string -> string): Submission
    requires !IsNullOrEmpty(f.jobId) && AllPass(f, uploads)
  {
    AllPassRule(f, uploads);
    Submission(
      f.jobId.value,
      if IsNullOrEmpty(f.taskId) then IntToString(randomId) else f.taskId.value,
      if IsNullOrEmpty(f.tag) then None else Some(unescape(f.tag.value)),
      f.extension.value,
      if IsNullOrEmpty(f.multiPass) then None
      else Some(FirstPass(f.passExtension.value, Decoded(unescape, f.passOptions.value))),
      if IsNullOrEmpty(f.segment) then f.segment else Some("hls"),
      if IsNullOrEmpty(f.options) then f.options else Some(Decoded(unescape, f.options.value)),
      if |uploads| > 0 then Upload(uploads[0]) else Remote(unescape(f.video.value)),
      if IsNullOrEmpty(f.callback) then f.callback else Some(unescape(f.callback.value)))
  }

  /**
   * Which check answers: the `k`-th check is the one reported exactly when
   * it fails and every check before it passes.
   */
  lemma RejectedBy(f: Form, uploads: seq<string>, randomId: nat, unescape: string -> string, k: nat)
    requires !IsNullOrEmpty(f.jobId) && IsId(f.jobId.value) && IsNullOrEmpty(f.complete)
    requires k < |Checks(f, uploads)|
    requires Checks(f, uploads)[k].fails && forall j :: 0 <= j < k ==> !Checks(f, uploads)[j].fails
    ensures CheckForm(f, uploads, randomId, unescape) == Rejected(Checks(f, uploads)[k].message)
  {
    var cs := Checks(f, uploads);
    var i :| 0 <= i < |cs| && cs[i].fails && cs[i].message == FirstFailure(cs).value &&
             forall j :: 0 <= j < i ==> !cs[j].fails;
    assert i == k;
  }

  /**
   * A POST is accepted exactly when its job id is valid, it does not ask
   * to complete the job and every check passes. Its job id and task id
   * are then id-shaped, the task id being the given one or the random
   * number; the pass is there exactly when multipass is asked for and has
   * a valid extension; the segment type is `hls` or empty; the video is
   * the upload exactly when a file was uploaded.
   */
  lemma AcceptedRule(f: Form, uploads: seq<string>, randomId: nat, unescape: string -> string)
    ensures CheckForm(f, uploads, randomId, unescape).Accepted? <==>
      !IsNullOrEmpty(f.jobId) && IsId(f.jobId.value) && IsNullOrEmpty(f.complete) && AllPass(f, uploads)
    ensures CheckForm(f, uploads, randomId, unescape).Accepted? ==>
      var sub := CheckForm(f, uploads, randomId, unescape).sub;
      IsId(sub.jobId) && sub.jobId == f.jobId.value &&
      (!IsNullOrEmpty(f.taskId) ==> sub.taskId == f.taskId.value && IsId(sub.taskId)) &&
      (IsNullOrEmpty(f.taskId) ==> sub.taskId == IntToString(randomId)) &&
      IsExtension(sub.extension) &&
      (sub.multiPass.Some? <==> !IsNullOrEmpty(f.multiPass)) &&
      (sub.multiPass.Some? ==> IsExtension(sub.multiPass.value.extension)) &&
      (sub.segment.Some? ==> sub.segment.value == "hls" || sub.segment.value == "") &&
      (sub.source.Upload? <==> |uploads| > 0)
  {
    if CheckForm(f, uploads, randomId, unescape).Accepted? {
      AllPassRule(f, uploads);
    }
  }

  // ------------------------------------------------------------- registry

  /** A job as the constructor leaves it: nothing added yet, with its own task set. */
  function NewJob(callbackUrl: Option<string>, dirExists: bool, files: set<string>, publishDir: bool): Jobs.JobState
  {
    Jobs.JobState(Jobs.Progress(false, false, false, None, None, None, None, 0, 0),
                  Jobs.Stages(true, [], null, null, map[], callbackUrl),
                  Jobs.Outputs(None, false, None), None, dirExists, files, publishDir)
  }

  /**
   * A job as a POST creates it: tagged with `tag`, then given the download
   * `d` (its file `staged` at the root of the working tree or not), then
   * the thumbnail stage `g`.
   */
  function Created(callbackUrl: Option<string>, tag: Option<string>, dirExists: bool, files: set<string>, publishDir: bool,
                   d: Downloads.FileDownload, staged: bool, g: Thumbnails.ThumbnailGenerator): Jobs.JobState
  {
    Jobs.ThumbStep(Jobs.AddDownloadStep(NewJob(callbackUrl, dirExists, files, publishDir).(tag := tag), d, staged), g).0
  }

  /**
   * A created job is "Working" with the download and then the thumbnail
   * stage enqueued; it has an empty result list, no task and no pass, is
   * neither flagged complete, failed nor cleaned, and so is not complete;
   * its directory exists and holds at most the staged upload.
   */
  lemma CreatedRule(callbackUrl: Option<string>, tag: Option<string>, dirExists: bool, files: set<string>, publishDir: bool,
                    d: Downloads.FileDownload, staged: bool, g: Thumbnails.ThumbnailGenerator,
                    taskSetDone: bool, thumbsDone: bool)
    ensures var st := Created(callbackUrl, tag, dirExists, files, publishDir, d, staged, g);
      && st.progress.status == Some(Jobs.Working)
      && st.stages.enqueued == [Jobs.DownloadStage(d), Jobs.ThumbStage(g)]
      && st.stages.download == d && st.stages.thumbGenerator == g && st.stages.hasTaskSet
      && st.stages.passes == map[] && st.stages.callbackUrl == callbackUrl
      && st.outputs.results == Some([]) && !st.outputs.adaptive
      && st.progress.totalTasks == 0 && st.progress.markedTasks == 0
      && !st.progress.flaggedComplete && !st.progress.failed && !st.progress.cleaned
      && !Jobs.IsCompleteOf(st, taskSetDone, thumbsDone)
      && st.tag == tag && st.dirExists && st.files == (if staged then {d.dest} else {}) && st.publishDir == publishDir
  {
  }

  /** How a POST sets an existing job's tag: only a given tag replaces the old one. */
  function Retagged(old_: Option<string>, tag: Option<string>): Option<string>
  {
    if tag.Some? then tag else old_
  }

  /** The rule for an id already in use: the job is replaced once it is complete and expired or failed. */
  predicate Replaceable(job: Jobs.TranscodeJob, now: int, taskSetDone: bool)
    reads job, job.stages.thumbGenerator
  {
    job.IsComplete(taskSetDone) && (job.CanExpire(now, taskSetDone) || job.progress.failed)
  }

  /** A job complete before its clean-up is replaced exactly when it has expired or failed. */
  lemma ReplaceableRule(job: Jobs.TranscodeJob, now: int, taskSetDone: bool)
    requires !job.progress.cleaned
    ensures Replaceable(job, now, taskSetDone) <==>
      job.progress.flaggedComplete && job.stages.hasTaskSet && job.ThumbsDone() && taskSetDone &&
      (job.CanExpire(now, taskSetDone) || job.progress.failed)
  {
  }

  /** The first pass a task registers, if it asks for one: the state after `AddFirstPass`. */
  function WithPass(st: Jobs.JobState, pass: Passes.Multipass?): Jobs.JobState
  {
    if pass == null then st else Jobs.AddPassStep(st, pass)
  }


  /** What the POST answers once the task is added. */
  function Submitted(sub: Submission): Response
  {
    Response(200, Serialized("task " + sub.taskId + " of job " + sub.jobId))
  }

  /**
   * `HandleDelete` as written, on the job id `id` and the ids in the
   * registry: the lookup test is inverted, so the clean-up runs on the
   * null a failed lookup leaves and raises (500), while a registered job
   * is answered "Deleted" and stays. The second component is the ids
   * registered afterwards.
   */
  function DeleteAsWritten(id: Option<string>, ids: set<string>): (Response, set<string>)
  {
    if IsNullOrEmpty(id) then (Response(404, Text("Not Found")), ids)
    else if id.value !in ids then (Response(500, Text(ServerError)), ids)
    else (Response(200, Text("Deleted")), ids)
  }

  /** The delete as written reports a registered job deleted, and the job is still registered. */
  lemma DeletedButKept()
    ensures DeleteAsWritten(Some("a"), {"a"}) == (Response(200, Text("Deleted")), {"a"})
    ensures "a" in DeleteAsWritten(Some("a"), {"a"}).1
  {
  }

  /** The delete with the lookup test the right way round: clean up and drop the job when it is registered. */
  function DeleteIntended(id: Option<string>, ids: set<string>): (Response, set<string>)
  {
    if IsNullOrEmpty(id) then (Response(404, Text("Not Found")), ids)
    else (Response(200, Text("Deleted")), ids - {id.value})
  }

  /**
   * With a job id the corrected delete answers "Deleted", the id is then
   * not registered and no other id is dropped; without one it answers 404
   * and changes nothing.
   */
  lemma DeleteIntendedRule(id: Option<string>, ids: set<string>)
    ensures var (r, after) := DeleteIntended(id, ids);
      && (IsNullOrEmpty(id) ==> r.code == 404 && after == ids)
      && (!IsNullOrEmpty(id) ==> r == Response(200, Text("Deleted")) && id.value !in after &&
                                 forall k :: k in ids && k != id.value ==> k in after)
      && after <= ids
  {
  }

  class JobHandler {
    const registry: Service.JobRegistry
    const stats: Statistics.Stats
    const cfg: Config

    constructor(registry: Service.JobRegistry, stats: Statistics.Stats, cfg: Config)
      ensures this.registry == registry && this.stats == stats && this.cfg == cfg
    {
      this.registry, this.stats, this.cfg := registry, stats, cfg;
    }

    /**
     * A POST with `complete`: an existing job gets `Complete`, and the
     * answer is the job, or 500 when `Complete` raises; an unknown id is
     * answered 400 and nothing changes.
     */
    method CompleteExisting(id: string, now: int, taskSetDone: bool) returns (r: Response)
      modifies if id in registry.jobs then {registry.jobs[id]} else {}
      ensures id !in registry.jobs ==> r == Response(400, Text(NoSuchJob))
      ensures id in registry.jobs ==>
        var j := registry.jobs[id];
        var (p, raised) := Jobs.CompleteStep(old(j.progress), old(j.stages), j.startTime, now, taskSetDone, old(j.ThumbsDone()));
        && j.State() == old(j.State()).(progress := p)
        && r == if raised then Response(500, Text(ServerError)) else Response(200, Serialized("job " + id))
    {
      if id !in registry.jobs {
        return Response(400, Text(NoSuchJob));
      }
      var j := registry.jobs[id];
      var raised := j.Complete(now, taskSetDone);
      r := if raised then Response(500, Text(ServerError)) else Response(200, Serialized("job " + id));
    }

    /**
     * A new job for `sub`, tagged `tag`, with its download (the upload,
     * or the URL fetched to `<id>.vod`) and its thumbnail stage.
     * `atRoot` says whether the download's file waits at the root of the
     * working tree; `dirExists` and `files` are what the disk holds at the
     * job's directory, `publishDir` whether its publish directory exists.
     */
    method Create(sub: Submission, tag: Option<string>, atRoot: bool, now: int,
                  dirExists: bool, files: set<string>, publishDir: bool)
      returns (job: Jobs.TranscodeJob)
      ensures fresh(job) && job.jobToken == sub.jobId && job.startTime == now
      ensures job.workingDirectory == Jobs.WorkingDirectory(cfg.workingDir, sub.jobId)
      ensures var d := job.stages.download;
        && d != null && fresh(d) && d.id == sub.jobId && d.workingDir == job.workingDirectory
        && (match sub.source
            case Upload(name) => d.url == None && d.dest == name
            case Remote(url) => d.url == Some(url) && d.dest == sub.jobId + ".vod")
      ensures var g := job.stages.thumbGenerator;
        && g != null && fresh(g) && g.id == sub.jobId && g.workingDir == job.workingDirectory
        && g.downloader == job.stages.download && !g.complete
        && job.State() == Created(sub.callbackUrl, tag, dirExists, files, publishDir, job.stages.download, atRoot, g)
    {
      job := new Jobs.TranscodeJob(cfg, sub.jobId, sub.callbackUrl, now, dirExists, files, publishDir);
      job.SetTag(tag);
      var d: Downloads.FileDownload;
      if sub.source.Upload? {
        d := new Downloads.FileDownload.Staged(sub.jobId, job.workingDirectory, sub.source.name);
      } else {
        d := new Downloads.FileDownload.FromUrl(sub.jobId, sub.source.url, job.workingDirectory, sub.jobId + ".vod");
      }
      job.AddDownload(d, atRoot);
      var _ := job.GenerateThumbnails();
    }

    /** A fresh job for `sub` registered under its id, replacing whatever was there, and counted. */
    method CreateAndRegister(sub: Submission, tag: Option<string>, atRoot: bool, now: int,
                             dirExists: bool, files: set<string>, publishDir: bool)
      returns (job: Jobs.TranscodeJob)
      requires registry.Distinct() && stats.Valid()
      modifies registry, stats
      ensures registry.Distinct() && stats.Valid()
      ensures fresh(job) && fresh(job.stages.download) && fresh(job.stages.thumbGenerator)
      ensures job.jobToken == sub.jobId && job.startTime == now
      ensures job.stages.download != null && job.stages.thumbGenerator != null
      ensures job.State() == Created(sub.callbackUrl, tag, dirExists, files, publishDir, job.stages.download, atRoot,
                                     job.stages.thumbGenerator)
      ensures registry.jobs == old(registry.jobs)[sub.jobId := job]
      ensures stats.totalJobs == Wrap32(old(stats.totalJobs) + 1)
      ensures stats.totalFilesTranscoded == old(stats.totalFilesTranscoded) && stats.runningJobs == old(stats.runningJobs)
    {
      job := Create(sub, tag, atRoot, now, dirExists, files, publishDir);
      registry.Put(sub.jobId, job);
      stats.AddJob();
    }

    /**
     * Finds the job for an accepted POST. A new id gets a new job with
     * the POST's tag. An existing job takes the POST's tag and is kept,
     * unless it is complete and has expired or failed: then a new job
     * without a tag takes its place. `created` says whether a new job was
     * made; each one counts in the job total.
     */
    method Admit(sub: Submission, atRoot: bool, now: int, taskSetDone: bool, dirExists: bool, files: set<string>, publishDir: bool)
      returns (job: Jobs.TranscodeJob, created: bool)
      requires registry.Distinct() && stats.Valid()
      modifies registry, stats, if sub.jobId in registry.jobs then {registry.jobs[sub.jobId]} else {}
      ensures registry.Distinct() && stats.Valid()
      ensures registry.jobs == old(registry.jobs)[sub.jobId := job]
      ensures sub.jobId in old(registry.jobs) ==>
        var o := old(registry.jobs[sub.jobId]);
        && o.State() == old(o.State()).(tag := Retagged(old(o.tag), sub.tag))
        && (created <==> old(Replaceable(o, now, taskSetDone)))
        && (!created ==> job == o)
      ensures sub.jobId !in old(registry.jobs) ==> created
      ensures created ==>
        && fresh(job) && fresh(job.stages.download) && fresh(job.stages.thumbGenerator)
        && job.jobToken == sub.jobId && job.startTime == now
        && job.stages.download != null && job.stages.thumbGenerator != null
        && job.State() == Created(sub.callbackUrl, if sub.jobId in old(registry.jobs) then None else sub.tag,
                                  dirExists, files, publishDir, job.stages.download, atRoot, job.stages.thumbGenerator)
        && stats.totalJobs == Wrap32(old(stats.totalJobs) + 1)
      ensures !created ==> stats.totalJobs == old(stats.totalJobs)
      ensures stats.totalFilesTranscoded == old(stats.totalFilesTranscoded) && stats.runningJobs == old(stats.runningJobs)
    {
      if sub.jobId !in registry.jobs {
        job := CreateAndRegister(sub, sub.tag, atRoot, now, dirExists, files, publishDir);
        return job, true;
      }
      var o := registry.jobs[sub.jobId];
      o.SetTag(Retagged(o.tag, sub.tag));
      created := Replaceable(o, now, taskSetDone);
      if created {
        job := CreateAndRegister(sub, None, atRoot, now, dirExists, files, publishDir);
      } else {
        job := o;
      }
    }

    /**
     * Registers the task's first pass when multipass is on. The pass takes
     * its input from the job's download, so a job without one makes the
     * POST fail (`ok` false) with nothing changed.
     */
    method AddPass(job: Jobs.TranscodeJob, sub: Submission) returns (ok: bool, pass: Passes.Multipass?)
      modifies job
      ensures ok <==> sub.multiPass.None? || old(job.stages.download) != null
      ensures job.stages.download == old(job.stages.download)
      ensures !ok ==> pass == null && job.State() == old(job.State())
      ensures ok ==> (pass != null <==> sub.multiPass.Some?) && job.State() == WithPass(old(job.State()), pass)
      ensures pass != null ==>
        && fresh(pass) && pass.token == sub.jobId && pass.workingDir == job.workingDirectory
        && pass.extension == sub.multiPass.value.extension && pass.options == sub.multiPass.value.options
        && pass.dest == job.stages.download.dest
    {
      if sub.multiPass.None? {
        return true, null;
      }
      if job.stages.download == null {
        return false, null;
      }
      pass := new Passes.Multipass(job.stages.download, sub.jobId, job.workingDirectory,
                                   sub.multiPass.value.extension, sub.multiPass.value.options);
      job.AddFirstPass(pass);
      ok := true;
    }

    /** The task of an accepted POST, with its fresh result, given to the job by `AddTask`. */
    method AddTaskFor(job: Jobs.TranscodeJob, sub: Submission, now: int) returns (task: Tasks.TranscodeTask)
      requires stats.Valid()
      modifies job, stats
      ensures stats.Valid() && stats.totalJobs == old(stats.totalJobs)
      ensures stats.totalFilesTranscoded == Wrap32(old(stats.totalFilesTranscoded) + 1)
      ensures stats.runningJobs == Wrap32(old(stats.runningJobs) + 1)
      ensures fresh(task) && fresh(task.result)
      ensures task.token == job.jobToken && task.taskId == sub.taskId && task.workingDir == job.workingDirectory
      ensures task.extension == sub.extension && task.segment == sub.segment && task.options == sub.options
      ensures task.multiPass == sub.multiPass.Some?
      ensures task.result.jobID == job.jobToken && task.result.taskID == sub.taskId
      ensures job.stages.download == old(job.stages.download)
      ensures job.State() == Jobs.AddTaskStep(old(job.State()), task, task.result).0
    {
      var result := new Results.TranscoderResult(job.jobToken, sub.taskId, job.workingDirectory);
      task := new Tasks.TranscodeTask(job.jobToken, job.workingDirectory, stats, result, sub.taskId,
                                      sub.segment, sub.options, sub.extension, sub.multiPass.Some?, now);
      var _ := job.AddTask(task, result);
    }

    /**
     * The tail of an accepted POST: the first pass if asked for, then one
     * task. It answers 200 whether or not the job took the task, and 500
     * when the pass has no download to read.
     */
    method Submit(job: Jobs.TranscodeJob, sub: Submission, now: int)
      returns (r: Response, pass: Passes.Multipass?, task: Tasks.TranscodeTask?)
      requires stats.Valid()
      modifies job, stats
      ensures stats.Valid() && stats.totalJobs == old(stats.totalJobs)
      ensures job.stages.download == old(job.stages.download)
      ensures sub.multiPass.Some? && old(job.stages.download) == null ==>
        r == Response(500, Text(ServerError)) && pass == null && task == null &&
        job.State() == old(job.State()) && unchanged(stats)
      ensures sub.multiPass.None? || old(job.stages.download) != null ==>
        && r == Submitted(sub)
        && (pass != null <==> sub.multiPass.Some?)
        && task != null && fresh(task) && fresh(task.result) && task.taskId == sub.taskId
        && task.token == job.jobToken && task.options == sub.options && task.extension == sub.extension
        && task.segment == sub.segment && task.multiPass == sub.multiPass.Some?
        && job.State() == Jobs.AddTaskStep(WithPass(old(job.State()), pass), task, task.result).0
        && stats.totalFilesTranscoded == Wrap32(old(stats.totalFilesTranscoded) + 1)
        && stats.runningJobs == Wrap32(old(stats.runningJobs) + 1)
    {
      var ok;
      ok, pass := AddPass(job, sub);
      if !ok {
        return Response(500, Text(ServerError)), null, null;
      }
      task := AddTaskFor(job, sub, now);
      r := Submitted(sub);
    }

    /**
     * `HandlePost`. A POST that fails a check is answered 400 with that
     * check's message and changes nothing. A POST with `complete` completes
     * the job it names. An accepted POST finds or creates its job, then
     * adds the first pass and one task; it answers 500 exactly when a pass
     * is asked for and the job has no download.
     */
    method HandlePost(ps: Params, uploads: seq<string>, randomId: nat, unescape: string -> string,
                      atRoot: bool, now: int, taskSetDone: bool, dirExists: bool, files: set<string>, publishDir: bool)
      returns (r: Response)
      requires registry.Distinct() && stats.Valid()
      modifies registry, stats, registry.jobs.Values
      ensures registry.Distinct() && stats.Valid()
      ensures CheckPost(ps, uploads, randomId, unescape).Rejected? ==>
        r == Response(400, Text(CheckPost(ps, uploads, randomId, unescape).message)) &&
        registry.jobs == old(registry.jobs) && unchanged(stats) && unchanged(registry.jobs.Values)
      ensures CheckPost(ps, uploads, randomId, unescape).CompleteJob? ==>
        var id := CheckPost(ps, uploads, randomId, unescape).jobId;
        && registry.jobs == old(registry.jobs) && unchanged(stats)
        && (id !in registry.jobs ==> r == Response(400, Text(NoSuchJob)))
        && (id in registry.jobs ==>
              var j := registry.jobs[id];
              var (p, raised) := Jobs.CompleteStep(old(j.progress), old(j.stages), j.startTime, now, taskSetDone,
                                                   old(j.ThumbsDone()));
              && j.State() == old(j.State()).(progress := p)
              && r == if raised then Response(500, Text(ServerError)) else Response(200, Serialized("job " + id)))
      ensures CheckPost(ps, uploads, randomId, unescape).Accepted? ==>
        var sub := CheckPost(ps, uploads, randomId, unescape).sub;
        && registry.jobs.Keys == old(registry.jobs.Keys) + {sub.jobId}
        && (forall k :: k in old(registry.jobs) && k != sub.jobId ==> registry.jobs[k] == old(registry.jobs[k]))
        && r == if sub.multiPass.Some? && registry.jobs[sub.jobId].stages.download == null
                then Response(500, Text(ServerError)) else Submitted(sub)
    {
      var checked := CheckPost(ps, uploads, randomId, unescape);
      if checked.Rejected? {
        return Response(400, Text(checked.message));
      }
      if checked.CompleteJob? {
        r := CompleteExisting(checked.jobId, now, taskSetDone);
        return;
      }
      r := Accept(checked.sub, atRoot, now, taskSetDone, dirExists, files, publishDir);
    }

    /** An accepted POST: its job found or created, then the first pass and one task added. */
    method Accept(sub: Submission, atRoot: bool, now: int, taskSetDone: bool, dirExists: bool, files: set<string>, publishDir: bool)
      returns (r: Response)
      requires registry.Distinct() && stats.Valid()
      modifies registry, stats, registry.jobs.Values
      ensures registry.Distinct() && stats.Valid()
      ensures registry.jobs.Keys == old(registry.jobs.Keys) + {sub.jobId}
      ensures forall k :: k in old(registry.jobs) && k != sub.jobId ==> registry.jobs[k] == old(registry.jobs[k])
      ensures r == if sub.multiPass.Some? && registry.jobs[sub.jobId].stages.download == null
                   then Response(500, Text(ServerError)) else Submitted(sub)
    {
      var job, _ := Admit(sub, atRoot, now, taskSetDone, dirExists, files, publishDir);
      var pass, task;
      r, pass, task := Submit(job, sub, now);
    }

    /** `HandleGet`: all jobs without a job id; the job, or 404 when it is not registered. */
    function HandleGet(query: string): (r: Response)
      reads registry
      ensures var id := GetFirstValue(HttpServer.QueryPairs(query), "jobid");
        && (r.code == 200 <==> IsNullOrEmpty(id) || id.value in registry.jobs)
        && (r.code != 200 ==> r == Response(404, Text("Job Not Found")))
        && (!IsNullOrEmpty(id) && r.code == 200 ==> r.body == Serialized("job " + id.value))
    {
      var id := GetFirstValue(HttpServer.QueryPairs(query), "jobid");
      if IsNullOrEmpty(id) then Response(200, Serialized("jobs"))
      else if id.value !in registry.jobs then Response(404, Text("Job Not Found"))
      else Response(200, Serialized("job " + id.value))
    }

    /** `HandleDelete` as written: it changes nothing; see `DeleteAsWritten`. */
    method HandleDeleteAsWritten(query: string) returns (r: Response)
      ensures (r, registry.jobs.Keys) ==
        DeleteAsWritten(GetFirstValue(HttpServer.QueryPairs(query), "jobid"), registry.jobs.Keys)
    {
      var ps := HttpServer.ParseQueryString(query);
      var id := GetFirstValue(ps, "jobid");
      if IsNullOrEmpty(id) {
        return Response(404, Text("Not Found"));
      }
      if id.value !in registry.jobs {
        return Response(500, Text(ServerError));
      }
      r := Response(200, Text("Deleted"));
    }

    /**
     * `HandleDelete` with the lookup the right way round: a registered job
     * is cleaned up and dropped, and the answer and the registered ids are
     * as `DeleteIntended` says.
     */
    method HandleDelete(query: string) returns (r: Response)
      requires registry.Distinct()
      modifies registry, registry.jobs.Values
      ensures registry.Distinct()
      ensures var id := GetFirstValue(HttpServer.QueryPairs(query), "jobid");
        && (r, registry.jobs.Keys) == DeleteIntended(id, old(registry.jobs.Keys))
        && (forall k :: k in registry.jobs ==> registry.jobs[k] == old(registry.jobs[k]))
        && (!IsNullOrEmpty(id) && id.value in old(registry.jobs) ==>
              var j := old(registry.jobs[id.value]);
              j.State() == Jobs.CleanUpStep(old(j.State())))
    {
      var ps := HttpServer.ParseQueryString(query);
      var id := GetFirstValue(ps, "jobid");
      if IsNullOrEmpty(id) {
        return Response(404, Text("Not Found"));
      }
      if id.value in registry.jobs {
        var j := registry.jobs[id.value];
        j.CleanUp();
        registry.Remove(id.value);
        assert registry.jobs.Keys == old(registry.jobs.Keys) - {id.value};
      } else {
        assert old(registry.jobs.Keys) - {id.value} == old(registry.jobs.Keys);
      }
      r := Response(200, Text("Deleted"));
    }
  }
}
