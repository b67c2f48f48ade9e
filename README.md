# FFRest in Dafny

FFRest is an HTTP service that transcodes videos with an external tool.

- A client POSTs a *job* to `/jobs`. The job holds a source video (uploaded, or a URL to fetch) and one or more *tasks*, each an encoding of that source.
- The service downloads and probes the source, generates five thumbnails, and optionally runs a first encoding *pass*. It then runs every task, optionally cutting the output into HLS segments.
- It writes a master playlist and notifies a callback URL.
- A periodic *reaper* cleans up, completes or evicts old jobs.
- Further handlers serve thumbnails, videos, adaptive playlists, presets and counters.

This project models the sequential logic of that service:

- the job state machine and its reaper;
- the pipeline stages (download, thumbnails, first pass, task);
- the task result record;
- the request handlers' validation and registry rules;
- the HTTP request plumbing (method dispatch, multipart parsing, byte search, query strings, handler resolution);
- the string helpers these rely on.

External tools, the disk, the network, clocks and randomness become parameters of the operations that use them.

Layout: one module per source file, plus two shared modules.

- `Common` (`common.dfy`): `Option`, the service configuration and the HTTP response shape.
- `Text` (`text.dfy`): the .NET string operations the source uses, such as `Trim`, `IndexOf`, `Replace`, `Split`, `int.TryParse` and `ToString`, plus the 32-bit wrap-around of `Interlocked`.
- Each object that the source updates in place is a `class` with a `State()` view:
  - `TranscodeJob`, `TranscodeTask`, `TranscoderResult`;
  - `FileDownload`, `ThumbnailGenerator`, `Multipass`;
  - `Presets`, `Stats`;
  - the job registry.
- Each such method is specified by a pure transition on that state (`ensures State() == CleanUpStep(old(State()))`). The lemmas state what the source promises about those transitions.
- Loops in the source are loops here: the byte search, the semicolon splitter, the query-string parser, the stream scans in the probe readers, the manifest and segment-list builders, the progress tracker and the reaper's sweep.

## Model

| member | source | states |
|---|---|---|
| Jobs.JobStatus.Name | TranscodeJob.cs:32 | the status field only ever holds one of the six texts the job assigns: "Downloading", "Working", "Waiting", "Complete", "Incomplete", "Failed" |
| Jobs.NameInjective | TranscodeJob.cs:32 | two statuses have the same text iff they are the same status, so comparing status strings compares statuses |
| Jobs.WorkingDirectory | TranscodeJob.cs:53-57 | the job directory is the root, a separator, the token, and ends in a separator; a token that does not end in one gets exactly one appended |
| Jobs.IsCompleteRule | TranscodeJob.cs:177-199 | `IsComplete` implies `flaggedComplete`; an uncleaned job is complete iff flagged, the task set and thumbnail generator exist and both are done; a cleaned job is complete iff flagged |
| Jobs.CanExpireOf | TranscodeJob.cs:236-250 | a job older than 24 hours can always expire, and a job that can expire is older than 24 hours or flagged complete |
| Jobs.CanExpireRule | TranscodeJob.cs:236-250 | once a job can expire it stays able to as time passes; a complete job with every task marked can expire at any age; a job under 24 hours old that is not complete, or has unmarked tasks, cannot expire |
| Jobs.Finish | TranscodeJob.cs:91-100 | a finished job records its status, its end time and its running time, and nothing else changes |
| Jobs.CompleteOnce | TranscodeJob.cs:155-171 | after the first `Complete` the job is flagged, and every later call changes nothing and raises nothing |
| Jobs.CompleteStatus | TranscodeJob.cs:155-171 | the status becomes "Complete" iff this is the first call, the thumbnail generator exists, task set and thumbnails are done and the job has not failed; the call raises iff it is the first, the generator exists and the task set does not; nothing else in the progress changes |
| Jobs.TranscodeJob.Complete | TranscodeJob.cs:155-171 | the new flags and times are the `Complete` transition's, and stages, outputs and files are unchanged |
| Jobs.CleanUpRule | TranscodeJob.cs:133-154 | a cleanup that finds the directory sets `cleaned`, drops passes, task set, download, thumbnails and callback; one that does not find it leaves everything unchanged; a second cleanup changes nothing |
| Jobs.TranscodeJob.CleanUp | TranscodeJob.cs:133-154 | the new state is the cleanup transition of the old one |
| Jobs.FailIsFinal | TranscodeJob.cs:91-100 | `Fail` leaves the job failed with status "Failed", the message, end time and running time set and a cleanup attempted; a later `Complete` or notification keeps the status "Failed" |
| Jobs.TranscodeJob.Fail | TranscodeJob.cs:91-100 | the new state is the failure transition of the old one |
| Jobs.Enqueue | TranscodeJob.cs:287-378 | a stage is queued only iff the job has not failed and has a live task set; the other stage fields are unchanged |
| Jobs.TranscodeJob.AddDownload | TranscodeJob.cs:287-318 | the new state is the download transition: the download is kept and queued (or staged directly when uploaded) |
| Jobs.AddPassRule | TranscodeJob.cs:319-338 | a first pass is added under its extension only when none is there; the other extensions keep their passes |
| Jobs.TranscodeJob.AddFirstPass | TranscodeJob.cs:319-338 | the new state is the add-pass transition of the old one |
| Jobs.AddTaskRule | TranscodeJob.cs:339-378 | `AddTask` succeeds iff the job is neither flagged complete nor failed (and has a task set and a result list); on success the status is "Working", the results grow by exactly the given result, the task total grows by 1 and the task is queued; a flagged or failed job is left unchanged; the publish directory exists afterwards iff it did before or the job took a segmented task |
| Jobs.TranscodeJob.AddTask | TranscodeJob.cs:339-378 | the new state and the answer are the add-task transition's |
| Jobs.TranscodeJob.GenerateThumbnails | TranscodeJob.cs:379-399 | a failed job gets no generator and answers false; otherwise a fresh generator for the job's token, directory and download is queued |
| Jobs.Renditions | TranscodeJob.cs:463-475 | each result is read as a rendition (bit rate, result file, segments flag, playlist URL), in order |
| Jobs.NotifyRule | TranscodeJob.cs:423-530 | in move mode a result that names a file or is segmented creates the publish directory; the report throws iff, in move mode, the result is segmented with a null segment list (the loop over the segments) or the publish directory still does not exist (the master playlist's writer), and then nothing but that directory changes (no manifest, no mark, no settle); otherwise a task result with a non-empty callback marks exactly one more task, with the task set done and the job not failed the status becomes "Complete" when flagged, else "Waiting", and the manifest in move mode is the master playlist of the renditions |
| Jobs.TranscodeJob.NotifyCompleted | TranscodeJob.cs:423-530 | the new state is the notification transition of the old one, with the renditions read before the call, whether the result opens the publish directory, and the null segment list of a segmented result taken into account |
| Jobs.TranscodeJob.Record | TranscodeJob.cs:427-512 | the new state is the publish directory, manifest and marking part of the notification transition, and `raised` is the null segment list or missing directory exception, on which only the publish directory changes |
| Jobs.ExceptionRule | TranscodeJob.cs:532-590 | a job-failure exception (direct or inner) fails and cleans the job; any other exception only records its message and, with the task set done, sets "Incomplete" when flagged, else "Waiting" |
| Jobs.TranscodeJob.NotifyException | TranscodeJob.cs:532-590 | the new state is the exception transition of the old one |
| Jobs.ThumbsFrom | TranscodeJob.cs:258-285 | at most one URL for each of the remaining thumbnail numbers |
| Jobs.ThumbsFromSpec | TranscodeJob.cs:258-285 | the thumbnails listed are exactly the URLs of the numbered thumbnails that exist |
| Jobs.ThumbsStep | TranscodeJob.cs:262-281 | the loop's list after number x is the list before it plus that thumbnail's URL, if it exists |
| Jobs.TranscodeJob.Thumbnails | TranscodeJob.cs:258-285 | the thumbnails are listed only once the generator is done (or the job is cleaned), and then they are the exact list above |
| Jobs.TranscodeJob.Adaptive | TranscodeJob.cs:406-421 | the adaptive URL is present iff the job has results and segmented output, and it ends in "/adaptive.m3u8" |
| Jobs.TranscodeJob.SetTag | TranscodeJob.cs:73-83 | only the tag changes |
| Jobs.TranscodeJob.constructor | TranscodeJob.cs:40-58 | a new job has its token, working directory and start time, a live task set, no stages and no flags |
| Service.WaitingName | FFRest.cs:113-115 | the case-insensitive "waiting" test holds exactly for the Waiting status |
| Service.ActionRule | FFRest.cs:97-124 | each job gets exactly one action: cleanup iff it can expire and is not cleaned; eviction iff it can expire, is cleaned and is older than 30 days; completion iff it cannot expire, has been "Waiting" for over 10 hours and its `Complete` does not raise; abort iff it cannot expire and has no status, or its `Complete` raises; untouched iff it can expire, is cleaned and is at most 30 days old, or it cannot expire and has a status but is not a stale waiting job |
| Service.SweepActionsRule | FFRest.cs:97-124 | the sweep visits jobs in order, one action each, and stops right after the first job whose visit raises |
| Service.SweepActionsOnly | FFRest.cs:97-124 | any action list with those properties is the sweep's own |
| Service.CleanUps | FFRest.cs:103-105 | the count of cleanups is at most the number of jobs visited, and zero iff none was cleaned |
| Service.Evictions | FFRest.cs:106-112 | the evicted keys are exactly those whose action was eviction |
| Service.JobRegistry.EntryAt | FFRest.cs:97-124 | what the sweep finds for a key is that job's current state |
| Service.JobRegistry.Snapshot | FFRest.cs:97 | the jobs are read in order, paired with their task-set completion, and are distinct objects |
| Service.VisitAll | FFRest.cs:97-124 | the loop's actions are the per-job actions up to and including the first that raises, and each visited job ends in its swept state |
| Service.Visit | FFRest.cs:99-123 | one job's visit performs its action and leaves it in its swept state |
| Service.VisitJobs | FFRest.cs:97-124 | the sweep's actions, with every visited job swept and the rest unchanged |
| Service.JobRegistry.Evict | FFRest.cs:106-112 | the registry loses exactly the evicted keys |
| Service.Sweep | FFRest.cs:97-152 | the registry loses exactly the evicted keys and the count is the number of cleanups |
| Service.FFRest.ExpireJobs | FFRest.cs:88-152 | the actions are the sweep's, unvisited jobs are unchanged, evicted keys are gone, the count is the cleanups, and `expiring` is false afterwards |
| Service.JobRegistry.Put | Handlers/JobHandler.cs:228-263 | the key maps to the job and no two keys share a job |
| Service.JobRegistry.Remove | Handlers/JobHandler.cs:351-385 | only that key is removed |
| Tasks.SegmentFile | TranscodeTask.cs:48-53 | there is a segment file iff segment is "hls", and it is the output file name plus ".m3u8" |
| Tasks.CapScan | TranscodeTask.cs:195-225 | the capability scan raises iff some stream has no codec type, or a video stream's frame rate cannot be read or it has no width |
| Tasks.CapScanSpec | TranscodeTask.cs:195-225 | `can1080` iff some video stream is at least 1920 wide, `can720` iff some is at least 1280 wide, and the frame rate is the last video stream's |
| Tasks.ScanCapabilities | TranscodeTask.cs:195-225 | the loop computes the capability scan |
| Tasks.DigitsEnd | TranscodeTask.cs:240-250 | the end of a digit run: everything up to it is a digit and the next character is not |
| Tasks.DimsAt | TranscodeTask.cs:240-250 | a `WxH` match is a size read at that position |
| Tasks.SizeAt | TranscodeTask.cs:240-250 | a size is read only right after "-s " |
| Tasks.FirstSize | TranscodeTask.cs:240-250 | the first "-s WxH" in the options, and none iff there is none at any position |
| Tasks.Resolution | TranscodeTask.cs:240-250 | hd720 wins over hd1080, which wins over the rest; the result is one of the fixed sizes or a "-s WxH" size, and is empty iff none of hd720, hd1080, hd480, sd480 or "-s WxH" occurs |
| Tasks.TokenAfter | TranscodeTask.cs:252-267 | the token after a position is the text up to the next space, present iff there is a space |
| Tasks.Bitrate | TranscodeTask.cs:252-267 | the bit rate is the token after "-minrate " (offset 9), else after "-maxrate " (offset 9), else after "-b:v " (offset 5), each located case-sensitively after a case-insensitive test, and empty when none is present |
| Tasks.SubstituteVerbatim | TranscodeTask.cs:268-275 | options with no placeholder are left unchanged |
| Tasks.QuotedBitrateReplaced | TranscodeTask.cs:268-275 | the quoted bit-rate placeholder is replaced, quotes included, before the bare one |
| Tasks.EncodeCommandParts | TranscodeTask.cs:88-106 | the encode command is the input, "-y", the trimmed arguments, the optional second-pass log and the output, in that order |
| Tasks.SegmentArgsParts | TranscodeTask.cs:116-140 | the segment arguments are the stream copy, the HLS arguments, the chunk pattern and the optional second-pass log |
| Tasks.SegmentCommandParts | TranscodeTask.cs:116-140 | the chunk pattern `token_taskId_%03d.ts` sits right after the copy and HLS arguments |
| Tasks.SegmentCommandEnds | TranscodeTask.cs:116-140 | the segment command starts with the input and the stream copy and ends with the output |
| Tasks.ActivePercent | TranscodeTask.cs:305-322 | a progress percentage is at most 100 (90 when segmenting) and is defined for a positive duration |
| Tasks.ProgressMonotone | TranscodeTask.cs:288-326 | progress never decreases, stays within its cap of 100 (90 when segmenting) when it starts within it, and is always either the start or one of the observed percentages |
| Tasks.TrackProgress | TranscodeTask.cs:288-326 | the loop leaves only the percentage changed, set to the progress after the observed lines |
| Tasks.CleanLine | TranscodeTask.cs:350-358 | a line kept by the manifest loop contributes a trimmed name ending in ".ts" |
| Tasks.SegmentNameAt | TranscodeTask.cs:350-358 | every collected segment name ends in ".ts" and is its own trim |
| Tasks.SegmentNamesSnoc | TranscodeTask.cs:350-358 | one more manifest line adds its name at the end, if it ends in ".ts" |
| Tasks.SegmentNamesAppend | TranscodeTask.cs:350-358 | the names of two blocks of lines are the names of each, in file order |
| Tasks.SegmentNamesComplete | TranscodeTask.cs:350-358 | every line ending in ".ts" is listed, at the position its predecessors leave |
| Tasks.CollectSegments | TranscodeTask.cs:348-360 | the loop collects the segment names of the manifest's lines |
| Tasks.Pass2Log | TranscodeTask.cs:95-130 | a second-pass log is passed iff the task is multipass and its first pass is known |
| Tasks.FinishedChecks | TranscodeTask.cs:364-379 | a finished task keeps its start time, records finish and processing time, and ends "Complete" at 100% only when the output exists, otherwise "Failed" |
| Tasks.ProcessResultForgetsStatus | TranscodeTask.cs:143-190 | the outcome does not depend on the status the result had before |
| Tasks.CompletedOverwrites | TranscodeTask.cs:366-368 | completion overwrites the status and percentage |
| Tasks.EncodeResultForgetsProgress | TranscodeTask.cs:332-381 | the outcome overwrites the streamed progress |
| Tasks.TaskOutcome | TranscodeTask.cs:143-405 | every run sets start, finish and processing time and ends "Complete", "Failed", "Failed/Skipped" or "Skipped"; "Skipped" iff the capability check refuses, "Failed/Skipped" iff the probe report is missing; every failure is at 0% and leaves the outputs untouched; "Complete" means a zero exit code and an existing output at 100% |
| Tasks.HlsOutcome | TranscodeTask.cs:342-360 | a complete HLS task names its playlist and lists the segments read from it |
| Tasks.SkipRule | TranscodeTask.cs:227-236 | asking for 1080 lines without a 1080-capable stream, or 720 lines without a 720-capable one, skips the encode, and only a task with options is skipped |
| Tasks.NullOptionsFail | TranscodeTask.cs:196-236 | a task whose options are null (a preset-only job) never runs the transcoder and ends "Failed" (or "Failed/Skipped") at 0%; past the pass, report and stream checks it ends "Failed" from the null options themselves |
| Tasks.RanCommand | TranscodeTask.cs:276-283 | the command of a task that runs is the encode command of the substituted options |
| Tasks.TranscodeTask.constructor | TranscodeTask.cs:33-62 | a new task names its output `token_taskId.ext` and its segment file, marks the result "Pending" from now, and bumps the file and running counters |
| Tasks.TranscodeTask.Fail | TranscodeTask.cs:151-190 | a failing task finishes now at 0% with the given status |
| Tasks.ReleasedTaskFails | TranscodeTask.cs:143-190 | with the intended download and first pass, a task whose predecessor would have left it waiting is released and ends "Failed" or "Failed/Skipped" at 0%; a second pass whose first pass would have hung ends on the failed-first-pass path |
| Tasks.TranscodeTask.Handle | TranscodeTask.cs:143-190 | the path taken and the result are the outcome functions of the inputs, and the running count drops except after a non-zero exit |
| Tasks.TranscodeTask.PassFailure | TranscodeTask.cs:151-167 | a missing or failed first pass fails the task with no encode |
| Tasks.TranscodeTask.Process | TranscodeTask.cs:169-190 | a missing probe report or failed download gives "Failed/Skipped" |
| Tasks.TranscodeTask.Inspect | TranscodeTask.cs:195-236 | the capability scan decides between skipping and encoding, and a scan that raises fails the task |
| Tasks.TranscodeTask.EncodeAndRun | TranscodeTask.cs:238-339 | the options are filled and the command run, and the result is the encode outcome |
| Tasks.TranscodeTask.Encode | TranscodeTask.cs:238-283 | the options after substitution are the ones the command carries |
| Tasks.TranscodeTask.Prepare | TranscodeTask.cs:268-283 | the options are the substituted ones and the command is built from them |
| Tasks.TranscodeTask.Run | TranscodeTask.cs:283-339 | the result is the encode outcome of the exit code, and a zero exit of a segmenting task records the playlist as the task's output |
| Tasks.TranscodeTask.FillOptions | TranscodeTask.cs:268-275 | only the options change, to their substitution |
| Tasks.TranscodeTask.Succeed | TranscodeTask.cs:341-381 | success sets "Complete" at 100% and then the result video, whose checks can still fail the task |
| Tasks.TranscodeTask.Complete | TranscodeTask.cs:364-368 | the result is the completed state |
| Results.PublishedUrl | TranscoderResult.cs:69-82 | a published name ends the URL; in move mode it follows serve URL, destination and job id, else the destination |
| Results.ScanStreams | TranscoderResult.cs:126-143 | the stream loop copies each video stream's measures and stops at a bit rate that does not parse |
| Results.ScanUnfold | TranscoderResult.cs:126-143 | one step of the stream loop: skip a non-video stream, stop at a bad rate, otherwise copy and go on |
| Results.ScanWidthFrom | TranscoderResult.cs:126-143 | a finished scan's width is the last video stream's width |
| Results.LastVideoWidthCons | TranscoderResult.cs:126-143 | the last width after one more stream is that stream's width, if it is video and has one |
| Results.ApplyProbe | TranscoderResult.cs:111-168 | no report fails; missing streams or format fail; with both present the result is not failed |
| Results.FormatStep | TranscoderResult.cs:144-168 | the format's bit rate is read unless it does not parse, and width and height are kept |
| Results.FormatBitRateWins | TranscoderResult.cs:144-168 | the format's bit rate overrides the streams' |
| Results.WidthFromVideoStreams | TranscoderResult.cs:126-143 | the width comes from the video streams |
| Results.ProbeRaises | TranscoderResult.cs:117-168 | reading the report raises iff a video stream's or the format's bit rate does not parse |
| Results.ResultVideoChecks | TranscoderResult.cs:83-170 | a missing file or empty report leaves the video unset and "Failed"; in every other path the value is stored |
| Results.UnreadableReportFails | TranscoderResult.cs:106-116 | a report that does not parse stores the value with status "Failed" and the file size |
| Results.TranscoderResult.constructor | TranscoderResult.cs:296-320 | a new result is "Queued" at 0% with no segments and no result video |
| Results.TranscoderResult.SetStatus | TranscoderResult.cs:24-27 | only the status changes |
| Results.TranscoderResult.SetPercentComplete | TranscoderResult.cs:57-60 | only the percentage changes, to the given value |
| Results.TranscoderResult.SetSegments | TranscoderResult.cs:242-249 | the segments are stored and the segments flag is set |
| Results.TranscoderResult.SetPlaylist | TranscoderResult.cs:200-203 | only the playlist changes |
| Results.TranscoderResult.SetStartTime | TranscoderResult.cs:281-284 | only the start time changes |
| Results.TranscoderResult.SetFinishTime | TranscoderResult.cs:271-277 | the finish time is stored and the processing time is finish minus start |
| Results.TranscoderResult.ProcessingTime | TranscoderResult.cs:286-295 | the processing time is present iff the status is "Complete", and then it is the recorded time |
| Results.TranscoderResult.ResultVideo | TranscoderResult.cs:71-82 | absent iff unset, else the published URL of the file |
| Results.TranscoderResult.Playlist | TranscoderResult.cs:186-199 | absent iff unset, else the published URL of the playlist |
| Results.TranscoderResult.Adaptive | TranscoderResult.cs:227-241 | present iff the result has segments, and it ends in "/adaptive.m3u8" |
| Results.TranscoderResult.AsRendition | TranscoderResult.cs:188-248 | a rendition carries the result's bit rate, file, segments flag and playlist URL |
| Results.TranscoderResult.ScanVideoStreams | TranscoderResult.cs:126-143 | the loop leaves the measures of the stream scan and reports whether it stopped |
| Results.TranscoderResult.CopyStream | TranscoderResult.cs:126-143 | one stream's step: stop, with nothing changed, exactly on a video stream with a bad rate |
| Results.TranscoderResult.ApplyFormat | TranscoderResult.cs:144-168 | the format step's measures, and whether it succeeded |
| Results.TranscoderResult.SetResultVideo | TranscoderResult.cs:83-170 | the new state is the result-video transition of the old one |
| Probe.ProbeArguments | TranscoderResult.cs:322-326 | the probe arguments are `-i <file>` followed by ` -v quiet -print_format json -show_format -show_streams` |
| Probe.Truncate | TranscodeTask.cs:318-321 | the cast to an integer truncates toward zero |
| Passes.RateScan | Multipass.cs:69-79 | the frame-rate loop raises iff a stream has no codec type or a video stream has no rate |
| Passes.LastVideoRateCons | Multipass.cs:69-79 | the last rate after one more stream is that stream's rate, if it is video and has one |
| Passes.RateScanIsLast | Multipass.cs:69-79 | the frame rate is the last video stream's |
| Passes.ScanFrameRate | Multipass.cs:69-79 | the loop computes the frame-rate scan |
| Passes.SubstituteRateVerbatim | Multipass.cs:80-83 | options with no placeholder are left unchanged |
| Passes.QuotedFpsReplaced | Multipass.cs:80-83 | the quoted fps placeholder is replaced by the rate, quotes included |
| Passes.QuotedFps2xReplaced | Multipass.cs:80-83 | the quoted fps2x placeholder is replaced by twice the rate |
| Passes.NoQuotedFpsIn | Multipass.cs:80-83 | the fps2x placeholder does not contain the fps one, so the two replacements do not interfere |
| Passes.FirstPassCommandShape | Multipass.cs:154-166 | the first-pass command is the input, the trimmed options and `<output> -pass 1 -passlogfile "<log>"` |
| Passes.PassFailsEarly | Multipass.cs:57-107 | with no probe report or empty options the pass is complete and failed, with nothing run |
| Passes.PassStaysIncomplete | Multipass.cs:44-109 | an incomplete first pass stays incomplete iff there is a report and options but the streams are missing or a frame rate cannot be read |
| Passes.IntendedPassSettles | Multipass.cs:44-109 | the intended first pass always ends complete, failed iff the written one fails or stays incomplete, and equal to the written one whenever that completes |
| Passes.PassRuns | Multipass.cs:64-94 | a pass runs with substituted options to `<wd>fastpass_<dest>.<ext>`, with the log path that plus "-multipass"; a zero exit completes it, any other exit fails it |
| Passes.Multipass.RunPass | Multipass.cs:44-109 | the new state is the pass transition, and a command is issued iff the options and probe allow it |
| Passes.Multipass.constructor | Multipass.cs:30-40 | a new pass takes the download's destination and is neither complete nor failed |
| Thumbnails.DurationOf | ThumbGenerator.cs:48-57 | a missing report, format or duration gives -1; a known duration rounds down to whole seconds |
| Thumbnails.SpanFitsFiveFrames | ThumbGenerator.cs:126-130 | for a duration over 10 seconds, one frame every duration/5 seconds gives five frames inside the video |
| Thumbnails.CommandParts | ThumbGenerator.cs:123-147 | the command is the input, "-y -vf", the quoted filter, `-frames:v 5 -vsync vfr` and the output pattern |
| Thumbnails.ThumbnailArguments | ThumbGenerator.cs:123-147 | the arguments exist iff the file name has an extension |
| Thumbnails.ShortArguments | ThumbGenerator.cs:155-166 | the scene-threshold retry arguments exist iff the file name has an extension |
| Thumbnails.ThumbRetry | ThumbGenerator.cs:33-103 | a failed download runs no tool; otherwise the tool runs once, and exactly once more, with the 0.05 scene threshold, when the first output says "Output file is empty" |
| Thumbnails.UnknownDurationUsesScenes | ThumbGenerator.cs:48-147 | an unknown duration selects the scene filter |
| Thumbnails.ThumbnailGenerator.Generate | ThumbGenerator.cs:33-103 | the commands are the thumbnail commands of the download, and the generator ends complete when a download exists |
| Thumbnails.ThumbnailGenerator.constructor | ThumbGenerator.cs:25-31 | a new generator is not complete and has run nothing |
| Downloads.FetchFailureChangesNothing | FileDownloader.cs:70-95 | a fetch that fails leaves the download neither complete nor failed |
| Downloads.DownloadStaysIncomplete | FileDownloader.cs:45-96 | an incomplete download stays incomplete iff the fetch throws or the probe output cannot be deserialised |
| Downloads.IntendedDownloadSettles | FileDownloader.cs:45-96 | the intended download always ends complete, failed iff the written one fails or stays incomplete, and equal to the written one whenever that completes |
| Downloads.EmptyProbeFails | FileDownloader.cs:53-82 | an empty probe output completes and fails the download |
| Downloads.ProbeSucceeds | FileDownloader.cs:51-89 | a readable probe completes the download and keeps its report |
| Downloads.ProbeSkippedWhenKnown | FileDownloader.cs:51-73 | a download with a report does not probe again |
| Downloads.DownloadMonotone | FileDownloader.cs:45-96 | `failed`, `complete` and `downloaded` are never reset |
| Downloads.FileDownload.Download | FileDownloader.cs:45-96 | the new state is the download transition; a fetch happens iff not yet downloaded, a probe iff a file is there and no report is |
| Downloads.FileDownload.FromUrl | FileDownloader.cs:17-26 | a URL download starts not downloaded |
| Downloads.FileDownload.Staged | FileDownloader.cs:27-35 | an uploaded file starts downloaded, so nothing is fetched |
| Hls.WithBitRate | TranscodeJob.cs:465 | the renditions of one bit rate, in order |
| Hls.Insert | TranscodeJob.cs:465 | inserting into the sorted prefix adds one element |
| Hls.StableSort | TranscodeJob.cs:465 | sorting keeps the length |
| Hls.InsertMultiset | TranscodeJob.cs:465 | insertion adds exactly one element |
| Hls.InsertSorted | TranscodeJob.cs:465 | insertion keeps the order by bit rate |
| Hls.InsertStable | TranscodeJob.cs:465 | insertion puts a rendition after the ones of equal bit rate |
| Hls.StableSortSpec | TranscodeJob.cs:465 | `OrderBy(BitRate)` is sorted, a permutation, and stable |
| Hls.Selected | TranscodeJob.cs:466-470 | only listed renditions are kept |
| Hls.SelectedSorted | TranscodeJob.cs:466-470 | selection keeps the order |
| Hls.SelectedMultiset | TranscodeJob.cs:466-470 | selection keeps exactly the listed renditions, with their multiplicity |
| Hls.MasterSelection | TranscodeJob.cs:463-479 | the manifest lists exactly the listed renditions, sorted by bit rate |
| Hls.Entries | TranscodeJob.cs:466-470 | two lines per rendition |
| Hls.EntriesAt | TranscodeJob.cs:466-470 | rendition k gives the stream-info line with its bandwidth, then its URI line |
| Hls.MasterLinesShape | TranscodeJob.cs:463-479 | the manifest is `#EXTM3U` then the two lines of each selected rendition, in order |
| Hls.PlaylistStep | TranscodeJob.cs:466-470 | the loop's text after one more rendition adds that rendition's entry, if listed |
| Hls.BuildMasterPlaylist | TranscodeJob.cs:463-479 | the loop builds the master playlist text |
| AdaptiveStreaming.AdaptiveListing | Handlers/AdaptiveHandler.cs:43-52 | the adaptive manifest lists exactly the segmented renditions in stable bit-rate order, with no result-file check, and has 1 + 2 x their number lines |
| AdaptiveStreaming.AdaptiveHandler.HandleGet | Handlers/AdaptiveHandler.cs:20-55 | a missing job id gives 400, an unknown job 404, and a known job the adaptive manifest of its results |
| JobHandling.IdWithLineFeed | Handlers/JobHandler.cs:54-76 | the `$` of the id pattern accepts one trailing line feed but not two |
| JobHandling.NonEmpty | Handlers/JobHandler.cs:49-168 | an empty value counts as absent |
| JobHandling.FirstFailure | Handlers/JobHandler.cs:49-168 | the first failing check decides the answer, and none fails iff all pass |
| JobHandling.AllPassRule | Handlers/JobHandler.cs:72-168 | all checks pass iff the task id and extensions match their patterns, multipass has options and an extension, segment is "hls", a preset or options is given, and there is exactly one video source |
| JobHandling.NoneOfTen | Handlers/JobHandler.cs:72-168 | the ten checks pass iff each passes |
| JobHandling.RejectedBy | Handlers/JobHandler.cs:49-168 | the first failing check's message is the 400 answer |
| JobHandling.AcceptedRule | Handlers/JobHandler.cs:49-168 | a form is accepted iff it has a valid job id, no `complete` and passes every check; the submission then carries the checked values |
| JobHandling.CreatedRule | Handlers/JobHandler.cs:184-217 | a new job is "Working" with its download and thumbnails queued |
| JobHandling.ReplaceableRule | Handlers/JobHandler.cs:229 | an existing job is replaced iff it is complete and can expire or has failed |
| JobHandling.JobHandler.CompleteExisting | Handlers/JobHandler.cs:59-69 | a known job is completed and answered 200; an unknown id gives 400 "No such job" |
| JobHandling.JobHandler.Create | Handlers/JobHandler.cs:184-217 | a fresh job with a fresh download and thumbnail generator for the submission |
| JobHandling.JobHandler.CreateAndRegister | Handlers/JobHandler.cs:184-227 | the new job is registered and the job counter grows |
| JobHandling.JobHandler.Admit | Handlers/JobHandler.cs:184-263 | the id maps to a new job, counted in the job total, when it was unknown or the existing job is replaceable; otherwise to the existing job, with only its tag updated |
| JobHandling.JobHandler.AddPass | Handlers/JobHandler.cs:265-269 | multipass adds a first pass, which needs a download |
| JobHandling.JobHandler.AddTaskFor | Handlers/JobHandler.cs:270-274 | one task is created and added with the submitted options (null for a preset-only job), and the file and running counters grow |
| JobHandling.JobHandler.Submit | Handlers/JobHandler.cs:265-275 | an accepted post adds one task (and a pass when multipass) and answers 200 even when the job refuses the task; multipass without a download answers 500 and changes nothing |
| JobHandling.JobHandler.HandlePost | Handlers/JobHandler.cs:30-283 | a rejected form gives 400 with the first failing check; `complete` completes an existing job (400 "No such job" for an unknown one) and adds no task; otherwise the job is admitted and the task submitted |
| JobHandling.JobHandler.Accept | Handlers/JobHandler.cs:184-275 | the registry gains exactly the submitted id and every other job is kept |
| JobHandling.JobHandler.HandleGet | Handlers/JobHandler.cs:296-321 | 200 iff no id is given or the job is known; otherwise 404 "Job Not Found" |
| JobHandling.DeletedButKept | Handlers/JobHandler.cs:351-355 | the delete as written answers 200 "Deleted" for a known job and keeps it |
| JobHandling.JobHandler.HandleDeleteAsWritten | Handlers/JobHandler.cs:333-387 | the delete as written never changes the registry |
| JobHandling.DeleteIntendedRule | Handlers/JobHandler.cs:333-387 | the intended delete drops exactly the given id and answers 200 |
| JobHandling.JobHandler.HandleDelete | Handlers/JobHandler.cs:333-387 | the registry loses the id per the intended delete, and the remaining jobs are unchanged |
| RequestHandling.Dispatch | ServerRequestHandler.cs:33-97 | GET and POST go to a handler only when one exists; HEAD and DELETE only to an extended handler; no call iff the lower-cased method is none of the four |
| RequestHandling.DispatchIgnoresCase | ServerRequestHandler.cs:33-36 | dispatch ignores the method's case |
| RequestHandling.PostBodyKind | ServerRequestHandler.cs:64-93 | a non-multipart body is form-encoded; a multipart content type under 30 characters is refused; otherwise the boundary is "--" plus the text from offset 30 |
| RequestHandling.StandardBoundary | ServerRequestHandler.cs:64-84 | the standard `multipart/form-data; boundary=` header gives "--" plus the boundary |
| RequestHandling.Pieces | ServerRequestHandler.cs:446-471 | the splitter gives at least one piece |
| RequestHandling.SplitBySemicolonIgnoringSemicolonsInQuotes | ServerRequestHandler.cs:446-471 | the loop computes the pieces |
| RequestHandling.PiecesJoin | ServerRequestHandler.cs:446-471 | joining the pieces with ";" gives back the input |
| RequestHandling.PiecesCount | ServerRequestHandler.cs:446-471 | there is one piece more than there are semicolons outside quotes |
| RequestHandling.QuotedSemicolon | ServerRequestHandler.cs:446-471 | a quoted semicolon does not split, and the quotes are kept |
| RequestHandling.FirstSeparator | ServerRequestHandler.cs:191-196 | a piece splits at its first ':' or '=' |
| RequestHandling.FieldClean | ServerRequestHandler.cs:197-205 | keys are unquoted and lower case; values are unquoted |
| RequestHandling.LineFields | ServerRequestHandler.cs:187-208 | one field per piece of a header line |
| RequestHandling.AddFields | ServerRequestHandler.cs:197-208 | adding fields keeps the earlier keys and adds each new one |
| RequestHandling.AddHeaderLine | ServerRequestHandler.cs:187-208 | a header line keeps the earlier keys |
| RequestHandling.AddFieldsDone | ServerRequestHandler.cs:197-208 | the fields are added iff no key repeats, and otherwise the error is "Duplicate field in section" |
| RequestHandling.AddFieldsContents | ServerRequestHandler.cs:197-208 | the parameters are the earlier ones plus exactly the new keys with their values |
| RequestHandling.ReadHeaders | ServerRequestHandler.cs:173-212 | reading headers consumes at least one line and leaves a suffix |
| RequestHandling.ReadValue | ServerRequestHandler.cs:384-413 | a value is its lines up to the next boundary, which is consumed; the end of input before one is "Unexpected end of section" |
| RequestHandling.PreambleSpins | ServerRequestHandler.cs:155-170 | the preamble loop as written never ends when the boundary is missing |
| RequestHandling.SkipPreamble | ServerRequestHandler.cs:155-170 | the intended preamble loop stops right after the first boundary, and refuses iff there is none |
| RequestHandling.FieldPairs | ServerRequestHandler.cs:384-416 | one pair per field |
| RequestHandling.HeadersOf | ServerRequestHandler.cs:173-212 | a section's header line followed by a blank line parses to its parameters |
| RequestHandling.ValueOf | ServerRequestHandler.cs:384-413 | value lines closed by a boundary read back as that value |
| RequestHandling.SectionsOf | ServerRequestHandler.cs:173-418 | well-formed sections read back as their name/value pairs |
| RequestHandling.MultipartRoundTrip | ServerRequestHandler.cs:142-421 | a body built from well-formed fields parses back to those fields |
| RequestHandling.MatchLength | ServerRequestHandler.cs:482-498 | the inner loop's count is the length of the match at that position |
| RequestHandling.SearchFrom | ServerRequestHandler.cs:472-505 | the search as written gives -1 or a position where the needle occurs within the length |
| RequestHandling.CompareAt | ServerRequestHandler.cs:482-498 | the inner loop finds a match iff the whole needle matches, else stops at the first mismatch |
| RequestHandling.ByteSearch | ServerRequestHandler.cs:472-505 | the loop computes the search, which gives -1 or a true occurrence |
| RequestHandling.SearchTurn | ServerRequestHandler.cs:478-503 | one turn of the outer loop either finds a match or advances without changing the answer |
| RequestHandling.SearchSkip | ServerRequestHandler.cs:479-481 | a last byte from outside the needle skips a needle's length |
| RequestHandling.SearchFound | ServerRequestHandler.cs:482-496 | a full match answers its position |
| RequestHandling.SearchPartial | ServerRequestHandler.cs:497-498 | a partial match skips past the matched bytes |
| RequestHandling.ByteSearchSkipsMatch | ServerRequestHandler.cs:482-498 | on "aab" the search as written misses the match of "ab" at 1 |
| RequestHandling.FirstIndexOf | ServerRequestHandler.cs:472-505 | the intended search finds the first occurrence, and -1 iff there is none |
| RequestHandling.SelectBoundary | ServerRequestHandler.cs:257-288 | no cut iff neither boundary is found; otherwise the nearer one, the end boundary on ties |
| RequestHandling.FindCut | ServerRequestHandler.cs:250-288 | a cut lies within the buffer's length |
| HttpServer.ResolveFrom | Server.cs:95-130 | a resolved handler is a registered path and a segment prefix of the request path |
| HttpServer.Resolve | Server.cs:87-131 | a resolved handler is a registered path and a segment prefix of the request path |
| HttpServer.ExecuteHandler | Server.cs:87-131 | the loop computes the resolution |
| HttpServer.ResolveExact | Server.cs:95-97 | an exact path is tried first |
| HttpServer.ResolveNeverCrashes | Server.cs:98-129 | a path holding a '/' never reaches the crashing cut |
| HttpServer.ResolveMostSpecific | Server.cs:98-129 | the handler found is at least as long as any registered segment prefix |
| HttpServer.QueryPart | Server.cs:138-141 | only the text after the first '?' is parsed |
| HttpServer.QueryPairs | Server.cs:143-156 | one pair per '&' piece, in order and with duplicates |
| HttpServer.ParseQueryString | Server.cs:133-158 | the loop computes the pairs |
| HttpServer.EncodeParse | Server.cs:133-158 | plain keys and values joined with '=' and '&' parse back to the same pairs |
| Utility.GetFirstValue | Utility.cs:15-24 | absent iff no pair has the key (case-insensitively); else the first pair's value |
| Utility.GetFirstValueAdd | Utility.cs:15-24 | a later pair never overrides the first occurrence |
| Utility.MimeOfLower | Utility.cs:83-130 | unknown extensions are "application/octet-stream" |
| Utility.GetMime | Utility.cs:79-131 | one leading '.' is stripped and the match ignores case; only unknown extensions give octet-stream |
| Utility.GetMimeDot | Utility.cs:81-83 | a leading '.' does not matter |
| Utility.GetMimeIgnoresCase | Utility.cs:82-83 | case does not matter |
| Utility.GetMimeJpg | Utility.cs:83-90 | ".jpg" is image/jpeg |
| PresetStore.Lookup | Presets.cs:119-127 | present iff the name is stored, with its value |
| PresetStore.AddThenGet | Presets.cs:110-127 | after `Add` a `Get` returns the new value, and other names are unchanged |
| PresetStore.RemoveThenGet | Presets.cs:114-127 | after `Remove` the name is absent, other names are unchanged, and removing an absent name changes nothing |
| PresetStore.AddRemove | Presets.cs:110-118 | adding a new name and removing it restores the store |
| PresetStore.Presets.constructor | Presets.cs:24-45 | the store starts with the saved presets, or empty |
| PresetStore.Presets.Add | Presets.cs:110-113 | the name is inserted or overwritten |
| PresetStore.Presets.Remove | Presets.cs:114-118 | the name is deleted |
| PresetStore.Presets.Get | Presets.cs:119-127 | present iff the name is stored, with its value |
| PresetHandling.GetAnswer | Handlers/PresetHandler.cs:24-50 | no name gives all presets; an unknown name 404 "No such preset has been registered"; a known one 200 with its value |
| PresetHandling.PresetHandler.HandleGet | Handlers/PresetHandler.cs:24-50 | the answer for the query's preset name |
| PresetHandling.PostThenGet | Handlers/PresetHandler.cs:52-73 | a post succeeds iff name and value are given (the name is checked first); success stores the value so a following GET returns it; failure changes nothing |
| PresetHandling.PresetHandler.HandlePost | Handlers/PresetHandler.cs:52-73 | the answer and the new store are the post outcome |
| Statistics.LoadedCount | Stats.cs:30-62 | a counter read back is a 32-bit value, 0 when the file cannot be read |
| Statistics.SaveLoadRoundTrip | Stats.cs:63-102 | saving the two totals and loading them back restores both |
| Statistics.ReportLines | Stats.cs:103-119 | the report is exactly the three lines "Total Jobs", "Total Files Transcoded" and "Active" |
| Statistics.HandlePost | Stats.cs:121-126 | anything but GET gives 400 "Bad Request" |
| Statistics.Stats.constructor | Stats.cs:30-62 | the totals are loaded and the running count is 0 |
| Statistics.Stats.AddJob | Stats.cs:127-130 | only the job total grows by 1 |
| Statistics.Stats.AddTask | Stats.cs:131-135 | the file total and the running count grow by 1 |
| Statistics.Stats.CompleteTask | Stats.cs:136-139 | only the running count drops by 1 |
| Statistics.Stats.HandleGet | Stats.cs:103-119 | 200 with the report |
| ThumbnailServing.ThumbId | Handlers/ThumbnailHandler.cs:44-51 | an id is extracted only from a name of the form `thumbnail-<id>_<digits>.jpg` |
| ThumbnailServing.LastUnderscore | Handlers/ThumbnailHandler.cs:44-51 | the digits after the last '_' hold no '_' |
| ThumbnailServing.ThumbIdUnique | Handlers/ThumbnailHandler.cs:44-51 | every name of that form gives its id, everything before the last '_' |
| ThumbnailServing.GreedyCapture | Handlers/ThumbnailHandler.cs:44-51 | the id capture is greedy: `thumbnail-a_b_7.jpg` gives `a_b` |
| ThumbnailServing.ThumbFile | Handlers/ThumbnailHandler.cs:29-53 | the file name is the path from offset 8, and the file path is the working directory, the id and the name |
| ThumbnailServing.HandleGet | Handlers/ThumbnailHandler.cs:25-127 | 200 iff the name matches and the file exists, else 404; HEAD sends no body |
| ThumbnailServing.HandlePost | Handlers/ThumbnailHandler.cs:76-80 | POST gives 404 |
| ThumbnailServing.ThumbUrlResolves | Handlers/ThumbnailHandler.cs:44-52 | a job's thumbnail URL resolves to a file in that job's working directory |
| ThumbnailServing.ThumbNameShape | TranscodeJob.cs:276-278 | a job's thumbnail name has the served form |
| VideoServing.VideoCapture | Handlers/VideoHandler.cs:36-44 | the captured id is the one character before the last '.' |
| VideoServing.LastDot | Handlers/VideoHandler.cs:36-42 | an alphanumeric extension holds no '.' |
| VideoServing.VideoCaptureUnique | Handlers/VideoHandler.cs:36-44 | every name of the served form gives the last character of its stem |
| VideoServing.VideoFile | Handlers/VideoHandler.cs:22-46 | the file path is the working directory, the captured character and the name |
| VideoServing.HandleGet | Handlers/VideoHandler.cs:18-69 | 200 iff the name matches and the file exists, else 404 |
| VideoServing.HandleHead | Handlers/VideoHandler.cs:76-116 | the same checks; short paths and missing files give 404 with no body, a mismatch "Video not found" |
| VideoServing.PublishedNameMissesJob | Handlers/VideoHandler.cs:36-45 | a published `token_taskId.ext` is looked up under the task id's last character, not the job's directory |
| VideoServing.IntendedToken | Handlers/VideoHandler.cs:36-44 | the intended capture is a valid job id |
| VideoServing.IntendedVideoFile | Handlers/VideoHandler.cs:22-46 | the intended file path uses the job id |
| VideoServing.PublishedNameFindsJob | Handlers/VideoHandler.cs:36-45 | with the intended capture, a published name resolves to the job's own directory |

## Left out

- The subprocess runner and the tools themselves. Each tool call is an input: its exit code and output text, supplied by a function parameter (`exitOf`, `tool`).
- Threads, the thread pool and task set, timers, events and shutdown waits. Completion of the task set and of the thumbnail stage is a boolean input, and each wait-for-predecessor loop is a precondition (`requires dl.complete`, `requires pass.complete`). A predecessor that never completes hangs the stage; the two Findings rows on FileDownloader.cs and Multipass.cs record when that happens.
- `Interlocked`, `volatile` and the concurrent dictionaries are modelled sequentially. The placeholder that `TryAdd` puts in the registry during job creation is not modelled.
- Disk effects: directory creation and deletion, file moves in move mode, deleting uploads and old outputs, file lengths. The working directory is a flag plus a set of file names, and the job's publish directory a flag (`publishDir`), which is what decides whether the master playlist's writer throws.
- Network I/O: the fetch of a source URL is a success flag, and the callback POST is a success flag. Its JSON body is left out.
- `HttpListener`, response streaming, the file section copy of multipart bodies, and `GetActualPosition`, which reads `StreamReader` internals by reflection. The byte-level body is handled only by the byte search and boundary selection.
- JSON: deserialising a probe report is a `Decoded` input, and a serialised answer is `Serialized(name)`.
- The JSON load of the presets file is the constructor's `saved` parameter. The presets file save is left out.
- Floating point: frame rate, duration and progress time are `real` inputs that are already parsed. `float.Parse`, `double.Parse`, `TimeSpan.Parse` and `Math.Round` are left out.
- The job status is a string in the source; the model uses an enumeration of the six values the job assigns, named by `JobStatus.Name`.
- `DateTime.Now` is an integer parameter, and `Random` is the `randomId` parameter.
- `Uri.UnescapeDataString` is the `unescape` parameter.
- The Windows-only quote rewrite of the options at Handlers/JobHandler.cs:169-179 is left out.
- The stats file save timer and `Stats.SaveFile` scheduling are left out; only the two-line format is modelled.
- 500 bodies that come from exceptions: the dispatcher's catch-all writes `ex.ToString()` (ServerRequestHandler.cs:111), which the model gives as the exception's type name (`Failure("System.ArgumentNullException")` for a job without results), or only as the status (`Status500` from `Dispatch`, `BadContentType` from `PostBodyKind`); the multipart catch writes `ex.Message` (ServerRequestHandler.cs:82), which the model gives as the `ParseError` value naming the reason. The job handler's "Server Error" (Handlers/JobHandler.cs:280, 384) is the source's own fixed text, `ServerError` in the model.
- Text: `Trim` removes only the Latin-1 white space characters and `ToLower` and `EqualsIgnoreCase` fold only the ASCII letters, where .NET covers all of Unicode. `GetMime`, `Dispatch`, the multipart header keys and `GetFirstValue` rely on them, so they agree with the source on Latin-1 white space and ASCII letters only.
- The handlers that always answer "not implemented" are left out: video POST/PUT/DELETE, job HEAD/PUT, adaptive POST, thumbnail PUT/DELETE.
- MetaHandler and the 404 handler are thin wrappers. TranscoderService.cs is the service host. TaskExecutorFactory.cs is scheduling. ProbeInfo.cs is a data shape, used as datatypes.
- FFmpeg.cs and ProcessWrapper.cs are not part of this model.
- `TranscodeJob.Invalid` and the `ToString` overrides are not part of this model.
- Utility.GetMime: requires a non-empty extension. The source reads its first character and throws on an empty one, and every caller passes a non-empty extension.
- Tasks.TranscodeTask.Handle: the running counter is not decremented after a non-zero exit code, as in the source.
- Service.FFRest.ExpireJobs: the evictions are applied after the visits rather than interleaved with them. Evicted jobs are not touched by the visits, so the final state is the same.

## Findings

| source | as written | input that shows it | evidently intended | confidence | as-written member | corrected member |
|---|---|---|---|---|---|---|
| ServerRequestHandler.cs:497-498 | after a partial match of m bytes the search skips m + 1 positions | haystack "aab", needle "ab": the search returns -1, although "ab" occurs at 1 | find an occurrence whenever there is one | high, not executed | RequestHandling.ByteSearchSkipsMatch | RequestHandling.FirstIndexOf |
| ServerRequestHandler.cs:155-170 | the preamble loop reads until it sees the boundary, and at the end of input it keeps reading null lines | a multipart body with no boundary line | stop with a parse error at the end of input | high, not executed | RequestHandling.PreambleSpins | RequestHandling.SkipPreamble |
| Handlers/JobHandler.cs:351-355 | the delete runs its cleanup and removal only when the lookup fails | DELETE with jobid "a" for a registered job "a": the answer is 200 "Deleted" and the job stays | remove the job that was found | high, not executed | JobHandling.DeletedButKept | JobHandling.DeleteIntendedRule |
| FileDownloader.cs:70-94 | a fetch that throws, or a probe output that cannot be deserialised, is caught before `complete` is set, and the task, first pass and thumbnail stages wait for `complete` in `while` loops with no way out (TranscodeTask.cs:147, Multipass.cs:50, ThumbGenerator.cs:38) | a job whose video URL cannot be fetched: the download stays incomplete and every later stage spins forever | the caught exception marks the download complete and failed, so the waiting stages go on and fail the task | high, not executed | Downloads.DownloadStaysIncomplete | Downloads.IntendedDownloadSettles |
| Multipass.cs:69-107 | missing streams or an unreadable frame rate throw before `complete` is set, and the second passes wait for it at TranscodeTask.cs:154 with no way out | a two-pass job whose video stream has an `avg_frame_rate` without a '/', such as "25": the first pass stays incomplete and its second passes spin forever | the caught exception marks the first pass complete and failed, so the second passes fail at once | high, not executed | Passes.PassStaysIncomplete | Passes.IntendedPassSettles |
| Handlers/VideoHandler.cs:36-45 | the id group `([a-zA-Z0-9_-])+` keeps only its last repetition, one character | GET /videos/job1_task2.mp4: looked up under directory "2" instead of "job1" | capture the job token, the stem before the last '_' | medium, not executed | VideoServing.PublishedNameMissesJob | VideoServing.PublishedNameFindsJob |
