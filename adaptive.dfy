/**
 * `AdaptiveHandler`: answers a GET for a job's HLS master playlist,
 * listing every segmented result of the job in bit-rate order. Unlike the
 * playlist `NotifyCompleted` writes, it does not ask for a result file.
 */
module AdaptiveStreaming {
  import opened Common
  import opened Text
  import opened Utility
  import opened Hls
  import HttpServer
  import Jobs
  import Service

  const MissingJobId: string := "Missing parameter jobID"
  const JobNotFound: string := "Job Not Found"

  /** `OrderBy` on a job whose result list was never created throws; the dispatcher answers 500. */
  const NoResults: Response := Response(500, Failure("System.ArgumentNullException"))

  /**
   * The playlist lists exactly the segmented results, as often as each
   * occurs, in ascending bit-rate order; it has one header line and two
   * lines per listed result.
   */
  lemma AdaptiveListing(rs: seq<Rendition>)
    ensures var sel := Selected(StableSort(rs), false);
      && SortedByBitRate(sel)
      && (forall x :: multiset(sel)[x] == if x.hasSegments then multiset(rs)[x] else 0)
      && |sel| == |Selected(rs, false)|
      && |MasterLines(rs, false)| == 1 + 2 * |Selected(rs, false)|
      && MasterLines(rs, false)[0] == Header
  {
    var sel := Selected(StableSort(rs), false);
    MasterSelection(rs, false);
    MasterLinesShape(rs, false);
    SelectedMultiset(rs, false);
    assert multiset(sel) == multiset(Selected(rs, false));
    assert |sel| == |multiset(sel)| == |multiset(Selected(rs, false))| == |Selected(rs, false)|;
  }

  class AdaptiveHandler {
    const registry: Service.JobRegistry
    const cfg: Config

    constructor(registry: Service.JobRegistry, cfg: Config)
      ensures this.registry == registry && this.cfg == cfg
    {
      this.registry, this.cfg := registry, cfg;
    }

    /**
     * `HandleGet`: 400 without a job id, 404 for an unknown job, otherwise
     * the master playlist of the job's results, written line by line.
     */
    method HandleGet(query: string) returns (r: Response)
      ensures var id := GetFirstValue(HttpServer.QueryPairs(query), "jobid");
        && (IsNullOrEmpty(id) ==> r == Response(400, Text(MissingJobId)))
        && (!IsNullOrEmpty(id) && id.value !in registry.jobs ==> r == Response(404, Text(JobNotFound)))
        && (!IsNullOrEmpty(id) && id.value in registry.jobs ==>
              var results := registry.jobs[id.value].outputs.results;
              r == if results.None? then NoResults
                   else Response(200, Text(MasterPlaylist(Jobs.Renditions(results.value, cfg), false))))
    {
      var ps := HttpServer.ParseQueryString(query);
      var id := GetFirstValue(ps, "jobid");
      if IsNullOrEmpty(id) {
        return Response(400, Text(MissingJobId));
      }
      if id.value !in registry.jobs {
        return Response(404, Text(JobNotFound));
      }
      var results := registry.jobs[id.value].outputs.results;
      if results.None? {
        return NoResults;
      }
      var text := BuildMasterPlaylist(Jobs.Renditions(results.value, cfg), false);
      r := Response(200, Text(text));
    }
  }
}
