/**
 * `PresetHandler`: GET lists the presets or returns one by name; POST
 * registers a preset under a name.
 */
module PresetHandling {
  import opened Common
  import opened Text
  import opened Utility
  import HttpServer
  import PresetStore

  const NoSuchPreset: string := "No such preset has been registered"
  const MissingName: string := "Missing preset name"
  const MissingValue: string := "Missing preset value"
  const Added: string := "Preset added"

  /** The answer to a GET for `name` on the presets `m`. */
  function GetAnswer(m: map<string, string>, name: Option<string>): (r: Response)
    ensures IsNullOrEmpty(name) ==> r == Response(200, Serialized("presets"))
    ensures !IsNullOrEmpty(name) ==>
      (r.code == 200 <==> name.value in m) &&
      (name.value in m ==> r.body == Text(m[name.value])) &&
      (name.value !in m ==> r == Response(404, Text(NoSuchPreset)))
  {
    if IsNullOrEmpty(name) then Response(200, Serialized("presets"))
    else match PresetStore.Lookup(m, name.value)
      case None => Response(404, Text(NoSuchPreset))
      case Some(v) => Response(200, Text(v))
  }

  /** The answer to a POST naming `name` and `value`, and the presets afterwards. */
  function PostOutcome(m: map<string, string>, name: Option<string>, value: Option<string>): (Response, map<string, string>)
  {
    if IsNullOrEmpty(name) then (Response(400, Text(MissingName)), m)
    else if IsNullOrEmpty(value) then (Response(400, Text(MissingValue)), m)
    else (Response(200, Text(Added)), m[name.value := value.value])
  }

  /**
   * A POST is accepted exactly when it names a preset and gives a value,
   * the name being checked first; a refused POST changes nothing, and
   * after an accepted one a GET for that name returns the value.
   */
  lemma PostThenGet(m: map<string, string>, name: Option<string>, value: Option<string>)
    ensures var (r, after) := PostOutcome(m, name, value);
      && (r.code == 200 <==> !IsNullOrEmpty(name) && !IsNullOrEmpty(value))
      && (IsNullOrEmpty(name) ==> r == Response(400, Text(MissingName)))
      && (r.code != 200 ==> after == m)
      && (r.code == 200 ==> GetAnswer(after, name) == Response(200, Text(value.value)))
      && (forall k :: !IsNullOrEmpty(name) && k != name.value ==> PresetStore.Lookup(after, k) == PresetStore.Lookup(m, k))
  {
  }

  class PresetHandler {
    const presets: PresetStore.Presets

    constructor(presets: PresetStore.Presets)
      ensures this.presets == presets
    {
      this.presets := presets;
    }

    /** `HandleGet`: every preset without a name, else the named one or 404. */
    function HandleGet(query: string): (r: Response)
      reads presets
      ensures r == GetAnswer(presets.presets, GetFirstValue(HttpServer.QueryPairs(query), "preset"))
    {
      var name := GetFirstValue(HttpServer.QueryPairs(query), "preset");
      if IsNullOrEmpty(name) then Response(200, Serialized("presets"))
      else
        var result := presets.Get(name.value);
        if result.None? then Response(404, Text(NoSuchPreset)) else Response(200, Text(result.value))
    }

    /** `HandlePost` on the form `ps`: the name is checked, then the value, then the preset is added. */
    method HandlePost(ps: Params) returns (r: Response)
      modifies presets
      ensures (r, presets.presets) ==
        PostOutcome(old(presets.presets), GetFirstValue(ps, "preset"), GetFirstValue(ps, "value"))
    {
      var presetName := GetFirstValue(ps, "preset");
      var value := GetFirstValue(ps, "value");
      if IsNullOrEmpty(presetName) {
        return Response(400, Text(MissingName));
      }
      if IsNullOrEmpty(value) {
        return Response(400, Text(MissingValue));
      }
      presets.Add(presetName.value, value.value);
      r := Response(200, Text(Added));
    }
  }
}
