/**
 * `Presets`: the named ffmpeg option strings clients register. The store
 * is a dictionary from preset name to option string, loaded from the
 * saved preset file at start-up.
 */
module PresetStore {
  import opened Common

  /** `Get` on the dictionary `m`: the preset stored as `name`, or `None` (null). */
  function Lookup(m: map<string, string>, name: string): (r: Option<string>)
    ensures r.Some? <==> name in m
    ensures r.Some? ==> r.value == m[name]
  {
    if name in m then Some(m[name]) else None
  }

  /** After `Add`, `Get` returns the new value for that name and what it returned before for every other. */
  lemma AddThenGet(m: map<string, string>, name: string, preset: string, other: string)
    ensures Lookup(m[name := preset], name) == Some(preset)
    ensures other != name ==> Lookup(m[name := preset], other) == Lookup(m, other)
  {
  }

  /**
   * After `Remove`, `Get` returns null for that name and what it returned
   * before for every other; removing a name that is not there changes
   * nothing.
   */
  lemma RemoveThenGet(m: map<string, string>, name: string, other: string)
    ensures Lookup(m - {name}, name) == None
    ensures other != name ==> Lookup(m - {name}, other) == Lookup(m, other)
    ensures name !in m ==> m - {name} == m
  {
  }

  /** Adding a name and removing it again leaves the presets as they were when it was not there. */
  lemma AddRemove(m: map<string, string>, name: string, preset: string)
    requires name !in m
    ensures m[name := preset] - {name} == m
  {
  }

  class Presets {
    var presets: map<string, string>

    /** The presets saved to the preset file, `None` when there is no such file. */
    constructor(saved: Option<map<string, string>>)
      ensures presets == if saved.Some? then saved.value else map[]
    {
      presets := if saved.Some? then saved.value else map[];
    }

    /** `AddOrUpdate`: inserts the preset or overwrites the one of that name. */
    method Add(presetName: string, preset: string)
      modifies this
      ensures presets == old(presets)[presetName := preset]
    {
      presets := presets[presetName := preset];
    }

    /** `TryRemove`: drops the preset of that name, if any. */
    method Remove(presetName: string)
      modifies this
      ensures presets == old(presets) - {presetName}
    {
      presets := presets - {presetName};
    }

    function Get(presetName: string): (r: Option<string>)
      reads this
      ensures r.Some? <==> presetName in presets
      ensures r.Some? ==> r.value == presets[presetName]
    {
      Lookup(presets, presetName)
    }

    /** The whole dictionary. */
    function GetAll(): map<string, string>
      reads this
    {
      presets
    }
  }
}
