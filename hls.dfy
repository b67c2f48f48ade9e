/**
 * The HLS master playlist (section 4.3.4.2 of RFC 8216) that lists a job's
 * segmented renditions: the `#EXTM3U` header line of section 4.3.1.1, then
 * for each listed rendition, in stable ascending bit-rate order (LINQ's
 * `OrderBy`), an `#EXT-X-STREAM-INF` tag line followed by the rendition's
 * playlist URI.
 */
module Hls {
  import opened Common
  import opened Text

  /** What a master playlist needs to know of one transcoding result. */
  datatype Rendition = Rendition(
    bitRate: int,
    resultFile: Option<string>, // the transcoded file's name, unset until it is checked
    hasSegments: bool,
    playlist: Option<string>)   // the playlist URI as the result publishes it

  // ------------------------------------------------------------ stable sort

  predicate SortedByBitRate(rs: seq<Rendition>)
  {
    forall i, j :: 0 <= i < j < |rs| ==> rs[i].bitRate <= rs[j].bitRate
  }

  /** The renditions of bit rate `b`, in their order in `rs`. */
  function WithBitRate(rs: seq<Rendition>, b: int): (r: seq<Rendition>)
    ensures forall i :: 0 <= i < |r| ==> r[i].bitRate == b
    decreases |rs|
  {
    if rs == [] then [] else (if rs[0].bitRate == b then [rs[0]] else []) + WithBitRate(rs[1..], b)
  }

  lemma {:induction false} WithBitRateAppend(a: seq<Rendition>, c: seq<Rendition>, b: int)
    ensures WithBitRate(a + c, b) == WithBitRate(a, b) + WithBitRate(c, b)
    decreases |a|
  {
    if a != [] {
      assert (a + c)[1..] == a[1..] + c;
      WithBitRateAppend(a[1..], c, b);
    } else {
      assert a + c == c;
    }
  }

  /** `x` placed after every element of the sorted `s` whose bit rate is not larger. */
  function Insert(s: seq<Rendition>, x: Rendition): (r: seq<Rendition>)
    ensures |r| == |s| + 1
    decreases |s|
  {
    if s == [] || s[|s| - 1].bitRate <= x.bitRate then s + [x]
    else Insert(s[..|s| - 1], x) + [s[|s| - 1]]
  }

  /**
   * `Enumerable.OrderBy(r => r.BitRate)`: an insertion sort that keeps
   * renditions of equal bit rate in their original order.
   */
  function StableSort(rs: seq<Rendition>): (r: seq<Rendition>)
    ensures |r| == |rs|
    decreases |rs|
  {
    if rs == [] then [] else Insert(StableSort(rs[..|rs| - 1]), rs[|rs| - 1])
  }

  lemma {:induction false} InsertMultiset(s: seq<Rendition>, x: Rendition)
    ensures multiset(Insert(s, x)) == multiset(s) + multiset{x}
    decreases |s|
  {
    if !(s == [] || s[|s| - 1].bitRate <= x.bitRate) {
      assert s == s[..|s| - 1] + [s[|s| - 1]];
      InsertMultiset(s[..|s| - 1], x);
    }
  }

  lemma {:induction false} InsertSorted(s: seq<Rendition>, x: Rendition)
    requires SortedByBitRate(s)
    ensures SortedByBitRate(Insert(s, x))
    decreases |s|
  {
    if !(s == [] || s[|s| - 1].bitRate <= x.bitRate) {
      var init, last := s[..|s| - 1], s[|s| - 1];
      InsertSorted(init, x);
      InsertMultiset(init, x);
      var t := Insert(init, x);
      forall k | 0 <= k < |t| ensures t[k].bitRate <= last.bitRate {
        assert t[k] in multiset(t);
        if t[k] != x {
          assert t[k] in init;
          var j :| 0 <= j < |init| && init[j] == t[k];
          assert s[j] == init[j];
        }
      }
    }
  }

  lemma {:induction false} InsertStable(s: seq<Rendition>, x: Rendition, b: int)
    requires SortedByBitRate(s)
    ensures WithBitRate(Insert(s, x), b) == WithBitRate(s, b) + WithBitRate([x], b)
    decreases |s|
  {
    if s == [] || s[|s| - 1].bitRate <= x.bitRate {
      WithBitRateAppend(s, [x], b);
    } else {
      var init, last := s[..|s| - 1], s[|s| - 1];
      assert s == init + [last];
      InsertStable(init, x, b);
      var t := Insert(init, x);
      WithBitRateAppend(t, [last], b);
      WithBitRateAppend(init, [last], b);
    }
  }

  /** `StableSort` sorts by bit rate, keeps every rendition and keeps equal bit rates in order. */
  lemma {:induction false} StableSortSpec(rs: seq<Rendition>)
    ensures SortedByBitRate(StableSort(rs))
    ensures multiset(StableSort(rs)) == multiset(rs)
    ensures forall b :: WithBitRate(StableSort(rs), b) == WithBitRate(rs, b)
    decreases |rs|
  {
    if rs != [] {
      var init, last := rs[..|rs| - 1], rs[|rs| - 1];
      assert rs == init + [last];
      StableSortSpec(init);
      InsertSorted(StableSort(init), last);
      InsertMultiset(StableSort(init), last);
      forall b ensures WithBitRate(StableSort(rs), b) == WithBitRate(rs, b) {
        InsertStable(StableSort(init), last, b);
        WithBitRateAppend(init, [last], b);
      }
    }
  }

  // -------------------------------------------------------- master playlist

  const Header: string := "#EXTM3U"

  /** The `#EXT-X-STREAM-INF` tag line the service writes for a rendition of bit rate `b`. */
  function StreamInf(b: int): string
  {
    "#EXT-X-STREAM-INF:PROGRAM-ID=1, BANDWIDTH=" + IntToString(b)
  }

  /** The URI line; `AppendLine(null)` writes an empty line. */
  function UriLine(r: Rendition): string
  {
    if r.playlist.Some? then r.playlist.value else ""
  }

  /**
   * Whether a rendition is listed: it must be segmented, and when
   * `requireFile` holds it must also have a result file.
   */
  predicate Listed(r: Rendition, requireFile: bool)
  {
    r.hasSegments && (!requireFile || r.resultFile.Some?)
  }

  function Selected(rs: seq<Rendition>, requireFile: bool): (r: seq<Rendition>)
    ensures forall i :: 0 <= i < |r| ==> Listed(r[i], requireFile)
    ensures |r| <= |rs|
    decreases |rs|
  {
    if rs == [] then []
    else Selected(rs[..|rs| - 1], requireFile) + (if Listed(rs[|rs| - 1], requireFile) then [rs[|rs| - 1]] else [])
  }

  function Entries(rs: seq<Rendition>): (lines: seq<string>)
    ensures |lines| == 2 * |rs|
    decreases |rs|
  {
    if rs == [] then [] else Entries(rs[..|rs| - 1]) + [StreamInf(rs[|rs| - 1].bitRate), UriLine(rs[|rs| - 1])]
  }

  /** The lines of the master playlist of `rs`. */
  function MasterLines(rs: seq<Rendition>, requireFile: bool): seq<string>
  {
    [Header] + Entries(Selected(StableSort(rs), requireFile))
  }

  /** The master playlist's text: every line followed by a newline, as `AppendLine` writes it. */
  function MasterPlaylist(rs: seq<Rendition>, requireFile: bool): string
  {
    JoinLines(MasterLines(rs, requireFile))
  }

  lemma {:induction false} EntriesAt(rs: seq<Rendition>, k: int)
    requires 0 <= k < |rs|
    ensures Entries(rs)[2 * k] == StreamInf(rs[k].bitRate)
    ensures Entries(rs)[2 * k + 1] == UriLine(rs[k])
    decreases |rs|
  {
    if k < |rs| - 1 {
      EntriesAt(rs[..|rs| - 1], k);
    }
  }

  lemma {:induction false} SelectedSorted(rs: seq<Rendition>, requireFile: bool)
    requires SortedByBitRate(rs)
    ensures SortedByBitRate(Selected(rs, requireFile))
    ensures forall x :: x in Selected(rs, requireFile) ==> x in rs
    decreases |rs|
  {
    if rs != [] {
      var init := rs[..|rs| - 1];
      SelectedSorted(init, requireFile);
      assert forall x :: x in init ==> x in rs;
      assert forall x :: x in init ==> x.bitRate <= rs[|rs| - 1].bitRate;
    }
  }

  /** Selection keeps every listed rendition as often as it occurs, and drops the others. */
  lemma {:induction false} SelectedMultiset(rs: seq<Rendition>, requireFile: bool)
    ensures forall x :: multiset(Selected(rs, requireFile))[x] == if Listed(x, requireFile) then multiset(rs)[x] else 0
    decreases |rs|
  {
    if rs != [] {
      var init, last := rs[..|rs| - 1], rs[|rs| - 1];
      assert rs == init + [last];
      SelectedMultiset(init, requireFile);
    }
  }

  /**
   * The renditions a master playlist lists are in ascending bit-rate order,
   * each listed rendition of `rs` exactly as often as it occurs there.
   */
  lemma MasterSelection(rs: seq<Rendition>, requireFile: bool)
    ensures var sel := Selected(StableSort(rs), requireFile);
      && SortedByBitRate(sel)
      && forall x :: multiset(sel)[x] == if Listed(x, requireFile) then multiset(rs)[x] else 0
  {
    StableSortSpec(rs);
    SelectedSorted(StableSort(rs), requireFile);
    SelectedMultiset(StableSort(rs), requireFile);
  }

  lemma {:induction false} EntryLinesAt(sel: seq<Rendition>)
    ensures var lines := [Header] + Entries(sel);
      forall k :: 0 <= k < |sel| ==>
        lines[1 + 2 * k] == StreamInf(sel[k].bitRate) && lines[2 + 2 * k] == UriLine(sel[k])
  {
    var e := Entries(sel);
    var lines := [Header] + e;
    forall k | 0 <= k < |sel|
      ensures lines[1 + 2 * k] == StreamInf(sel[k].bitRate) && lines[2 + 2 * k] == UriLine(sel[k])
    {
      EntriesAt(sel, k);
      assert lines[1 + 2 * k] == e[2 * k];
      assert lines[2 + 2 * k] == e[2 * k + 1];
    }
  }

  /**
   * The master playlist starts with `#EXTM3U`; then come two lines per listed
   * rendition: the tag with its bit rate, then its URI.
   */
  lemma MasterLinesShape(rs: seq<Rendition>, requireFile: bool)
    ensures var lines := MasterLines(rs, requireFile);
      var sel := Selected(StableSort(rs), requireFile);
      && lines[0] == Header
      && |lines| == 1 + 2 * |sel|
      && forall k :: 0 <= k < |sel| ==>
           lines[1 + 2 * k] == StreamInf(sel[k].bitRate) && lines[2 + 2 * k] == UriLine(sel[k])
  {
    EntryLinesAt(Selected(StableSort(rs), requireFile));
  }

  function EntryText(r: Rendition): string
  {
    StreamInf(r.bitRate) + NewLine + UriLine(r) + NewLine
  }

  lemma JoinEntry(r: Rendition)
    ensures JoinLines([StreamInf(r.bitRate), UriLine(r)]) == EntryText(r)
  {
    var entry := [StreamInf(r.bitRate), UriLine(r)];
    assert entry[1..][1..] == [];
    assert JoinLines(entry[1..]) == UriLine(r) + NewLine + "";
  }

  lemma EntriesSnoc(before: seq<Rendition>, r: Rendition)
    ensures [Header] + Entries(before + [r]) == ([Header] + Entries(before)) + [StreamInf(r.bitRate), UriLine(r)]
  {
    assert (before + [r])[..|before|] == before;
  }

  lemma SelectedSnoc(sorted: seq<Rendition>, i: int, requireFile: bool)
    requires 0 <= i < |sorted|
    ensures Selected(sorted[..i + 1], requireFile) ==
      Selected(sorted[..i], requireFile) + (if Listed(sorted[i], requireFile) then [sorted[i]] else [])
  {
    assert sorted[..i + 1][..i] == sorted[..i];
  }

  lemma PlaylistStep(sorted: seq<Rendition>, i: int, requireFile: bool)
    requires 0 <= i < |sorted|
    ensures JoinLines([Header] + Entries(Selected(sorted[..i + 1], requireFile))) ==
      JoinLines([Header] + Entries(Selected(sorted[..i], requireFile))) +
      (if Listed(sorted[i], requireFile) then EntryText(sorted[i]) else "")
  {
    var r := sorted[i];
    var before := Selected(sorted[..i], requireFile);
    var after := Selected(sorted[..i + 1], requireFile);
    SelectedSnoc(sorted, i, requireFile);
    if Listed(r, requireFile) {
      assert after == before + [r];
      var lines := [Header] + Entries(before);
      var entry := [StreamInf(r.bitRate), UriLine(r)];
      EntriesSnoc(before, r);
      assert [Header] + Entries(after) == lines + entry;
      JoinLinesAppend(lines, entry);
      JoinEntry(r);
    } else {
      assert after == before;
    }
  }

  /**
   * The loop of `NotifyCompleted` that writes the master playlist into a
   * `StringBuilder`, one rendition at a time in bit-rate order.
   */
  method BuildMasterPlaylist(rs: seq<Rendition>, requireFile: bool) returns (text: string)
    ensures text == MasterPlaylist(rs, requireFile)
  {
    var sorted := StableSort(rs);
    text := Header + NewLine;
    var i := 0;
    while i < |sorted|
      invariant 0 <= i <= |sorted|
      invariant text == JoinLines([Header] + Entries(Selected(sorted[..i], requireFile)))
    {
      var r := sorted[i];
      PlaylistStep(sorted, i, requireFile);
      if !requireFile || r.resultFile.Some? {
        if r.hasSegments {
          text := text + EntryText(r);
        }
      }
      i := i + 1;
    }
    assert sorted[..i] == sorted;
  }
}
