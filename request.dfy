/**
 * `ServerRequestHandler`: sends a request to the handler entry for its
 * method, and turns a POST body into parameters, either form-encoded or
 * `multipart/form-data`. The multipart body is read line by line as
 * `ReadLine` returns it; the byte-level copy of uploaded files is not part
 * of this model, but the byte search it relies on is.
 */
module RequestHandling {
  import opened Common
  import opened Text
  import opened Utility

  // --------------------------------------------------------------- dispatch

  /** The handler entry a request reaches, or the status written instead. */
  datatype Call = CallGet | CallHead | CallDelete | CallPost | Status404 | Status500 | NoCall

  /**
   * The `switch` on the lower-cased method. A missing handler is
   * dereferenced for GET and POST (500 from the catch-all), while HEAD and
   * DELETE test its type first and answer 404; other methods do nothing.
   */
  function Dispatch(httpMethod: string, hasHandler: bool, extended: bool): (c: Call)
    ensures c == CallGet || c == CallPost ==> hasHandler
    ensures c == CallHead || c == CallDelete ==> hasHandler && extended
    ensures c == NoCall <==> ToLower(httpMethod) !in {"get", "head", "delete", "post"}
  {
    var m := ToLower(httpMethod);
    if m == "get" then (if hasHandler then CallGet else Status500)
    else if m == "head" then (if hasHandler && extended then CallHead else Status404)
    else if m == "delete" then (if hasHandler && extended then CallDelete else Status404)
    else if m == "post" then (if hasHandler then CallPost else Status500)
    else NoCall
  }

  lemma ToLowerIdempotent(s: string)
    ensures ToLower(ToLower(s)) == ToLower(s)
  {
  }

  /** The method name is matched ignoring case. */
  lemma DispatchIgnoresCase(httpMethod: string, hasHandler: bool, extended: bool)
    ensures Dispatch(ToLower(httpMethod), hasHandler, extended) == Dispatch(httpMethod, hasHandler, extended)
  {
    ToLowerIdempotent(httpMethod);
  }

  // ---------------------------------------------------------- content type

  const MultipartPrefix: string := "multipart/form-data;"

  /** How a POST body is read. */
  datatype PostBody =
    | Multipart(boundary: string) // read as multipart sections
    | FormEncoded                 // read with `ParseQueryString`
    | BadContentType              // `Substring(30)` threw: answered 500

  /**
   * A content type starting with "multipart/form-data;" gives the boundary
   * "--" followed by everything after its 30th character (the length of
   * "multipart/form-data; boundary="); any other body is form-encoded.
   */
  function PostBodyKind(contentType: Option<string>): (k: PostBody)
    ensures k.FormEncoded? <==> contentType.None? || !StartsWith(contentType.value, MultipartPrefix)
    ensures k.BadContentType? <==>
      contentType.Some? && StartsWith(contentType.value, MultipartPrefix) && |contentType.value| < 30
    ensures k.Multipart? ==>
      contentType.Some? && 30 <= |contentType.value| && k.boundary == "--" + contentType.value[30..]
  {
    if contentType.Some? && StartsWith(contentType.value, MultipartPrefix) then
      if |contentType.value| < 30 then BadContentType else Multipart("--" + contentType.value[30..])
    else FormEncoded
  }

  /** The header a browser sends yields the boundary the parts are separated by. */
  lemma StandardBoundary(b: string)
    ensures PostBodyKind(Some("multipart/form-data; boundary=" + b)) == Multipart("--" + b)
  {
    var ct := "multipart/form-data; boundary=" + b;
    assert ct[..|MultipartPrefix|] == MultipartPrefix;
    assert ct[30..] == b;
  }

  // ------------------------------------------------ header-line splitting

  /**
   * `SplitBySemicolonIgnoringSemicolonsInQuotes` from a state: `inQuotes`
   * flips at every '"', a ';' outside quotes ends the current piece (and
   * is dropped), every other character (quotes included) is kept.
   */
  function Pieces(s: string, inQuotes: bool, work: string): (r: seq<string>)
    ensures |r| >= 1
    decreases |s|
  {
    if s == [] then [work]
    else
      var c := s[0];
      var q := if c == '"' then !inQuotes else inQuotes;
      if c == ';' && !q then [work] + Pieces(s[1..], q, "")
      else Pieces(s[1..], q, work + [c])
  }

  /** The loop of `SplitBySemicolonIgnoringSemicolonsInQuotes`, collecting what it yields. */
  method SplitBySemicolonIgnoringSemicolonsInQuotes(line: string) returns (pieces: seq<string>)
    ensures pieces == Pieces(line, false, "")
  {
    var inQuotes := false;
    var workingString := "";
    pieces := [];
    var i := 0;
    while i < |line|
      invariant 0 <= i <= |line|
      invariant pieces + Pieces(line[i..], inQuotes, workingString) == Pieces(line, false, "")
    {
      var c := line[i];
      assert line[i..][0] == c && line[i..][1..] == line[i + 1..];
      if c == '"' {
        inQuotes := !inQuotes;
      }
      if c == ';' && !inQuotes {
        pieces := pieces + [workingString];
        workingString := "";
      } else {
        workingString := workingString + [c];
      }
      i := i + 1;
    }
    assert line[i..] == [];
    pieces := pieces + [workingString];
  }

  /** Putting the dropped semicolons back gives the line: nothing else is lost. */
  lemma {:induction false} PiecesJoin(s: string, inQuotes: bool, work: string)
    ensures Join(Pieces(s, inQuotes, work), ';') == work + s
    decreases |s|
  {
    if s != [] {
      var c := s[0];
      var q := if c == '"' then !inQuotes else inQuotes;
      if c == ';' && !q {
        PiecesJoin(s[1..], q, "");
        JoinCons(work, Pieces(s[1..], q, ""), ';');
        Regroup(work, c, "", s);
      } else {
        PiecesJoin(s[1..], q, work + [c]);
        Regroup(work, c, work + [c], s);
      }
    }
  }

  /** `work + [c] + rest` read back as `work + s` when `s` starts with `c`. */
  lemma Regroup(work: string, c: char, w: string, s: string)
    requires s != [] && s[0] == c && (w == "" || w == work + [c])
    ensures w == "" ==> work + [c] + (w + s[1..]) == work + s
    ensures w == work + [c] ==> w + s[1..] == work + s
  {
    assert s == [c] + s[1..];
  }

  /** The semicolons of `s` outside double quotes, starting in state `inQuotes`. */
  function SemicolonsOutside(s: string, inQuotes: bool): nat
    decreases |s|
  {
    if s == [] then 0
    else
      var q := if s[0] == '"' then !inQuotes else inQuotes;
      (if s[0] == ';' && !q then 1 else 0) + SemicolonsOutside(s[1..], q)
  }

  /** There is one piece more than there are semicolons outside quotes. */
  lemma {:induction false} PiecesCount(s: string, inQuotes: bool, work: string)
    ensures |Pieces(s, inQuotes, work)| == 1 + SemicolonsOutside(s, inQuotes)
    decreases |s|
  {
    if s != [] {
      var q := if s[0] == '"' then !inQuotes else inQuotes;
      if s[0] == ';' && !q {
        PiecesCount(s[1..], q, "");
      } else {
        PiecesCount(s[1..], q, work + [s[0]]);
      }
    }
  }

  /** A semicolon inside double quotes does not end a piece. */
  lemma QuotedSemicolon()
    ensures Pieces("a;\"x;y\"", false, "") == ["a", "\"x;y\""]
  {
    var s := "a;\"x;y\"";
    assert "" + ['a'] == "a" && "" + ['"'] == "\"" && "\"" + ['x'] == "\"x";
    assert "\"x" + [';'] == "\"x;" && "\"x;" + ['y'] == "\"x;y" && "\"x;y" + ['"'] == "\"x;y\"";
    assert Pieces(s[7..], false, "\"x;y\"") == ["\"x;y\""];
    assert Pieces(s[6..], true, "\"x;y") == ["\"x;y\""];
    assert Pieces(s[5..], true, "\"x;") == ["\"x;y\""];
    assert Pieces(s[4..], true, "\"x") == ["\"x;y\""];
    assert Pieces(s[3..], true, "\"") == ["\"x;y\""];
    assert Pieces(s[2..], false, "") == ["\"x;y\""];
    assert Pieces(s[1..], false, "a") == ["a", "\"x;y\""];
  }

  // --------------------------------------------------- header-line fields

  /** Why a multipart body is refused (the message of the exception thrown). */
  datatype ParseError =
    | SegmentParseError      // the input ended inside the headers of a section
    | UnexpectedSegmentEnd   // a boundary came before the blank line ending the headers
    | MissingSeparator       // a header piece had neither ':' nor '=' (`x[1]` out of range)
    | DuplicateKeyInLine     // `ToDictionary` met a key twice in one header line
    | DuplicateField         // "Duplicate field in section"
    | UnexpectedEndOfSection // the input ended inside a field value
    | MissingName            // the section had no `name` (`parameters["name"]` threw)
    | FileSection            // a section with a file name: its byte copy is not modelled

  datatype Outcome<T> = Done(value: T) | Refused(error: ParseError)

  /** The first ':' or '=' of a piece, or -1. */
  function FirstSeparator(s: string): (k: int)
    ensures -1 <= k < |s|
    ensures k >= 0 ==> (s[k] == ':' || s[k] == '=') && ':' !in s[..k] && '=' !in s[..k]
    ensures k == -1 ==> ':' !in s && '=' !in s
    decreases |s|
  {
    if s == [] then -1
    else if s[0] == ':' || s[0] == '=' then 0
    else
      var k := FirstSeparator(s[1..]);
      if k < 0 then -1
      else
        assert s[..k + 1] == [s[0]] + s[1..][..k];
        k + 1
  }

  /** The key of a header piece: trimmed, every quote removed, lower case. */
  function FieldKey(x0: string): string { ToLower(Replace(Trim(x0), "\"", "")) }

  /** The value of a header piece: trimmed and every quote removed. */
  function FieldValue(x1: string): string { Replace(Trim(x1), "\"", "") }

  /** A key holds no quote and no upper-case ASCII letter; a value holds no quote. */
  lemma FieldClean(x0: string, x1: string)
    ensures '"' !in FieldKey(x0) && forall i :: 0 <= i < |FieldKey(x0)| ==> !('A' <= FieldKey(x0)[i] <= 'Z')
    ensures '"' !in FieldValue(x1)
  {
    ReplaceDeletes(Trim(x0), '"');
    ReplaceDeletes(Trim(x1), '"');
    var u := Replace(Trim(x0), "\"", "");
    assert "\"" == ['"'];
    assert forall i :: 0 <= i < |u| ==> u[i] != '"';
  }

  predicate HasKey(pairs: seq<(string, string)>, key: string)
  {
    exists i | 0 <= i < |pairs| :: pairs[i].0 == key
  }

  /**
   * `ToDictionary` over the pieces of a header line: each piece is split at
   * its first ':' or '=' into key and value; a piece without a separator or
   * a key seen twice throws.
   */
  function LineFields(pieces: seq<string>, acc: seq<(string, string)>): (r: Outcome<seq<(string, string)>>)
    ensures r.Done? ==> |r.value| == |acc| + |pieces|
    decreases |pieces|
  {
    if pieces == [] then Done(acc)
    else
      var k := FirstSeparator(pieces[0]);
      if k < 0 then Refused(MissingSeparator)
      else
        var key := FieldKey(pieces[0][..k]);
        var value := FieldValue(pieces[0][k + 1..]);
        if HasKey(acc, key) then Refused(DuplicateKeyInLine)
        else LineFields(pieces[1..], acc + [(key, value)])
  }

  function ParseHeaderLine(line: string): Outcome<seq<(string, string)>>
  {
    LineFields(Pieces(line, false, ""), [])
  }

  /** The `parameters.Add` loop: a key already set by an earlier line of the section throws. */
  function AddFields(parameters: map<string, string>, pairs: seq<(string, string)>): (r: Outcome<map<string, string>>)
    ensures r.Done? ==> parameters.Keys <= r.value.Keys
    ensures r.Done? ==> forall i :: 0 <= i < |pairs| ==> pairs[i].0 in r.value
    decreases |pairs|
  {
    if pairs == [] then Done(parameters)
    else if pairs[0].0 in parameters then Refused(DuplicateField)
    else AddFields(parameters[pairs[0].0 := pairs[0].1], pairs[1..])
  }

  /** One header line of a section: its fields parsed, then added to the section's. */
  function AddHeaderLine(parameters: map<string, string>, line: string): (r: Outcome<map<string, string>>)
    ensures r.Done? ==> parameters.Keys <= r.value.Keys
  {
    match ParseHeaderLine(line)
    case Refused(e) => Refused(e)
    case Done(pairs) => AddFields(parameters, pairs)
  }

  /** No key of `pairs` is already in `parameters` or repeated in `pairs`. */
  predicate NewKeys(parameters: map<string, string>, pairs: seq<(string, string)>)
  {
    (forall i :: 0 <= i < |pairs| ==> pairs[i].0 !in parameters) &&
    (forall i, j :: 0 <= i < j < |pairs| ==> pairs[i].0 != pairs[j].0)
  }

  function KeysOf(pairs: seq<(string, string)>): set<string>
    decreases |pairs|
  {
    if pairs == [] then {} else {pairs[0].0} + KeysOf(pairs[1..])
  }

  /** Adding the fields of a header line fails, as a duplicate field, exactly when a key is not new. */
  lemma {:induction false} AddFieldsDone(parameters: map<string, string>, pairs: seq<(string, string)>)
    ensures AddFields(parameters, pairs).Done? <==> NewKeys(parameters, pairs)
    ensures AddFields(parameters, pairs).Refused? ==> AddFields(parameters, pairs).error == DuplicateField
    decreases |pairs|
  {
    if pairs != [] {
      var k := pairs[0].0;
      var rest := pairs[1..];
      AddFieldsDone(parameters[k := pairs[0].1], rest);
      if k !in parameters {
        assert forall i :: 1 <= i < |pairs| ==> pairs[i] == rest[i - 1];
        if NewKeys(parameters, pairs) {
          assert NewKeys(parameters[k := pairs[0].1], rest) by {
            forall i | 0 <= i < |rest|
              ensures rest[i].0 !in parameters[k := pairs[0].1]
            {
              assert pairs[0].0 != pairs[i + 1].0;
            }
          }
        }
        if NewKeys(parameters[k := pairs[0].1], rest) {
          forall i, j | 0 <= i < j < |pairs|
            ensures pairs[i].0 != pairs[j].0
          {
            if i > 0 { assert rest[i - 1].0 != rest[j - 1].0; }
            else { assert rest[j - 1].0 !in parameters[k := pairs[0].1]; }
          }
        }
      }
    }
  }

  /**
   * When it succeeds, adding the fields of a header line keeps the earlier
   * fields and sets each new key to its value.
   */
  lemma {:induction false} AddFieldsContents(parameters: map<string, string>, pairs: seq<(string, string)>)
    requires AddFields(parameters, pairs).Done?
    ensures var r := AddFields(parameters, pairs).value;
      r.Keys == parameters.Keys + KeysOf(pairs) &&
      (forall k :: k in parameters ==> r[k] == parameters[k]) &&
      (forall i :: 0 <= i < |pairs| ==> r[pairs[i].0] == pairs[i].1)
    decreases |pairs|
  {
    if pairs != [] {
      var k := pairs[0].0;
      var rest := pairs[1..];
      var p' := parameters[k := pairs[0].1];
      AddFieldsContents(p', rest);
      assert forall i :: 1 <= i < |pairs| ==> pairs[i] == rest[i - 1];
    }
  }

  // -------------------------------------------------------- section reader

  /** The line that closes the last section: the boundary followed by "--". */
  function EndBoundary(boundary: string): string { boundary + "--" }

  predicate IsBoundary(line: string, boundary: string)
  {
    line == boundary || line == EndBoundary(boundary)
  }

  lemma EndBoundaryDiffers(boundary: string)
    ensures EndBoundary(boundary) != boundary
  {
    assert |EndBoundary(boundary)| != |boundary|;
  }

  /** `rest` is what is left of `lines` after some lines were read. */
  predicate Suffix(rest: seq<string>, lines: seq<string>)
  {
    |rest| <= |lines| && rest == lines[|lines| - |rest|..]
  }

  /** What is left of the lines after the first is left of all of them. */
  lemma SuffixOfTail(lines: seq<string>, rest: seq<string>)
    requires |lines| > 0 && Suffix(rest, lines[1..])
    ensures Suffix(rest, lines)
  {
    assert lines[1..][|lines[1..]| - |rest|..] == lines[|lines| - |rest|..];
  }

  /**
   * The header loop of one section: lines up to the blank one, each parsed
   * and added; the end of input or a boundary is refused. Returns the
   * section's parameters and the lines after the blank one.
   */
  function ReadHeaders(lines: seq<string>, boundary: string, parameters: map<string, string>)
    : (r: Outcome<(map<string, string>, seq<string>)>)
    ensures r.Done? ==> |r.value.1| < |lines| && Suffix(r.value.1, lines)
    decreases |lines|
  {
    if lines == [] then Refused(SegmentParseError)
    else if lines[0] == "" then Done((parameters, lines[1..]))
    else if IsBoundary(lines[0], boundary) then Refused(UnexpectedSegmentEnd)
    else
      match AddHeaderLine(parameters, lines[0])
      case Refused(e) => Refused(e)
      case Done(ps) =>
        var r := ReadHeaders(lines[1..], boundary, ps);
        if r.Done? then
          SuffixOfTail(lines, r.value.1);
          r
        else r
  }

  /**
   * The value loop of a non-file section: every line up to the next
   * boundary or end boundary. Returns the value lines, whether the end
   * boundary ended them, and the lines after it.
   */
  function ReadValue(lines: seq<string>, boundary: string): (r: Outcome<(seq<string>, bool, seq<string>)>)
    ensures r.Done? ==> |r.value.2| < |lines| && Suffix(r.value.2, lines)
    ensures r.Done? ==> forall i :: 0 <= i < |r.value.0| ==> !IsBoundary(r.value.0[i], boundary)
    ensures r.Refused? ==> r.error == UnexpectedEndOfSection
    ensures r.Refused? <==> forall i :: 0 <= i < |lines| ==> !IsBoundary(lines[i], boundary)
    decreases |lines|
  {
    if lines == [] then Refused(UnexpectedEndOfSection)
    else if IsBoundary(lines[0], boundary) then
      Done(([], lines[0] == EndBoundary(boundary), lines[1..]))
    else
      match ReadValue(lines[1..], boundary)
      case Refused(e) =>
        assert forall i :: 1 <= i < |lines| ==> lines[i] == lines[1..][i - 1];
        Refused(e)
      case Done(v) =>
        SuffixOfTail(lines, v.2);
        Done(([lines[0]] + v.0, v.1, v.2))
  }

  /** The `StringBuilder` of a value: the lines joined with the newline, "" for none. */
  function JoinValue(valueLines: seq<string>): string
  {
    if valueLines == [] then "" else JoinWith(valueLines, NewLine)
  }

  function JoinWith(parts: seq<string>, sep: string): string
    requires |parts| >= 1
    decreases |parts|
  {
    if |parts| == 1 then parts[0] else parts[0] + sep + JoinWith(parts[1..], sep)
  }

  /**
   * The section loop, just after a boundary: a section's headers, then its
   * value under its `name`, until a section ends at the end boundary.
   */
  function ReadSections(lines: seq<string>, boundary: string, acc: Params): (r: Outcome<Params>)
    decreases |lines|
  {
    match ReadHeaders(lines, boundary, map[])
    case Refused(e) => Refused(e)
    case Done(h) =>
      if "filename" in h.0 then Refused(FileSection)
      else
        match ReadValue(h.1, boundary)
        case Refused(e) => Refused(e)
        case Done(v) =>
          if "name" !in h.0 then Refused(MissingName)
          else
            var acc' := acc + [(h.0["name"], JoinValue(v.0))];
            if v.1 then Done(acc') else ReadSections(v.2, boundary, acc')
  }

  // ------------------------------------------------------------- preamble

  /**
   * The preamble loop as written: it reads until a line equals the
   * boundary; at the end of input `ReadLine` keeps returning null, which is
   * only logged, so the loop never ends. `fuel` bounds how many reads are
   * followed; `None` means the loop was still running.
   */
  function SkipPreambleAsWritten(lines: seq<string>, boundary: string, fuel: nat): (r: Option<seq<string>>)
    decreases fuel
  {
    if fuel == 0 then None
    else if lines != [] && lines[0] == boundary then Some(lines[1..])
    else SkipPreambleAsWritten(if lines != [] then lines[1..] else lines, boundary, fuel - 1)
  }

  /** A body without its opening boundary keeps the preamble loop running however long it runs. */
  lemma {:induction false} PreambleSpins(lines: seq<string>, boundary: string, fuel: nat)
    requires forall i :: 0 <= i < |lines| ==> lines[i] != boundary
    ensures SkipPreambleAsWritten(lines, boundary, fuel) == None
    decreases fuel
  {
    if fuel > 0 {
      var next := if lines != [] then lines[1..] else lines;
      assert forall i :: 0 <= i < |next| ==> next[i] == lines[|lines| - |next| + i];
      PreambleSpins(next, boundary, fuel - 1);
    }
  }

  /** The preamble loop as evidently intended: the end of input is a parse error. */
  function SkipPreamble(lines: seq<string>, boundary: string): (r: Outcome<seq<string>>)
    ensures r.Done? ==> |r.value| < |lines| && Suffix(r.value, lines) && lines[|lines| - |r.value| - 1] == boundary
    ensures r.Done? ==> forall i :: 0 <= i < |lines| - |r.value| - 1 ==> lines[i] != boundary
    ensures r.Refused? <==> forall i :: 0 <= i < |lines| ==> lines[i] != boundary
    ensures r.Refused? ==> r.error == SegmentParseError
    decreases |lines|
  {
    if lines == [] then Refused(SegmentParseError)
    else if lines[0] == boundary then Done(lines[1..])
    else
      var r := SkipPreamble(lines[1..], boundary);
      assert forall i :: 1 <= i < |lines| ==> lines[i] == lines[1..][i - 1];
      if r.Done? then
        assert lines[1..][|lines[1..]| - |r.value|..] == lines[|lines| - |r.value|..];
        r
      else r
  }

  /**
   * `processMultipartData` on the lines of a body whose sections are all
   * plain fields: the fields in the order their sections appear.
   */
  function ParseMultipart(lines: seq<string>, boundary: string): Outcome<Params>
  {
    match SkipPreamble(lines, boundary)
    case Refused(e) => Refused(e)
    case Done(rest) => ReadSections(rest, boundary, [])
  }

  // ------------------------------------------------------ form round trip

  /**
   * A section header line that is not a boundary and parses to
   * `parameters`, which name the field and give no file name.
   */
  predicate NamesField(line: string, boundary: string, parameters: map<string, string>, name: string)
  {
    line != "" && !IsBoundary(line, boundary) &&
    AddHeaderLine(map[], line) == Done(parameters) &&
    "name" in parameters && parameters["name"] == name && "filename" !in parameters
  }

  /**
   * A field as a client sends it: its header line (with the parameters the
   * line parses to), its name and its value lines.
   */
  datatype Field = Field(header: string, parameters: map<string, string>, name: string, value: seq<string>)

  predicate WellFormed(f: Field, boundary: string)
  {
    NamesField(f.header, boundary, f.parameters, f.name) &&
    forall i :: 0 <= i < |f.value| ==> !IsBoundary(f.value[i], boundary)
  }

  /** The lines of the sections for `fields`, the last one closed by the end boundary. */
  function SectionLines(fields: seq<Field>, boundary: string): seq<string>
    requires |fields| >= 1
    decreases |fields|
  {
    var f := fields[0];
    if |fields| == 1 then [f.header, ""] + f.value + [EndBoundary(boundary)]
    else [f.header, ""] + f.value + [boundary] + SectionLines(fields[1..], boundary)
  }

  /** The parameters a body of `fields` should give: each name with its value lines joined. */
  function FieldPairs(fields: seq<Field>): (ps: Params)
    ensures |ps| == |fields|
    decreases |fields|
  {
    if fields == [] then [] else [(fields[0].name, JoinValue(fields[0].value))] + FieldPairs(fields[1..])
  }

  lemma HeadersOf(lines: seq<string>, f: Field, boundary: string)
    requires NamesField(f.header, boundary, f.parameters, f.name)
    requires |lines| >= 2 && lines[0] == f.header && lines[1] == ""
    ensures ReadHeaders(lines, boundary, map[]) == Done((f.parameters, lines[2..]))
  {
    assert lines[1..][1..] == lines[2..];
  }

  lemma {:induction false} ValueOf(lines: seq<string>, value: seq<string>, boundary: string, close: string)
    requires close == boundary || close == EndBoundary(boundary)
    requires forall i :: 0 <= i < |value| ==> !IsBoundary(value[i], boundary)
    requires |value| < |lines| && lines[..|value|] == value && lines[|value|] == close
    ensures ReadValue(lines, boundary) == Done((value, close == EndBoundary(boundary), lines[|value| + 1..]))
    decreases |value|
  {
    if value == [] {
      EndBoundaryDiffers(boundary);
    } else {
      assert lines[0] == value[0];
      var tail := lines[1..];
      assert tail[..|value| - 1] == value[1..];
      ValueOf(tail, value[1..], boundary, close);
      assert tail[|value[1..]| + 1..] == lines[|value| + 1..];
      assert [value[0]] + value[1..] == value;
    }
  }

  /** The lines of the first section of a body, and what follows them. */
  lemma SectionShape(fields: seq<Field>, boundary: string)
    requires |fields| >= 1
    ensures var L := SectionLines(fields, boundary); var v := fields[0].value;
      |L| >= |v| + 3 && L[0] == fields[0].header && L[1] == "" && L[2..][..|v|] == v &&
      L[2..][|v|] == (if |fields| == 1 then EndBoundary(boundary) else boundary) &&
      L[2..][|v| + 1..] == (if |fields| == 1 then [] else SectionLines(fields[1..], boundary))
  {
    var f := fields[0];
    var close := if |fields| == 1 then EndBoundary(boundary) else boundary;
    var tail := if |fields| == 1 then [] else SectionLines(fields[1..], boundary);
    var L := SectionLines(fields, boundary);
    assert L == [f.header, ""] + (f.value + ([close] + tail));
    Rest2([f.header, ""], f.value + ([close] + tail));
    Parts(f.value, close, tail);
  }

  lemma Rest2(a: seq<string>, b: seq<string>)
    requires |a| == 2
    ensures (a + b)[2..] == b
  {
  }

  lemma Parts(v: seq<string>, close: string, tail: seq<string>)
    ensures var w := v + ([close] + tail); w[..|v|] == v && w[|v|] == close && w[|v| + 1..] == tail
  {
  }

  /** One turn of the section loop for a section that names its field. */
  lemma SectionStep(lines: seq<string>, boundary: string, acc: Params, ps: map<string, string>,
                    rest: seq<string>, value: seq<string>, endFound: bool, after: seq<string>)
    requires ReadHeaders(lines, boundary, map[]) == Done((ps, rest))
    requires "filename" !in ps && "name" in ps
    requires ReadValue(rest, boundary) == Done((value, endFound, after))
    ensures ReadSections(lines, boundary, acc) ==
      var acc' := acc + [(ps["name"], JoinValue(value))];
      if endFound then Done(acc') else ReadSections(after, boundary, acc')
  {
  }

  /** The section of field `f` at the start of `lines`, closed by the end boundary or not. */
  lemma SectionOf(lines: seq<string>, f: Field, boundary: string, acc: Params, endFound: bool)
    requires "name" in f.parameters && f.parameters["name"] == f.name && "filename" !in f.parameters
    requires forall i :: 0 <= i < |f.value| ==> !IsBoundary(f.value[i], boundary)
    requires |lines| >= |f.value| + 3 && lines[2..][..|f.value|] == f.value
    requires ReadHeaders(lines, boundary, map[]) == Done((f.parameters, lines[2..]))
    requires lines[2..][|f.value|] == if endFound then EndBoundary(boundary) else boundary
    ensures ReadSections(lines, boundary, acc) ==
      var acc' := acc + [(f.name, JoinValue(f.value))];
      if endFound then Done(acc') else ReadSections(lines[2..][|f.value| + 1..], boundary, acc')
  {
    var close := if endFound then EndBoundary(boundary) else boundary;
    ValueOf(lines[2..], f.value, boundary, close);
    EndBoundaryDiffers(boundary);
    assert ReadValue(lines[2..], boundary) == Done((f.value, endFound, lines[2..][|f.value| + 1..]));
    SectionStep(lines, boundary, acc, f.parameters, lines[2..], f.value, endFound, lines[2..][|f.value| + 1..]);
  }

  /** The field at `i` is well formed (a separate predicate, so that it is unfolded only on request). */
  predicate FieldAt(fields: seq<Field>, i: int, boundary: string)
    requires 0 <= i < |fields|
  {
    WellFormed(fields[i], boundary)
  }

  lemma AppendAssoc(a: Params, x: (string, string), b: Params)
    ensures a + ([x] + b) == (a + [x]) + b
  {
  }

  /** What the section loop needs to know about the first section of a well-formed body. */
  lemma FirstSection(fields: seq<Field>, boundary: string)
    requires |fields| >= 1
    requires forall i :: 0 <= i < |fields| ==> FieldAt(fields, i, boundary)
    ensures FirstSectionFacts(fields, boundary)
    ensures forall i :: 0 <= i < |fields| - 1 ==> FieldAt(fields[1..], i, boundary)
  {
    assert FieldAt(fields, 0, boundary);
    FirstSectionOf(fields, boundary);
    forall i | 0 <= i < |fields| - 1
      ensures FieldAt(fields[1..], i, boundary)
    {
      assert FieldAt(fields, i + 1, boundary);
    }
  }

  /** The facts `FirstSection` gives about the first section of `fields`. */
  predicate FirstSectionFacts(fields: seq<Field>, boundary: string)
    requires |fields| >= 1
  {
    var f := fields[0]; var L := SectionLines(fields, boundary);
    "name" in f.parameters && f.parameters["name"] == f.name && "filename" !in f.parameters &&
    (forall i :: 0 <= i < |f.value| ==> !IsBoundary(f.value[i], boundary)) &&
    |L| >= |f.value| + 3 && L[2..][..|f.value|] == f.value &&
    ReadHeaders(L, boundary, map[]) == Done((f.parameters, L[2..])) &&
    L[2..][|f.value|] == (if |fields| == 1 then EndBoundary(boundary) else boundary) &&
    L[2..][|f.value| + 1..] == (if |fields| == 1 then [] else SectionLines(fields[1..], boundary))
  }

  lemma FirstSectionOf(fields: seq<Field>, boundary: string)
    requires |fields| >= 1 && WellFormed(fields[0], boundary)
    ensures FirstSectionFacts(fields, boundary)
  {
    SectionShape(fields, boundary);
    HeadersOf(SectionLines(fields, boundary), fields[0], boundary);
  }

  /**
   * Each section of a well-formed body gives one parameter: its name, and its
   * value lines up to the next boundary joined with newlines.
   */
  lemma {:induction false} SectionsOf(fields: seq<Field>, boundary: string, acc: Params)
    requires |fields| >= 1
    requires forall i :: 0 <= i < |fields| ==> FieldAt(fields, i, boundary)
    ensures ReadSections(SectionLines(fields, boundary), boundary, acc) == Done(acc + FieldPairs(fields))
    decreases |fields|
  {
    var f := fields[0];
    var L := SectionLines(fields, boundary);
    FirstSection(fields, boundary);
    SectionOf(L, f, boundary, acc, |fields| == 1);
    var acc' := acc + [(f.name, JoinValue(f.value))];
    if |fields| == 1 {
      assert ReadSections(L, boundary, acc) == Done(acc');
      assert FieldPairs(fields) == [(f.name, JoinValue(f.value))];
      assert acc + FieldPairs(fields) == acc';
    } else {
      assert ReadSections(L, boundary, acc) == ReadSections(SectionLines(fields[1..], boundary), boundary, acc');
      SectionsOf(fields[1..], boundary, acc');
      AppendAssoc(acc, (f.name, JoinValue(f.value)), FieldPairs(fields[1..]));
    }
  }

  /** A whole well-formed multipart body parses to its fields, in order. */
  lemma MultipartRoundTrip(fields: seq<Field>, boundary: string)
    requires |fields| >= 1
    requires forall i :: 0 <= i < |fields| ==> FieldAt(fields, i, boundary)
    ensures ParseMultipart([boundary] + SectionLines(fields, boundary), boundary) == Done(FieldPairs(fields))
  {
    assert [] + FieldPairs(fields) == FieldPairs(fields);
    var lines := [boundary] + SectionLines(fields, boundary);
    assert lines[0] == boundary && lines[1..] == SectionLines(fields, boundary);
    assert SkipPreamble(lines, boundary) == Done(SectionLines(fields, boundary));
    SectionsOf(fields, boundary, []);
  }

  // ------------------------------------------------------------ byte search

  newtype byte = x: int | 0 <= x < 256

  /** How many leading bytes of `needle` match `haystack` from `index`. */
  function MatchLength(haystack: seq<byte>, needle: seq<byte>, index: nat, k: nat): (m: nat)
    requires k <= |needle| && index + |needle| <= |haystack|
    requires forall j :: 0 <= j < k ==> haystack[index + j] == needle[j]
    ensures k <= m <= |needle|
    ensures forall j :: 0 <= j < m ==> haystack[index + j] == needle[j]
    ensures m < |needle| ==> haystack[index + m] != needle[m]
    decreases |needle| - k
  {
    if k == |needle| || haystack[index + k] != needle[k] then k
    else MatchLength(haystack, needle, index, k + 1)
  }

  /**
   * `ByteSearch` as written, from `index`: when the last byte of the window
   * occurs in the needle it compares from the window's start and, after a
   * partial match of `m` bytes, moves on by `m + 1`; otherwise it moves on
   * by the needle's length.
   */
  function SearchFrom(haystack: seq<byte>, needle: seq<byte>, haystackLength: nat, index: nat): (r: int)
    requires |needle| > 0 && haystackLength <= |haystack|
    ensures r == -1 || (index <= r && MatchAt(haystack, needle, haystackLength, r))
    decreases haystackLength - index
  {
    if index + |needle| > haystackLength then -1
    else if haystack[index + |needle| - 1] in needle then
      var m := MatchLength(haystack, needle, index, 0);
      if m == |needle| then
        assert haystack[index..index + |needle|] == needle;
        index
      else SearchFrom(haystack, needle, haystackLength, index + 1 + m)
    else SearchFrom(haystack, needle, haystackLength, index + |needle|)
  }

  /**
   * The inner loop of `ByteSearch`: compares from `index` until a byte
   * differs (`found` false, `needleIndex` the bytes that matched) or the
   * whole needle matched (`found` true).
   */
  method CompareAt(haystack: array<byte>, needle: array<byte>, index: int) returns (found: bool, needleIndex: int)
    requires needle.Length > 0 && 0 <= index && index + needle.Length <= haystack.Length
    ensures found <==> MatchLength(haystack[..], needle[..], index, 0) == needle.Length
    ensures !found ==> needleIndex == MatchLength(haystack[..], needle[..], index, 0)
  {
    ghost var h, n := haystack[..], needle[..];
    needleIndex := 0;
    while haystack[index + needleIndex] == needle[needleIndex]
      invariant 0 <= needleIndex < needle.Length
      invariant forall j :: 0 <= j < needleIndex ==> h[index + j] == n[j]
      invariant MatchLength(h, n, index, 0) == MatchLength(h, n, index, needleIndex)
      decreases needle.Length - needleIndex
    {
      if needleIndex == needle.Length - 1 {
        assert MatchLength(h, n, index, needleIndex + 1) == needle.Length;
        return true, needleIndex;
      }
      needleIndex := needleIndex + 1;
    }
    found := false;
  }

  /**
   * `ByteSearch(haystack, needle, haystackLength)`. A position it returns
   * holds the needle; it does not always find the needle (see
   * `ByteSearchSkipsMatch`).
   */
  method ByteSearch(haystack: array<byte>, needle: array<byte>, haystackLength: int) returns (r: int)
    requires needle.Length > 0 && 0 <= haystackLength <= haystack.Length
    ensures r == SearchFrom(haystack[..], needle[..], haystackLength, 0)
    ensures r == -1 || MatchAt(haystack[..], needle[..], haystackLength, r)
  {
    ghost var h, n := haystack[..], needle[..];
    var charactersInNeedle := set b | b in needle[..];
    var index := 0;
    while index + needle.Length <= haystackLength
      invariant 0 <= index
      invariant SearchFrom(h, n, haystackLength, index) == SearchFrom(h, n, haystackLength, 0)
      decreases haystackLength - index
    {
      var found, next := SearchTurn(haystack, needle, haystackLength, charactersInNeedle, index, h, n);
      if found {
        return index;
      }
      index := next;
    }
    return -1;
  }

  /**
   * One turn of the loop of `ByteSearch` at `index`: the needle found
   * there, or the index the search goes on from.
   */
  method SearchTurn(haystack: array<byte>, needle: array<byte>, haystackLength: int,
                    charactersInNeedle: set<byte>, index: nat, ghost h: seq<byte>, ghost n: seq<byte>)
    returns (found: bool, next: int)
    requires h == haystack[..] && n == needle[..]
    requires needle.Length > 0 && index + needle.Length <= haystackLength <= haystack.Length
    requires charactersInNeedle == set b | b in n
    ensures found ==> SearchFrom(h, n, haystackLength, index) == index
    ensures !found ==> index < next
    ensures !found ==> SearchFrom(h, n, haystackLength, index) == SearchFrom(h, n, haystackLength, next)
  {
    var length := needle.Length;
    if haystack[index + length - 1] in charactersInNeedle {
      assert h[index + |n| - 1] in n;
      var needleIndex;
      found, needleIndex := CompareAt(haystack, needle, index);
      if found {
        SearchFound(h, n, haystackLength, index);
        return found, index;
      }
      next := index + 1;
      next := next + needleIndex;
      SearchPartial(h, n, haystackLength, index, needleIndex, next);
    } else {
      assert h[index + |n| - 1] !in n;
      found, next := false, index + length;
      SearchSkip(h, n, haystackLength, index, next);
    }
  }

  /** The last byte of the window is not in the needle: the search moves on by the needle's length. */
  lemma SearchSkip(h: seq<byte>, n: seq<byte>, haystackLength: nat, index: nat, next: nat)
    requires |n| > 0 && haystackLength <= |h| && index + |n| <= haystackLength && h[index + |n| - 1] !in n
    requires next == index + |n|
    ensures SearchFrom(h, n, haystackLength, index) == SearchFrom(h, n, haystackLength, next)
  {
  }

  /** The whole needle matched at `index`: that is the answer. */
  lemma SearchFound(h: seq<byte>, n: seq<byte>, haystackLength: nat, index: nat)
    requires |n| > 0 && haystackLength <= |h| && index + |n| <= haystackLength && h[index + |n| - 1] in n
    requires MatchLength(h, n, index, 0) == |n|
    ensures SearchFrom(h, n, haystackLength, index) == index
  {
  }

  /** A partial match of `m` bytes: the search moves on by `m + 1`. */
  lemma SearchPartial(h: seq<byte>, n: seq<byte>, haystackLength: nat, index: nat, m: nat, next: nat)
    requires |n| > 0 && haystackLength <= |h| && index + |n| <= haystackLength && h[index + |n| - 1] in n
    requires m == MatchLength(h, n, index, 0) && m != |n| && next == index + 1 + m
    ensures SearchFrom(h, n, haystackLength, index) == SearchFrom(h, n, haystackLength, next)
  {
  }

  /** The skip after a partial match can jump over a match: "ab" is not found in "aab". */
  lemma ByteSearchSkipsMatch(haystack: seq<byte>, needle: seq<byte>)
    requires haystack == [97, 97, 98] && needle == [97, 98]
    ensures SearchFrom(haystack, needle, 3, 0) == -1
    ensures haystack[1..3] == needle
    ensures FirstIndexOf(haystack, needle, 3, 0) == 1
  {
    assert MatchLength(haystack, needle, 0, 0) == 1;
  }

  /** The needle occurs in the haystack at `j`, within its first `haystackLength` bytes. */
  predicate MatchAt(haystack: seq<byte>, needle: seq<byte>, haystackLength: nat, j: int)
    requires haystackLength <= |haystack|
  {
    0 <= j && j + |needle| <= haystackLength && haystack[j..j + |needle|] == needle
  }

  /** The search as evidently intended: the first position of the needle, or -1. */
  function FirstIndexOf(haystack: seq<byte>, needle: seq<byte>, haystackLength: nat, index: nat): (r: int)
    requires |needle| > 0 && haystackLength <= |haystack|
    ensures r == -1 || (index <= r && MatchAt(haystack, needle, haystackLength, r))
    ensures r == -1 ==> forall j :: index <= j ==> !MatchAt(haystack, needle, haystackLength, j)
    ensures r >= 0 ==> forall j :: index <= j < r ==> !MatchAt(haystack, needle, haystackLength, j)
    decreases haystackLength - index
  {
    if index + |needle| > haystackLength then -1
    else if haystack[index..index + |needle|] == needle then index
    else FirstIndexOf(haystack, needle, haystackLength, index + 1)
  }

  // ------------------------------------------------------ boundary choice

  /** Which boundary ends a file part, and where. */
  datatype Cut = NoCut | CutAt(pos: nat, length: nat, endBoundaryFound: bool)

  /**
   * The choice between the next boundary and the next end boundary in the
   * buffer: the nearer one, the end boundary when both start at the same
   * place (the boundary is a prefix of it), none when neither was found.
   */
  function SelectBoundary(boundaryPos: int, boundaryLength: nat, endBoundaryPos: int, endBoundaryLength: nat): (c: Cut)
    ensures c.NoCut? <==> boundaryPos < 0 && endBoundaryPos < 0
    ensures c.CutAt? && c.endBoundaryFound ==>
      c.pos == endBoundaryPos && c.length == endBoundaryLength && (boundaryPos < 0 || endBoundaryPos <= boundaryPos)
    ensures c.CutAt? && !c.endBoundaryFound ==>
      c.pos == boundaryPos && c.length == boundaryLength && (endBoundaryPos < 0 || boundaryPos < endBoundaryPos)
  {
    if endBoundaryPos >= 0 && boundaryPos >= 0 then
      if boundaryPos < endBoundaryPos then CutAt(boundaryPos, boundaryLength, false)
      else CutAt(endBoundaryPos, endBoundaryLength, true)
    else if boundaryPos >= 0 && endBoundaryPos < 0 then CutAt(boundaryPos, boundaryLength, false)
    else if boundaryPos < 0 && endBoundaryPos >= 0 then CutAt(endBoundaryPos, endBoundaryLength, true)
    else NoCut
  }

  /** Where a file part ends in a buffer, with the search corrected to find the first occurrence. */
  function FindCut(buffer: seq<byte>, boundary: seq<byte>, endBoundary: seq<byte>, length: nat): (c: Cut)
    requires |boundary| > 0 && |endBoundary| > 0 && length <= |buffer|
    ensures c.CutAt? ==> c.pos + c.length <= length
  {
    var e := FirstIndexOf(buffer, endBoundary, length, 0);
    var b := FirstIndexOf(buffer, boundary, length, 0);
    SelectBoundary(b, |boundary|, e, |endBoundary|)
  }
}
