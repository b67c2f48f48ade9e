/**
 * The .NET string operations the core relies on, written out over
 * `seq<char>`: trimming, ordinal search, replacement, splitting, line
 * reading and the decimal form of `int`. Case folding is ASCII only.
 */
module Text {
  import opened Common

  /** `char.IsWhiteSpace` restricted to the Latin-1 range: what `String.Trim()` removes. */
  const WhiteSpace: set<char> := {' ', '\t', '\n', '\U{000B}', '\U{000C}', '\r', '\U{0085}', '\U{00A0}'}

  /** The white space `NumberStyles.Integer` lets `Int32.Parse` and `Int32.TryParse` skip. */
  const NumberWhite: set<char> := {' ', '\t', '\n', '\U{000B}', '\U{000C}', '\r'}

  predicate IsNullOrEmpty(s: Option<string>) { s.None? || s.value == "" }

  // ---------------------------------------------------------------- trimming

  function TrimStartOf(s: string, ws: set<char>): (r: string)
    ensures |r| <= |s| && r == s[|s| - |r|..]
    ensures forall i :: 0 <= i < |s| - |r| ==> s[i] in ws
    ensures r == [] || r[0] !in ws
    decreases |s|
  {
    if s != [] && s[0] in ws then TrimStartOf(s[1..], ws) else s
  }

  function TrimEndOf(s: string, ws: set<char>): (r: string)
    ensures |r| <= |s| && r == s[..|r|]
    ensures forall i :: |r| <= i < |s| ==> s[i] in ws
    ensures r == [] || r[|r| - 1] !in ws
    decreases |s|
  {
    if s != [] && s[|s| - 1] in ws then TrimEndOf(s[..|s| - 1], ws) else s
  }

  /** Removes every leading and trailing character of `ws`. */
  function TrimOf(s: string, ws: set<char>): (r: string)
    ensures |r| <= |s|
    ensures r == [] || (r[0] !in ws && r[|r| - 1] !in ws)
  {
    TrimEndOf(TrimStartOf(s, ws), ws)
  }

  /** `String.Trim()`. */
  function Trim(s: string): (r: string)
    ensures |r| <= |s|
    ensures r == [] || (r[0] !in WhiteSpace && r[|r| - 1] !in WhiteSpace)
  {
    TrimOf(s, WhiteSpace)
  }

  /** A string whose ends are not white space is its own trim. */
  lemma TrimOfClean(s: string, ws: set<char>)
    requires s == [] || (s[0] !in ws && s[|s| - 1] !in ws)
    ensures TrimOf(s, ws) == s
  {
  }

  /** `Trim` is idempotent. */
  lemma TrimTwice(s: string)
    ensures Trim(Trim(s)) == Trim(s)
  {
    TrimOfClean(Trim(s), WhiteSpace);
  }

  /** A text made of three parts starts with the first, ends with the last and holds the middle one after the first. */
  lemma ThreeParts(a: string, b: string, c: string)
    ensures StartsWith(a + b + c, a) && EndsWith(a + b + c, c)
    ensures (a + b + c)[|a|..|a| + |b|] == b
  {
    var s := a + b + c;
    assert s[..|a|] == a;
    assert s[|s| - |c|..] == c;
    assert s[|a|..|a| + |b|] == b;
  }

  // ------------------------------------------------------------ case folding

  /** `Char.ToLower` on ASCII letters; every other character is kept. */
  function LowerChar(c: char): char
  {
    if 'A' <= c <= 'Z' then (c as int + 32) as char else c
  }

  /** `String.ToLower()` (ASCII folding). */
  function ToLower(s: string): (r: string)
    ensures |r| == |s|
    ensures forall i :: 0 <= i < |s| ==> r[i] == LowerChar(s[i])
  {
    seq(|s|, i requires 0 <= i < |s| => LowerChar(s[i]))
  }

  /** Case-insensitive equality, as an ignore-case comparer sees ASCII keys. */
  predicate EqualsIgnoreCase(a: string, b: string) { ToLower(a) == ToLower(b) }

  // --------------------------------------------------------- ordinal search

  predicate OccursAt(s: string, p: string, i: int)
  {
    0 <= i && i + |p| <= |s| && s[i..i + |p|] == p
  }

  /** `String.Contains`. */
  predicate Contains(s: string, p: string)
  {
    exists i | 0 <= i <= |s| - |p| :: OccursAt(s, p, i)
  }

  /** Searching for a one-character string is searching for the character. */
  lemma ContainsChar(s: string, c: char)
    ensures Contains(s, [c]) <==> c in s
  {
    if c in s {
      var i :| 0 <= i < |s| && s[i] == c;
      assert OccursAt(s, [c], i);
    }
    if Contains(s, [c]) {
      var i :| 0 <= i <= |s| - 1 && OccursAt(s, [c], i);
      assert s[i..i + 1][0] == s[i];
    }
  }

  predicate StartsWith(s: string, p: string) { |p| <= |s| && s[..|p|] == p }

  predicate EndsWith(s: string, p: string) { |p| <= |s| && s[|s| - |p|..] == p }

  function IndexFrom(s: string, p: string, i: nat): (r: int)
    requires i <= |s|
    ensures r == -1 || (i <= r && OccursAt(s, p, r))
    ensures r == -1 ==> forall j :: i <= j ==> !OccursAt(s, p, j)
    ensures r >= 0 ==> forall j :: i <= j < r ==> !OccursAt(s, p, j)
    decreases |s| - i
  {
    if i + |p| > |s| then -1
    else if s[i..i + |p|] == p then i
    else IndexFrom(s, p, i + 1)
  }

  /** `String.IndexOf(string)`: the first occurrence of `p`, or -1. */
  function IndexOf(s: string, p: string): (r: int)
    ensures r == -1 || OccursAt(s, p, r)
    ensures r == -1 <==> !Contains(s, p)
    ensures forall j :: 0 <= j < r ==> !OccursAt(s, p, j)
  {
    IndexFrom(s, p, 0)
  }

  /** `String.IndexOf(char)`: the first position holding `c`, or -1. */
  function IndexOfChar(s: string, c: char): (r: int)
    ensures -1 <= r < |s|
    ensures r == -1 <==> c !in s
    ensures r >= 0 ==> s[r] == c && c !in s[..r]
    decreases |s|
  {
    if s == [] then -1
    else if s[0] == c then 0
    else var k := IndexOfChar(s[1..], c); if k < 0 then -1 else k + 1
  }

  /** `String.LastIndexOf(char)`: the last position holding `c`, or -1. */
  function LastIndexOfChar(s: string, c: char): (r: int)
    ensures -1 <= r < |s|
    ensures r == -1 <==> c !in s
    ensures r >= 0 ==> s[r] == c && c !in s[r + 1..]
    decreases |s|
  {
    if s == [] then -1
    else if s[|s| - 1] == c then |s| - 1
    else LastIndexOfChar(s[..|s| - 1], c)
  }

  /** `String.Substring(start)`; `None` is the `ArgumentOutOfRangeException`. */
  function SubstringFrom(s: string, start: int): (r: Option<string>)
    ensures r.Some? <==> 0 <= start <= |s|
    ensures r.Some? ==> s == s[..start] + r.value
  {
    if 0 <= start <= |s| then Some(s[start..]) else None
  }

  /** `String.Substring(0, length)`; `None` is the `ArgumentOutOfRangeException`. */
  function Prefix(s: string, length: int): (r: Option<string>)
    ensures r.Some? <==> 0 <= length <= |s|
    ensures r.Some? ==> |r.value| == length && StartsWith(s, r.value)
  {
    if 0 <= length <= |s| then Some(s[..length]) else None
  }

  // ------------------------------------------------------------ replacement

  /** `String.Replace(p, q)`: every occurrence of `p`, left to right, without overlap. */
  function Replace(s: string, p: string, q: string): (r: string)
    requires |p| > 0
    ensures !Contains(s, p) ==> r == s
    decreases |s|
  {
    if |s| < |p| then s
    else if s[..|p|] == p then
      assert OccursAt(s, p, 0);
      q + Replace(s[|p|..], p, q)
    else
      ContainsTail(s, p);
      [s[0]] + Replace(s[1..], p, q)
  }

  lemma ContainsTail(s: string, p: string)
    requires s != []
    ensures Contains(s[1..], p) ==> Contains(s, p)
  {
    if Contains(s[1..], p) {
      var i :| 0 <= i <= |s[1..]| - |p| && OccursAt(s[1..], p, i);
      assert s[i + 1..i + 1 + |p|] == s[1..][i..i + |p|];
      assert OccursAt(s, p, i + 1);
    }
  }

  /** A text that lacks one of the pattern's characters does not contain the pattern. */
  lemma NotContains(s: string, p: string, k: int)
    requires 0 <= k < |p| && p[k] !in s
    ensures !Contains(s, p)
  {
  }

  /** ... and so has nothing to replace. */
  lemma ReplaceAbsent(s: string, p: string, q: string, k: int)
    requires 0 <= k < |p| && p[k] !in s
    ensures Replace(s, p, q) == s
  {
    NotContains(s, p, k);
  }

  /** An occurrence at the very front is replaced, and the scan resumes after it. */
  lemma ReplaceHead(p: string, t: string, q: string)
    requires |p| > 0
    ensures Replace(p + t, p, q) == q + Replace(t, p, q)
  {
    var s := p + t;
    assert s[..|p|] == p;
    assert s[|p|..] == t;
  }

  /** A prefix in which no occurrence of the pattern starts is copied unchanged. */
  lemma {:induction false} ReplaceAfter(a: string, t: string, p: string, q: string)
    requires |p| > 0
    requires forall i :: 0 <= i < |a| ==> !OccursAt(a + t, p, i)
    ensures Replace(a + t, p, q) == a + Replace(t, p, q)
    decreases |a|
  {
    var s := a + t;
    if a == [] {
      assert s == t;
    } else if |s| < |p| {
      assert Replace(s, p, q) == s;
      assert Replace(t, p, q) == t;
    } else {
      assert !OccursAt(s, p, 0);
      assert s[..|p|] != p;
      var rest := a[1..];
      assert s[1..] == rest + t;
      forall i | 0 <= i < |rest|
        ensures !OccursAt(rest + t, p, i)
      {
        assert !OccursAt(s, p, i + 1);
        if i + |p| <= |rest + t| {
          assert (rest + t)[i..i + |p|] == s[i + 1..i + 1 + |p|];
        }
      }
      ReplaceAfter(rest, t, p, q);
      assert Replace(s, p, q) == [s[0]] + Replace(rest + t, p, q);
      assert a == [a[0]] + rest;
    }
  }

  /** `s` with every `c` dropped (a reference definition for deleting a character). */
  function Without(s: string, c: char): (r: string)
    ensures c !in r
    decreases |s|
  {
    if s == [] then [] else (if s[0] == c then [] else [s[0]]) + Without(s[1..], c)
  }

  /** Replacing a one-character string by "" deletes that character and keeps the rest in order. */
  lemma {:induction false} ReplaceDeletes(s: string, c: char)
    ensures Replace(s, [c], "") == Without(s, c)
    decreases |s|
  {
    if |s| >= 1 {
      ReplaceDeletes(s[1..], c);
      if s[..1] == [c] {
        assert s[0] == c && s[|[c]|..] == s[1..];
      } else {
        assert s[0] != c;
      }
    }
  }

  // -------------------------------------------------------------- splitting

  /** `Regex.Split(s, c)` for a one-character literal pattern: every piece, empty ones included. */
  function Split(s: string, c: char): (r: seq<string>)
    ensures |r| >= 1
    decreases |s|
  {
    var k := IndexOfChar(s, c);
    if k < 0 then [s] else [s[..k]] + Split(s[k + 1..], c)
  }

  /** No piece of a split holds the separator. */
  lemma {:induction false} SplitPieces(s: string, c: char)
    ensures forall i :: 0 <= i < |Split(s, c)| ==> c !in Split(s, c)[i]
    decreases |s|
  {
    var k := IndexOfChar(s, c);
    if k >= 0 {
      SplitPieces(s[k + 1..], c);
      var r := Split(s, c);
      assert r == [s[..k]] + Split(s[k + 1..], c);
    }
  }

  /** `String.Join(c, pieces)`. */
  function Join(pieces: seq<string>, c: char): string
    requires |pieces| >= 1
    decreases |pieces|
  {
    if |pieces| == 1 then pieces[0] else pieces[0] + [c] + Join(pieces[1..], c)
  }

  /** Joining the pieces back with the separator gives the original text. */
  lemma {:induction false} JoinSplit(s: string, c: char)
    ensures Join(Split(s, c), c) == s
    decreases |s|
  {
    var k := IndexOfChar(s, c);
    if k < 0 {
      assert Split(s, c) == [s];
    } else {
      var head, rest := s[..k], s[k + 1..];
      var tail := Split(rest, c);
      assert Split(s, c) == [head] + tail;
      JoinSplit(rest, c);
      JoinCons(head, tail, c);
      CutAround(s, k, c);
    }
  }

  /** A text is what lies before position `k`, the character there, and what follows. */
  lemma CutAround(s: string, k: int, c: char)
    requires 0 <= k < |s| && s[k] == c
    ensures s == s[..k] + [c] + s[k + 1..]
  {
  }

  lemma JoinCons(head: string, tail: seq<string>, c: char)
    requires |tail| >= 1
    ensures Join([head] + tail, c) == head + [c] + Join(tail, c)
  {
    assert ([head] + tail)[1..] == tail;
  }

  /** Splitting a join of separator-free pieces gives the pieces back. */
  lemma {:induction false} SplitJoin(pieces: seq<string>, c: char)
    requires |pieces| >= 1
    requires forall i :: 0 <= i < |pieces| ==> c !in pieces[i]
    ensures Split(Join(pieces, c), c) == pieces
    decreases |pieces|
  {
    var s := Join(pieces, c);
    if |pieces| > 1 {
      var rest := Join(pieces[1..], c);
      assert s == pieces[0] + [c] + rest;
      var k := |pieces[0]|;
      assert s[k] == c;
      assert s[..k] == pieces[0];
      assert c !in s[..k];
      assert IndexOfChar(s, c) == k by { IndexOfCharFirst(s, c, k); }
      assert s[k + 1..] == rest;
      SplitJoin(pieces[1..], c);
    }
  }

  lemma IndexOfCharFirst(s: string, c: char, k: nat)
    requires k < |s| && s[k] == c && c !in s[..k]
    ensures IndexOfChar(s, c) == k
  {
    assert c in s;
  }

  // ---------------------------------------------------------- line reading

  predicate IsLineBreak(c: char) { c == '\r' || c == '\n' }

  predicate NoLineBreak(s: string) { forall i :: 0 <= i < |s| ==> !IsLineBreak(s[i]) }

  function LineEnd(s: string, i: nat): (k: nat)
    requires i <= |s|
    ensures i <= k <= |s|
    ensures forall j :: i <= j < k ==> !IsLineBreak(s[j])
    ensures k < |s| ==> IsLineBreak(s[k])
    decreases |s| - i
  {
    if i == |s| || IsLineBreak(s[i]) then i else LineEnd(s, i + 1)
  }

  /**
   * The lines `TextReader.ReadLine` returns one after another: a line ends at
   * "\r\n", "\r" or "\n", and text after the last break is a final line.
   */
  function SplitLines(s: string): (lines: seq<string>)
    ensures forall i :: 0 <= i < |lines| ==> NoLineBreak(lines[i])
    decreases |s|
  {
    if s == [] then []
    else
      var k := LineEnd(s, 0);
      if k == |s| then [s]
      else
        var next := if s[k] == '\r' && k + 1 < |s| && s[k + 1] == '\n' then k + 2 else k + 1;
        [s[..k]] + SplitLines(s[next..])
  }

  /** What `AppendLine`/`WriteLine` produce: every line followed by the newline. */
  function JoinLines(lines: seq<string>): string
    decreases |lines|
  {
    if lines == [] then "" else lines[0] + NewLine + JoinLines(lines[1..])
  }

  lemma {:induction false} JoinLinesAppend(a: seq<string>, b: seq<string>)
    ensures JoinLines(a + b) == JoinLines(a) + JoinLines(b)
    decreases |a|
  {
    if a != [] {
      assert (a + b)[1..] == a[1..] + b;
      JoinLinesAppend(a[1..], b);
    } else {
      assert a + b == b;
    }
  }

  lemma LineEndAt(x: string, rest: string, i: nat)
    requires NoLineBreak(x) && i <= |x|
    ensures LineEnd(x + NewLine + rest, i) == |x|
    decreases |x| - i
  {
    var u := x + NewLine + rest;
    if i < |x| {
      assert u[i] == x[i];
      LineEndAt(x, rest, i + 1);
    } else {
      assert u[i] == '\n';
    }
  }

  /** Reading back lines written with `WriteLine` gives the lines. */
  lemma {:induction false} SplitJoinLines(lines: seq<string>)
    requires forall i :: 0 <= i < |lines| ==> NoLineBreak(lines[i])
    ensures SplitLines(JoinLines(lines)) == lines
    decreases |lines|
  {
    if lines != [] {
      var x, rest := lines[0], JoinLines(lines[1..]);
      var u := x + NewLine + rest;
      assert JoinLines(lines) == u;
      LineEndAt(x, rest, 0);
      assert u[|x|] == '\n';
      assert u[..|x|] == x;
      assert u[|x| + 1..] == rest;
      SplitJoinLines(lines[1..]);
    }
  }

  // ------------------------------------------------------- decimal numbers

  predicate IsDigit(c: char) { '0' <= c <= '9' }

  predicate AllDigits(s: string) { forall i :: 0 <= i < |s| ==> IsDigit(s[i]) }

  function DigitChar(d: nat): (c: char)
    requires d < 10
    ensures IsDigit(c) && c as int - '0' as int == d
  {
    ('0' as int + d) as char
  }

  function DigitsValue(s: string): nat
    requires AllDigits(s)
    decreases |s|
  {
    if s == [] then 0 else DigitsValue(s[..|s| - 1]) * 10 + (s[|s| - 1] as int - '0' as int)
  }

  /** The decimal digits of `n` without leading zeros (`Int32.ToString()` of a non-negative value). */
  function NatToString(n: nat): (r: string)
    ensures |r| >= 1 && AllDigits(r)
    ensures DigitsValue(r) == n
    decreases n
  {
    if n < 10 then [DigitChar(n)]
    else
      var r := NatToString(n / 10) + [DigitChar(n % 10)];
      assert r[..|r| - 1] == NatToString(n / 10);
      r
  }

  /** `Int32.ToString()`. */
  function IntToString(n: int): (r: string)
    ensures |r| >= 1 && NoLineBreak(r) && r[|r| - 1] !in NumberWhite
    ensures n >= 0 ==> AllDigits(r)
    ensures forall i :: 0 <= i < |r| ==> IsDigit(r[i]) || r[i] == '-'
  {
    if n < 0 then "-" + NatToString(-n) else NatToString(n)
  }

  const Int32Min: int := -0x8000_0000
  const Int32Max: int := 0x7FFF_FFFF

  predicate IsInt32(n: int) { Int32Min <= n <= Int32Max }

  /** Two's-complement wrap-around of a 32-bit signed value (`Interlocked.Increment`). */
  function Wrap32(n: int): (r: int)
    ensures IsInt32(r)
    ensures IsInt32(n) ==> r == n
  {
    (n - Int32Min) % 0x1_0000_0000 + Int32Min
  }

  /**
   * `Int32.TryParse(s, out v)` with `NumberStyles.Integer`: optional white
   * space around an optional sign and at least one digit, within the 32-bit
   * range. `None` is the failing parse (and the `FormatException` or
   * `OverflowException` of `Int32.Parse`).
   */
  function ParseInt(s: string): (r: Option<int>)
    ensures r.Some? ==> IsInt32(r.value)
  {
    ParseSigned(TrimOf(s, NumberWhite))
  }

  /** The sign-and-digits part of `ParseInt`, after the white space is trimmed. */
  function ParseSigned(t: string): (r: Option<int>)
    ensures r.Some? ==> IsInt32(r.value)
  {
    var negative := t != [] && t[0] == '-';
    var digits := if t != [] && (t[0] == '-' || t[0] == '+') then t[1..] else t;
    if digits == [] || !AllDigits(digits) then None
    else
      var v: int := if negative then -(DigitsValue(digits) as int) else DigitsValue(digits);
      if IsInt32(v) then Some(v) else None
  }

  /** A 32-bit value written out by `ToString` parses back to itself. */
  lemma ParseIntToString(n: int)
    requires IsInt32(n)
    ensures ParseInt(IntToString(n)) == Some(n)
  {
    var s := IntToString(n);
    assert s[0] !in NumberWhite;
    TrimOfClean(s, NumberWhite);
    assert TrimOf(s, NumberWhite) == s;
    if n < 0 {
      var d := NatToString(-n);
      assert s == "-" + d && s[1..] == d;
      assert ParseSigned(s) == Some(n);
    } else {
      assert ParseSigned(s) == Some(n);
    }
  }

  // ------------------------------------------------ regular-expression classes

  predicate IsLetterOrDigit(c: char) { 'a' <= c <= 'z' || 'A' <= c <= 'Z' || '0' <= c <= '9' }

  predicate IsIdChar(c: char) { IsLetterOrDigit(c) || c == '_' || c == '-' }

  /**
   * What a pattern `^[...]+$` has to cover of `s`: the framework's `$`
   * also matches just before a final line feed, so one trailing '\n' is
   * let through.
   */
  function Anchored(s: string): (r: string)
    ensures |r| <= |s| && r == s[..|r|]
  {
    if |s| > 0 && s[|s| - 1] == '\n' then s[..|s| - 1] else s
  }

  /** `[a-zA-Z0-9_-]+`: one or more id characters. */
  predicate IsIdText(s: string) { |s| > 0 && forall i :: 0 <= i < |s| ==> IsIdChar(s[i]) }

  /** `[a-zA-Z0-9]+`: one or more letters or digits. */
  predicate IsAlnumText(s: string) { |s| > 0 && forall i :: 0 <= i < |s| ==> IsLetterOrDigit(s[i]) }

  /** `FileInfo.Extension`: the name from its last '.', or nothing without one. */
  function FileExtension(name: string): (r: string)
    ensures '.' in name ==> |r| > 0 && r[0] == '.' && EndsWith(name, r) && '.' !in r[1..]
    ensures '.' !in name ==> r == ""
  {
    var k := LastIndexOfChar(name, '.');
    if k < 0 then "" else name[k..]
  }
}
