/**
 * The listener side of the HTTP server: finding the handler registered for
 * a request path, and decoding a form-encoded body into parameters.
 */
module HttpServer {
  import opened Common
  import opened Text
  import opened Utility

  /** Where `ExecuteHandler` sends a request. */
  datatype Route =
    | Found(key: string) // the request goes to the handler registered under `key`
    | NotFound           // the request goes to the 404 handler
    | Crashed            // `Substring(0, -1)` threw: the path held no '/'

  /** `p` is `path` itself or `path` cut just before one of its '/' characters. */
  predicate SegmentPrefix(p: string, path: string)
  {
    p == path || (|p| < |path| && path[..|p|] == p && path[|p|] == '/')
  }

  /**
   * The loop of `ExecuteHandler` entered with `partial`: look it up, else cut
   * it at its last '/', and stop cutting once the cut has no '/' beyond its
   * first character; the last cut is looked up after the loop.
   */
  function ResolveFrom(partial: string, handlers: set<string>): (r: Route)
    ensures r.Found? ==> r.key in handlers && SegmentPrefix(r.key, partial)
    decreases |partial|
  {
    if partial in handlers then Found(partial)
    else
      var k := LastIndexOfChar(partial, '/');
      if k < 0 then Crashed
      else
        var cut := partial[..k];
        if LastIndexOfChar(cut, '/') <= 0 then
          if cut in handlers then Found(cut) else NotFound
        else
          var r := ResolveFrom(cut, handlers);
          assert r.Found? ==> SegmentPrefix(r.key, cut);
          assert r.Found? && r.key != cut ==> partial[..|r.key|] == cut[..|r.key|];
          r
  }

  /** The handler `ExecuteHandler` picks for `path`; an empty path is looked up as it is. */
  function Resolve(path: string, handlers: set<string>): (r: Route)
    ensures r.Found? ==> r.key in handlers && SegmentPrefix(r.key, path)
  {
    if path == "" then (if "" in handlers then Found("") else NotFound)
    else ResolveFrom(path, handlers)
  }

  /**
   * `ExecuteHandler`: walks up `path` from the most specific prefix to the
   * least and returns where the request is enqueued.
   */
  method ExecuteHandler(path: string, handlers: set<string>) returns (route: Route)
    ensures route == Resolve(path, handlers)
    ensures route.Found? ==> route.key in handlers
  {
    var partial := path;
    if partial != "" {
      while true
        invariant partial != "" && Resolve(path, handlers) == ResolveFrom(partial, handlers)
        decreases |partial|
      {
        if partial in handlers {
          return Found(partial);
        }
        var k := LastIndexOfChar(partial, '/');
        if k < 0 {
          return Crashed;
        }
        partial := partial[..k];
        if LastIndexOfChar(partial, '/') <= 0 {
          break;
        }
      }
    }
    if partial in handlers {
      return Found(partial);
    }
    return NotFound;
  }

  /** A path registered exactly is routed to its own handler. */
  lemma ResolveExact(path: string, handlers: set<string>)
    requires path in handlers
    ensures Resolve(path, handlers) == Found(path)
  {
  }

  /** A request path as the listener gives it (starting with '/') never makes the lookup throw. */
  lemma {:induction false} ResolveNeverCrashes(partial: string, handlers: set<string>)
    requires partial != [] && '/' in partial
    ensures ResolveFrom(partial, handlers) != Crashed
    decreases |partial|
  {
    if partial !in handlers {
      var k := LastIndexOfChar(partial, '/');
      var cut := partial[..k];
      var j := LastIndexOfChar(cut, '/');
      if j > 0 {
        assert cut[j] == '/';
        ResolveNeverCrashes(cut, handlers);
      }
    }
  }

  /** No registered handler is a longer match for the path than the one picked. */
  lemma {:induction false} ResolveMostSpecific(partial: string, handlers: set<string>, g: string)
    requires partial != []
    requires g != "" && g in handlers && SegmentPrefix(g, partial)
    ensures ResolveFrom(partial, handlers).Found?
    ensures |g| <= |ResolveFrom(partial, handlers).key|
    decreases |partial|
  {
    if partial !in handlers {
      assert g != partial;
      var k := LastIndexOfChar(partial, '/');
      assert partial[|g|] == '/';
      assert |g| <= k;
      var cut := partial[..k];
      if |g| < k {
        assert partial[k] == '/' && cut[|g|] == '/';
        assert cut[..|g|] == g;
        assert cut[|g|] == '/';
        assert LastIndexOfChar(cut, '/') >= |g| by {
          assert '/' in cut[|g|..];
          LastSlashAtLeast(cut, |g|);
        }
        if LastIndexOfChar(cut, '/') > 0 {
          ResolveMostSpecific(cut, handlers, g);
        }
      } else {
        assert cut == g;
      }
    }
  }

  lemma LastSlashAtLeast(s: string, i: nat)
    requires i < |s| && s[i] == '/'
    ensures LastIndexOfChar(s, '/') >= i
  {
    assert s[i] in s[i..];
  }

  // ------------------------------------------------------ ParseQueryString

  /** The part after the first '?', or all of `s` when it has none. */
  function QueryPart(s: string): (q: string)
    ensures '?' !in s ==> q == s
    ensures '?' in s ==> exists k | 0 <= k < |s| :: s[k] == '?' && q == s[k + 1..] && '?' !in s[..k]
  {
    var k := IndexOfChar(s, '?');
    if k >= 0 then s[k + 1..] else s
  }

  /** One `&`-piece: a key and a value when it holds exactly one '=', else the text before any '=' and "". */
  function PairOf(piece: string): (string, string)
  {
    var parts := Split(piece, '=');
    if |parts| == 2 then (parts[0], parts[1]) else (parts[0], "")
  }

  /** What `ParseQueryString` adds, in order: one pair per `&`-piece. */
  function QueryPairs(s: string): (ps: Params)
    ensures |ps| == |Split(QueryPart(s), '&')|
  {
    var pieces := Split(QueryPart(s), '&');
    seq(|pieces|, i requires 0 <= i < |pieces| => PairOf(pieces[i]))
  }

  /** `ParseQueryString`: adds one pair per `&`-piece of the query part of `s`. */
  method ParseQueryString(s: string) returns (nvc: Params)
    ensures nvc == QueryPairs(s)
  {
    var q := s;
    ContainsChar(s, '?');
    if Contains(s, "?") {
      var k := IndexOfChar(s, '?');
      q := s[k + 1..];
    }
    var pieces := Split(q, '&');
    nvc := [];
    var i := 0;
    while i < |pieces|
      invariant 0 <= i <= |pieces|
      invariant |nvc| == i
      invariant forall j :: 0 <= j < i ==> nvc[j] == PairOf(pieces[j])
    {
      var singlePair := Split(pieces[i], '=');
      if |singlePair| == 2 {
        nvc := nvc + [(singlePair[0], singlePair[1])];
      } else {
        nvc := nvc + [(singlePair[0], "")];
      }
      i := i + 1;
    }
  }

  /** The form encoding of pairs: `k=v` pieces joined by '&'. */
  function EncodePairs(ps: Params): (pieces: seq<string>)
  {
    seq(|ps|, i requires 0 <= i < |ps| => ps[i].0 + "=" + ps[i].1)
  }

  predicate PlainField(s: string) { '&' !in s && '=' !in s && '?' !in s }

  /** A body encoded from plain keys and values parses back to the same pairs. */
  lemma EncodeParse(ps: Params)
    requires |ps| >= 1
    requires forall i :: 0 <= i < |ps| ==> PlainField(ps[i].0) && PlainField(ps[i].1)
    ensures QueryPairs(Join(EncodePairs(ps), '&')) == ps
  {
    var pieces := EncodePairs(ps);
    var body := Join(pieces, '&');
    forall i | 0 <= i < |ps| ensures '&' !in pieces[i] && '?' !in pieces[i] {
      assert pieces[i] == ps[i].0 + "=" + ps[i].1;
    }
    JoinHasNo(pieces, '&', '?');
    assert QueryPart(body) == body;
    SplitJoin(pieces, '&');
    forall i | 0 <= i < |ps| ensures PairOf(pieces[i]) == ps[i] {
      var k, v := ps[i].0, ps[i].1;
      assert pieces[i] == Join([k, v], '=');
      SplitJoin([k, v], '=');
    }
  }

  lemma {:induction false} JoinHasNo(pieces: seq<string>, c: char, d: char)
    requires |pieces| >= 1 && d != c
    requires forall i :: 0 <= i < |pieces| ==> d !in pieces[i]
    ensures d !in Join(pieces, c)
    decreases |pieces|
  {
    if |pieces| > 1 {
      JoinHasNo(pieces[1..], c, d);
    }
  }
}
