/** Canonical forms of result URLs (scoring/scoring.go, CanonicalizeURL). What url.Parse reports is a
    parameter; percent-encoding is section 2.1 of RFC 3986 in Go's query form. */
module CanonicalUrl {
  import opened Options
  import opened Text
  import opened Seqs
  import opened ByteOrder

  type Bytes = s: string | IsBytes(s)

  /** A parsed URL: host, decoded path, and the decoded query parameters. */
  datatype ParsedUrl = ParsedUrl(host: string, path: string, query: map<Bytes, seq<Bytes>>)

  // ----- percent-encoding

  predicate Unreserved(c: char) {
    'a' <= c <= 'z' || 'A' <= c <= 'Z' || '0' <= c <= '9' || c == '-' || c == '_' || c == '.' || c == '~'
  }

  function HexDigit(d: nat): char
    requires d < 16
  {
    if d < 10 then ('0' as int + d) as char else ('A' as int + d - 10) as char
  }

  function EscapeByte(c: char): (r: string)
    requires c as int < 256
  {
    if Unreserved(c) then [c]
    else if c == ' ' then "+"
    else ['%', HexDigit(c as int / 16), HexDigit(c as int % 16)]
  }

  function QueryEscape(s: string): string
    requires IsBytes(s)
  {
    if s == "" then "" else EscapeByte(s[0]) + QueryEscape(s[1..])
  }

  lemma HexDigitInjective(d: nat, e: nat)
    requires d < 16 && e < 16 && HexDigit(d) == HexDigit(e)
    ensures d == e
  {
  }

  /** No escape is the beginning of another. */
  lemma EscapeByteCuts(x: char, s: string, y: char, t: string)
    requires x as int < 256 && y as int < 256
    requires EscapeByte(x) + s == EscapeByte(y) + t
    ensures x == y && s == t
  {
    var a, b := EscapeByte(x), EscapeByte(y);
    assert (a + s)[0] == a[0] && (b + t)[0] == b[0];
    assert |a| == |b|;
    if |a| == 3 {
      assert (a + s)[1] == a[1] && (b + t)[1] == b[1];
      assert (a + s)[2] == a[2] && (b + t)[2] == b[2];
      HexDigitInjective(x as int / 16, y as int / 16);
      HexDigitInjective(x as int % 16, y as int % 16);
    }
    assert s == (a + s)[|a|..] && t == (b + t)[|b|..];
  }

  /** Percent-encoding is injective. */
  lemma {:induction false} QueryEscapeInjective(s: string, t: string)
    requires IsBytes(s) && IsBytes(t) && QueryEscape(s) == QueryEscape(t)
    ensures s == t
  {
    if s != "" && t != "" {
      EscapeByteCuts(s[0], QueryEscape(s[1..]), t[0], QueryEscape(t[1..]));
      QueryEscapeInjective(s[1..], t[1..]);
      assert s == [s[0]] + s[1..] && t == [t[0]] + t[1..];
    }
  }

  lemma {:induction false} QueryEscapeFree(s: string, c: char)
    requires IsBytes(s) && (c == '&' || c == '=' || c == '?')
    ensures c !in QueryEscape(s)
  {
    if s != "" {
      QueryEscapeFree(s[1..], c);
    }
  }

  // ----- query parameters

  predicate IsTracking(key: string) {
    var lowerKey := Lower(key);
    "utm_" <= lowerKey || lowerKey == "gclid" || lowerKey == "fbclid" || lowerKey == "ref" || lowerKey == "source"
  }

  type Pair = (Bytes, Bytes)

  function Piece(p: Pair): string {
    QueryEscape(p.0) + "=" + QueryEscape(p.1)
  }

  function PairsOf(query: map<Bytes, seq<Bytes>>, key: Bytes): (r: seq<Pair>)
    ensures key in query && !IsTracking(key) ==>
      |r| == |query[key]| && forall i :: 0 <= i < |r| ==> r[i] == (key, query[key][i])
    ensures !(key in query && !IsTracking(key)) ==> r == []
  {
    if key in query && !IsTracking(key) then
      seq(|query[key]|, i requires 0 <= i < |query[key]| => (key, query[key][i]))
    else []
  }

  function PairsFor(query: map<Bytes, seq<Bytes>>): Bytes -> seq<Pair> {
    key => PairsOf(query, key)
  }

  ghost function Enumerate(keys: set<Bytes>): (r: seq<Bytes>)
    ensures Distinct(r) && forall k :: k in r <==> k in keys
  {
    if keys == {} then [] else
      var k :| k in keys;
      [k] + Enumerate(keys - {k})
  }

  /** The (key, value) pairs of the parameters that are not tracking parameters. */
  ghost function CleanPairs(query: map<Bytes, seq<Bytes>>): seq<Pair> {
    Flatten(PairsFor(query), Enumerate(query.Keys))
  }

  lemma {:induction false} PairedCount(k: Bytes, values: seq<Bytes>, pairs: seq<Pair>, key: Bytes, value: Bytes)
    requires |pairs| == |values| && forall i :: 0 <= i < |pairs| ==> pairs[i] == (k, values[i])
    ensures multiset(pairs)[(key, value)] == if k == key then multiset(values)[value] else 0
  {
    if values != [] {
      HeadTail(values);
      HeadTail(pairs);
      PairedCount(k, values[1..], pairs[1..], key, value);
    }
  }

  lemma KeyCount(query: map<Bytes, seq<Bytes>>, k: Bytes, key: Bytes, value: Bytes)
    ensures multiset(PairsOf(query, k))[(key, value)]
         == if k == key && key in query && !IsTracking(key) then multiset(query[key])[value] else 0
  {
    if k in query && !IsTracking(k) {
      PairedCount(k, query[k], PairsOf(query, k), key, value);
    }
  }

  lemma {:induction false} PairsCount(query: map<Bytes, seq<Bytes>>, key: Bytes, value: Bytes, keys: seq<Bytes>)
    requires Distinct(keys)
    ensures multiset(Flatten(PairsFor(query), keys))[(key, value)]
         == if key in keys && key in query && !IsTracking(key) then multiset(query[key])[value] else 0
  {
    if keys != [] {
      var rest := Flatten(PairsFor(query), keys[1..]);
      PairsCount(query, key, value, keys[1..]);
      KeyCount(query, keys[0], key, value);
      assert keys == [keys[0]] + keys[1..];
      assert multiset(PairsOf(query, keys[0]) + rest) == multiset(PairsOf(query, keys[0])) + multiset(rest);
    }
  }

  /** How often a pair occurs: as often as its value is listed under its key. */
  lemma CleanPairsCount(query: map<Bytes, seq<Bytes>>, key: Bytes, value: Bytes)
    ensures multiset(CleanPairs(query))[(key, value)]
         == if key in query && !IsTracking(key) then multiset(query[key])[value] else 0
  {
    PairsCount(query, key, value, Enumerate(query.Keys));
  }

  // ----- the canonical form

  function NormalHost(host: string): string {
    TrimPrefix(Lower(host), "www.")
  }

  function NormalPath(path: string): string {
    var p := TrimSuffix(Lower(path), "/");
    if p == "/index.html" || p == "/index.htm" || p == "/index.php" then "" else p
  }

  function Render(pieces: seq<string>): string {
    if pieces == [] then "" else "?" + Join(Sort(pieces), "&")
  }

  ghost function Canonical(u: ParsedUrl): string {
    NormalHost(u.host) + NormalPath(u.path) + Render(Map(Piece, CleanPairs(u.query)))
  }

  /** The canonical form of a raw URL: the text itself, trimmed and folded, when it cannot be parsed. */
  ghost function CanonicalText(rawURL: string, parse: string -> Option<ParsedUrl>): string {
    match parse(rawURL)
    case None => Lower(TrimSpace(rawURL))
    case Some(u) => Canonical(u)
  }

  lemma RenderIgnoresOrder(a: seq<string>, b: seq<string>)
    requires multiset(a) == multiset(b)
    ensures Render(a) == Render(b)
  {
    SameLength(a, b);
    SortDecidesPermutation(a, b);
  }

  /** Pieces collected key by key, in whatever order, render alike. */
  lemma RenderVisited(query: map<Bytes, seq<Bytes>>, visited: seq<Bytes>)
    requires Distinct(visited) && forall k :: k in visited <==> k in query
    ensures Render(Map(Piece, Flatten(PairsFor(query), visited))) == Render(Map(Piece, CleanPairs(query)))
  {
    DistinctPermutation(visited, Enumerate(query.Keys));
    FlattenPermutation(PairsFor(query), visited, Enumerate(query.Keys));
    MapPermutation(Piece, Flatten(PairsFor(query), visited), CleanPairs(query));
    RenderIgnoresOrder(Map(Piece, Flatten(PairsFor(query), visited)), Map(Piece, CleanPairs(query)));
  }

  lemma VisitKey(query: map<Bytes, seq<Bytes>>, visited: seq<Bytes>, key: Bytes)
    ensures Map(Piece, Flatten(PairsFor(query), visited + [key]))
         == Map(Piece, Flatten(PairsFor(query), visited)) + Map(Piece, PairsOf(query, key))
  {
    FlattenConcat(PairsFor(query), visited, [key]);
    assert Flatten(PairsFor(query), [key]) == PairsOf(query, key);
  }

  method AppendPieces(cleanQuery: seq<string>, query: map<Bytes, seq<Bytes>>, key: Bytes) returns (r: seq<string>)
    requires key in query && !IsTracking(key)
    ensures r == cleanQuery + Map(Piece, PairsOf(query, key))
  {
    r := cleanQuery;
    var values := query[key];
    for i := 0 to |values|
      invariant r == cleanQuery + Map(Piece, PairsOf(query, key))[..i]
    {
      assert Map(Piece, PairsOf(query, key))[i] == Piece((key, values[i]));
      r := r + [QueryEscape(key) + "=" + QueryEscape(values[i])];
    }
  }

  /** The parameters come in the arbitrary order of Go's map iteration. */
  method CollectPieces(query: map<Bytes, seq<Bytes>>) returns (cleanQuery: seq<string>)
    ensures Render(cleanQuery) == Render(Map(Piece, CleanPairs(query)))
  {
    cleanQuery := [];
    var todo := query.Keys;
    ghost var visited: seq<Bytes> := [];
    while todo != {}
      invariant todo <= query.Keys && Distinct(visited)
      invariant forall k :: k in visited <==> k in query && k !in todo
      invariant cleanQuery == Map(Piece, Flatten(PairsFor(query), visited))
      decreases |todo|
    {
      var key :| key in todo;
      todo := todo - {key};
      VisitKey(query, visited, key);
      visited := visited + [key];
      if !IsTracking(key) {
        cleanQuery := AppendPieces(cleanQuery, query, key);
      }
    }
    RenderVisited(query, visited);
  }

  method CanonicalizeURL(rawURL: string, parse: string -> Option<ParsedUrl>) returns (canonical: string)
    ensures canonical == CanonicalText(rawURL, parse)
  {
    var parsed := parse(rawURL);
    if parsed.None? {
      return Lower(TrimSpace(rawURL));
    }
    var host := TrimPrefix(Lower(parsed.value.host), "www.");
    var path := TrimSuffix(Lower(parsed.value.path), "/");
    if path == "/index.html" || path == "/index.htm" || path == "/index.php" {
      path := "";
    }
    var cleanQuery := CollectPieces(parsed.value.query);
    canonical := host + path;
    if |cleanQuery| > 0 {
      canonical := canonical + ("?" + Join(Sort(cleanQuery), "&"));
    }
  }

  // ----- what equal canonical forms mean

  /** What url.Parse guarantees of a URL with a host. */
  predicate HostBearing(u: ParsedUrl) {
    u.host != "" && '/' !in u.host && '?' !in u.host && (u.path != "" ==> u.path[0] == '/')
  }

  lemma PieceInjective(p: Pair, q: Pair)
    requires Piece(p) == Piece(q)
    ensures p == q
  {
    QueryEscapeFree(p.0, '=');
    QueryEscapeFree(q.0, '=');
    CutFirst(QueryEscape(p.0), QueryEscape(p.1), QueryEscape(q.0), QueryEscape(q.1), '=');
    QueryEscapeInjective(p.0, q.0);
    QueryEscapeInjective(p.1, q.1);
  }

  lemma PieceFree(p: Pair, c: char)
    requires c == '&' || c == '?'
    ensures c !in Piece(p)
  {
    QueryEscapeFree(p.0, c);
    QueryEscapeFree(p.1, c);
  }

  lemma PiecesDecidePairs(a: seq<Pair>, b: seq<Pair>)
    requires multiset(Map(Piece, a)) == multiset(Map(Piece, b))
    ensures multiset(a) == multiset(b)
  {
    forall p, q | Piece(p) == Piece(q) ensures p == q {
      PieceInjective(p, q);
    }
    MapReflectsPermutation(Piece, a, b);
  }

  lemma SortedPiecesFree(a: seq<Pair>, c: char)
    requires c == '&' || c == '?'
    ensures forall t :: t in Sort(Map(Piece, a)) ==> c !in t
    ensures |Sort(Map(Piece, a))| == |a|
  {
    SameLength(Map(Piece, a), Sort(Map(Piece, a)));
    forall t | t in Sort(Map(Piece, a)) ensures c !in t {
      assert t in multiset(Map(Piece, a));
      var i :| 0 <= i < |a| && Map(Piece, a)[i] == t;
      PieceFree(a[i], c);
    }
  }

  lemma PathCase(path: string)
    ensures NormalPath(Lower(path)) == NormalPath(path)
  {
    LowerIdempotent(path);
  }

  /** One slash is stripped, not two. */
  lemma PathSlash(path: string)
    ensures NormalPath(path + "/") == NormalPath(path) <==> !HasSuffix(path, "/")
  {
    LowerConcat(path, "/");
    assert Lower("/") == "/";
    var low := Lower(path);
    assert (low + "/")[..|low|] == low;
    if path != "" {
      assert path[|path| - 1..] == [path[|path| - 1]];
      assert low[|low| - 1..] == [low[|low| - 1]];
    }
    assert HasSuffix(path, "/") <==> HasSuffix(low, "/");
    if HasSuffix(low, "/") {
      assert low[|low| - 1] == '/';
      assert NormalPath(path + "/") == low;
    }
  }

  lemma HostCase(host: string)
    ensures NormalHost(Lower(host)) == NormalHost(host)
  {
    LowerIdempotent(host);
  }

  /** And one "www.". */
  lemma HostPrefix(host: string)
    ensures NormalHost("www." + host) == NormalHost(host) <==> !("www." <= Lower(host))
  {
    LowerConcat("www.", host);
    assert Lower("www.") == "www.";
    assert ("www." + Lower(host))[4..] == Lower(host);
  }

  lemma DefaultPages()
    ensures NormalPath("/") == NormalPath("/index.html") == NormalPath("/INDEX.php") == ""
  {
    assert Lower("/") == "/" && Lower("/index.html") == "/index.html" && Lower("/INDEX.php") == "/index.php";
  }

  lemma CancelAround(front: string, x: string, y: string, back: string)
    ensures front + x + back == front + y + back <==> x == y
  {
    if front + x + back == front + y + back {
      assert |x| == |y|;
      assert x == (front + x + back)[|front|..|front| + |x|];
      assert y == (front + y + back)[|front|..|front| + |y|];
    }
  }

  /** The case of host and path and the default pages of the root make no difference; a leading "www."
      and a trailing slash make none exactly when the host has no "www." and the path no slash there
      already. */
  lemma SpellingsAgree(u: ParsedUrl)
    ensures Canonical(u.(host := Lower(u.host), path := Lower(u.path))) == Canonical(u)
    ensures Canonical(u.(path := "/index.html")) == Canonical(u.(path := "/")) == Canonical(u.(path := "/INDEX.php"))
    ensures Canonical(u.(host := "www." + u.host)) == Canonical(u) <==> !("www." <= Lower(u.host))
    ensures Canonical(u.(path := u.path + "/")) == Canonical(u) <==> !HasSuffix(u.path, "/")
  {
    HostCase(u.host);
    PathCase(u.path);
    DefaultPages();
    HostPrefix(u.host);
    PathSlash(u.path);
    var host, path, rest := NormalHost(u.host), NormalPath(u.path), Render(Map(Piece, CleanPairs(u.query)));
    CancelAround("", NormalHost("www." + u.host), host, path + rest);
    CancelAround(host, NormalPath(u.path + "/"), path, rest);
  }

  /** Rendered queries decide the pairs up to order. */
  lemma RenderDecidesPairs(a: seq<Pair>, b: seq<Pair>)
    ensures Render(Map(Piece, a)) == Render(Map(Piece, b)) <==> multiset(a) == multiset(b)
  {
    if multiset(a) == multiset(b) {
      MapPermutation(Piece, a, b);
      RenderIgnoresOrder(Map(Piece, a), Map(Piece, b));
    } else if Render(Map(Piece, a)) == Render(Map(Piece, b)) {
      SortedPiecesFree(a, '&');
      SortedPiecesFree(b, '&');
      if a != [] && b != [] {
        var ja, jb := Join(Sort(Map(Piece, a)), "&"), Join(Sort(Map(Piece, b)), "&");
        assert ja == ("?" + ja)[1..] && jb == ("?" + jb)[1..];
        JoinInjective(Sort(Map(Piece, a)), Sort(Map(Piece, b)), '&');
        SortDecidesPermutation(Map(Piece, a), Map(Piece, b));
        PiecesDecidePairs(a, b);
      }
    }
  }

  lemma NormalHostFree(host: string, c: char)
    requires c !in host && !('a' <= c <= 'z')
    ensures c !in NormalHost(host)
  {
    forall i | 0 <= i < |host| ensures Lower(host)[i] != c {
      assert host[i] in host;
    }
  }

  lemma NormalPathShape(path: string)
    requires path != "" ==> path[0] == '/'
    ensures NormalPath(path) != "" ==> NormalPath(path)[0] == '/'
    ensures '?' !in path ==> '?' !in NormalPath(path)
  {
    if '?' !in path {
      forall i | 0 <= i < |path| ensures Lower(path)[i] != '?' {
        assert path[i] in path;
      }
    }
  }

  /** A host without slashes and a path that is empty or starts with one can be told apart. */
  lemma HostPathCuts(h: string, p: string, g: string, q: string)
    requires '/' !in h && '/' !in g
    requires p != "" ==> p[0] == '/'
    requires q != "" ==> q[0] == '/'
    requires h + p == g + q
    ensures h == g && p == q
  {
    assert forall i :: 0 <= i < |h| ==> (h + p)[i] == h[i];
    assert forall i :: 0 <= i < |g| ==> (h + p)[i] == g[i];
    assert p != "" ==> (h + p)[|h|] == '/';
    assert q != "" ==> (h + p)[|g|] == '/';
    assert |h| == |g|;
    assert h == (h + p)[..|h|] && g == (h + p)[..|g|];
    assert p == (h + p)[|h|..] && q == (h + p)[|g|..];
  }

  lemma BodyQueryCuts(x: string, a: string, y: string, b: string)
    requires '?' !in x && '?' !in y && x + a == y + b
    requires (a != "" ==> a[0] == '?') && (b != "" ==> b[0] == '?')
    ensures x == y && a == b
  {
    assert forall i :: 0 <= i < |x| ==> (x + a)[i] == x[i];
    assert forall i :: 0 <= i < |y| ==> (x + a)[i] == y[i];
    assert a != "" ==> (x + a)[|x|] == '?';
    assert b != "" ==> (x + a)[|y|] == '?';
    assert |x| == |y|;
    assert x == (x + a)[..|x|] && y == (x + a)[..|y|];
    assert a == (x + a)[|x|..] && b == (x + a)[|y|..];
  }

  /** Two URLs have the same canonical form exactly when their case-folded hosts without "www.",
      their normalized paths and their non-tracking parameters (as a multiset) are the same. */
  lemma CanonicalDecidesEquality(u: ParsedUrl, v: ParsedUrl)
    requires HostBearing(u) && HostBearing(v) && '?' !in u.path && '?' !in v.path
    ensures Canonical(u) == Canonical(v) <==>
      && NormalHost(u.host) == NormalHost(v.host)
      && NormalPath(u.path) == NormalPath(v.path)
      && multiset(CleanPairs(u.query)) == multiset(CleanPairs(v.query))
  {
    RenderDecidesPairs(CleanPairs(u.query), CleanPairs(v.query));
    if Canonical(u) == Canonical(v) {
      var hu, hv := NormalHost(u.host), NormalHost(v.host);
      var pu, pv := NormalPath(u.path), NormalPath(v.path);
      NormalHostFree(u.host, '?');
      NormalHostFree(v.host, '?');
      NormalHostFree(u.host, '/');
      NormalHostFree(v.host, '/');
      NormalPathShape(u.path);
      NormalPathShape(v.path);
      BodyQueryCuts(hu + pu, Render(Map(Piece, CleanPairs(u.query))), hv + pv, Render(Map(Piece, CleanPairs(v.query))));
      HostPathCuts(hu, pu, hv, pv);
    }
  }

  lemma SinglePairRenders(query: map<Bytes, seq<Bytes>>, key: Bytes, value: Bytes)
    requires query == map[key := [value]] && !IsTracking(key)
    ensures Render(Map(Piece, CleanPairs(query))) == "?" + Piece((key, value))
  {
    var pairs := PairsOf(query, key);
    assert pairs == [(key, value)];
    assert Flatten(PairsFor(query), [key]) == pairs + Flatten(PairsFor(query), []);
    assert pairs + [] == pairs;
    RenderVisited(query, [key]);
    SortUnique([Piece((key, value))], [Piece((key, value))]);
    assert Map(Piece, pairs) == [Piece((key, value))];
  }

  lemma NoPairsRender()
    ensures Render(Map(Piece, CleanPairs(map[]))) == ""
  {
    RenderVisited(map[], []);
  }

  /** Any path that hides a parameter collides with the URL that has it: the path is compared
      decoded, so an encoded question mark counts as one. */
  lemma HiddenParameterCollides(host: string, path: string, key: Bytes, value: Bytes)
    requires NormalPath(path) == path && !IsTracking(key)
    requires NormalPath(path + ("?" + Piece((key, value)))) == path + ("?" + Piece((key, value)))
    ensures Canonical(ParsedUrl(host, path + ("?" + Piece((key, value))), map[]))
         == Canonical(ParsedUrl(host, path, map[key := [value]]))
  {
    SinglePairRenders(map[key := [value]], key, value);
    NoPairsRender();
    var tail := "?" + Piece((key, value));
    var h := NormalHost(host);
    assert h + path + tail == h + (path + tail) + "";
  }

  /** "/a%3Fb=c" and "/a?b=c". */
  lemma QuestionMarkInPathCollides(host: string)
    ensures Canonical(ParsedUrl(host, "/a?b=c", map[])) == Canonical(ParsedUrl(host, "/a", map["b" := ["c"]]))
  {
    assert Lower("b") == "b";
    assert QueryEscape("b") == EscapeByte('b') + "" && QueryEscape("c") == EscapeByte('c') + "";
    assert Piece(("b", "c")) == "b=c";
    assert Lower("/a") == "/a" && Lower("/a?b=c") == "/a?b=c";
    assert "/a" + ("?" + "b=c") == "/a?b=c";
    HiddenParameterCollides(host, "/a", "b", "c");
  }

  // ----- which parameters, paths and texts make a difference

  /** The parameters that are stripped, written out. */
  lemma TrackingKeys(key: string)
    ensures IsTracking(key) <==>
      || OccursAt(Lower(key), "utm_", 0)
      || Lower(key) == "gclid" || Lower(key) == "fbclid" || Lower(key) == "ref" || Lower(key) == "source"
  {
  }

  lemma PairsWithKey(query: map<Bytes, seq<Bytes>>, key: Bytes, values: seq<Bytes>)
    requires key !in query
    ensures IsTracking(key) ==> multiset(CleanPairs(query[key := values])) == multiset(CleanPairs(query))
    ensures !IsTracking(key) && values != [] ==>
      multiset(CleanPairs(query[key := values])) != multiset(CleanPairs(query))
  {
    if IsTracking(key) {
      forall p: Pair ensures multiset(CleanPairs(query[key := values]))[p] == multiset(CleanPairs(query))[p] {
        CleanPairsCount(query, p.0, p.1);
        CleanPairsCount(query[key := values], p.0, p.1);
      }
    } else if values != [] {
      CleanPairsCount(query, key, values[0]);
      CleanPairsCount(query[key := values], key, values[0]);
      assert values[0] in multiset(values);
    }
  }

  /** One more parameter makes no difference to the canonical form if and only if its folded key begins
      with "utm_" or is "gclid", "fbclid", "ref" or "source". */
  lemma ParameterMatters(u: ParsedUrl, key: Bytes, values: seq<Bytes>)
    requires key !in u.query && values != []
    ensures var k := Lower(key);
      var tracking := OccursAt(k, "utm_", 0) || k == "gclid" || k == "fbclid" || k == "ref" || k == "source";
      && (tracking ==> Canonical(u.(query := u.query[key := values])) == Canonical(u))
      && (!tracking && HostBearing(u) && '?' !in u.path ==>
            Canonical(u.(query := u.query[key := values])) != Canonical(u))
  {
    var v := u.(query := u.query[key := values]);
    TrackingKeys(key);
    PairsWithKey(u.query, key, values);
    if IsTracking(key) {
      RenderDecidesPairs(CleanPairs(u.query), CleanPairs(v.query));
    } else if HostBearing(u) && '?' !in u.path {
      CanonicalDecidesEquality(u, v);
    }
  }

  lemma SlashStripped(p: string)
    ensures TrimSuffix(p + "/", "/") == p
  {
    assert (p + "/")[|p|..] == "/" && (p + "/")[..|p|] == p;
  }

  lemma NormalPathPages(path: string)
    ensures NormalPath(path) == "" <==>
      Lower(path) in ["", "/", "/index.html", "/index.html/", "/index.htm", "/index.htm/", "/index.php", "/index.php/"]
  {
    var low := Lower(path);
    if HasSuffix(low, "/") {
      var p := low[..|low| - 1];
      assert low == p + "/";
      SlashStripped(p);
      assert "" + "/" == "/" && "/index.html" + "/" == "/index.html/";
      assert "/index.htm" + "/" == "/index.htm/" && "/index.php" + "/" == "/index.php/";
    } else {
      assert low != "" ==> low[|low| - 1..] == [low[|low| - 1]] && low[|low| - 1] != '/';
    }
  }

  lemma NormalPathKeeps(path: string)
    requires NormalPath(path) != ""
    ensures NormalPath(path) == if |path| > 0 && path[|path| - 1] == '/' then Lower(path[..|path| - 1]) else Lower(path)
  {
    if path != "" {
      assert Lower(path)[|path| - 1..] == [Lower(path)[|path| - 1]];
      assert Lower(path[..|path| - 1]) == Lower(path)[..|path| - 1];
    }
  }

  /** The pages that count as the root, written out; every other path counts as its folded text
      without one slash at its end. */
  lemma PathMatters(u: ParsedUrl, path: string, other: string)
    ensures Canonical(u.(path := path)) == Canonical(u.(path := "")) <==>
      Lower(path) in ["", "/", "/index.html", "/index.html/", "/index.htm", "/index.htm/", "/index.php", "/index.php/"]
    ensures NormalPath(path) != "" && NormalPath(other) != "" ==>
      (Canonical(u.(path := path)) == Canonical(u.(path := other)) <==>
        (if path[|path| - 1] == '/' then Lower(path[..|path| - 1]) else Lower(path))
          == (if other[|other| - 1] == '/' then Lower(other[..|other| - 1]) else Lower(other)))
  {
    var host, rest := NormalHost(u.host), Render(Map(Piece, CleanPairs(u.query)));
    NormalPathPages(path);
    NormalPathPages(other);
    NormalPathPages("");
    CancelAround(host, NormalPath(path), NormalPath(""), rest);
    CancelAround(host, NormalPath(path), NormalPath(other), rest);
    if NormalPath(path) != "" {
      NormalPathKeeps(path);
    }
    if NormalPath(other) != "" {
      NormalPathKeeps(other);
    }
  }

  lemma Regroup(h: string, p: string, r: string)
    ensures h + p + r == "" + h + (p + r)
  {
  }

  /** Hosts without "www." count as their folded text. */
  lemma HostMatters(u: ParsedUrl, host: string, other: string)
    requires !("www." <= Lower(host)) && !("www." <= Lower(other))
    ensures Canonical(u.(host := host)) == Canonical(u.(host := other)) <==> Lower(host) == Lower(other)
  {
    var path, rest := NormalPath(u.path), Render(Map(Piece, CleanPairs(u.query)));
    Regroup(NormalHost(host), path, rest);
    Regroup(NormalHost(other), path, rest);
    CancelAround("", NormalHost(host), NormalHost(other), path + rest);
  }

  lemma HexDigits(d: nat)
    requires d < 16
    ensures HexDigit(d) == "0123456789ABCDEF"[d]
  {
  }

  /** Percent-encoding: letters, digits and -_.~ stay, a blank becomes a plus sign, every other byte
      becomes a percent sign and its value in two capital hexadecimal digits. */
  lemma EscapeMeaning(c: char)
    requires c as int < 256
    ensures var r := QueryEscape([c]);
      if 'a' <= c <= 'z' || 'A' <= c <= 'Z' || '0' <= c <= '9' || c in "-_.~" then r == [c]
      else if c == ' ' then r == "+"
      else r == ['%', "0123456789ABCDEF"[c as int / 16], "0123456789ABCDEF"[c as int % 16]]
  {
    assert QueryEscape([c]) == EscapeByte(c) + QueryEscape([c][1..]) == EscapeByte(c);
    HexDigits(c as int / 16);
    HexDigits(c as int % 16);
  }

  lemma {:induction false} EscapeConcat(s: string, t: string)
    requires IsBytes(s) && IsBytes(t)
    ensures QueryEscape(s + t) == QueryEscape(s) + QueryEscape(t)
  {
    if s == "" {
      assert s + t == t;
    } else {
      assert (s + t)[1..] == s[1..] + t;
      EscapeConcat(s[1..], t);
    }
  }

  lemma PairsOfTwo(query: map<Bytes, seq<Bytes>>, k: Bytes, v: Bytes, l: Bytes, w: Bytes)
    requires k != l && !IsTracking(k) && !IsTracking(l) && query == map[k := [v], l := [w]]
    ensures Flatten(PairsFor(query), [k, l]) == [(k, v), (l, w)]
  {
    assert PairsOf(query, k) == [(k, v)] && PairsOf(query, l) == [(l, w)];
    FlattenCons(PairsFor(query), l, []);
    FlattenCons(PairsFor(query), k, [l]);
    assert [k] + [l] == [k, l] && [l] + [] == [l];
    assert Flatten(PairsFor(query), [l]) == [(l, w)] + [];
    assert Flatten(PairsFor(query), [k, l]) == [(k, v)] + [(l, w)];
  }

  lemma TwoPiecesRender(a: string, b: string)
    requires Leq(a, b)
    ensures Render([a, b]) == "?" + (a + "&" + b)
  {
    SortUnique([a, b], [a, b]);
    assert Sort([a, b]) == [a, b] && [a, b][1..] == [b];
    assert Join([b], "&") == b;
    assert Join([a, b], "&") == a + "&" + Join([b], "&");
  }

  lemma TwoPairsRender(query: map<Bytes, seq<Bytes>>, k: Bytes, v: Bytes, l: Bytes, w: Bytes)
    requires k != l && !IsTracking(k) && !IsTracking(l) && query == map[k := [v], l := [w]]
    requires Leq(Piece((k, v)), Piece((l, w)))
    ensures Render(Map(Piece, CleanPairs(query))) == "?" + (Piece((k, v)) + "&" + Piece((l, w)))
  {
    RenderVisited(query, [k, l]);
    PairsOfTwo(query, k, v, l, w);
    assert Map(Piece, [(k, v), (l, w)]) == [Piece((k, v)), Piece((l, w))];
    TwoPiecesRender(Piece((k, v)), Piece((l, w)));
  }

  /** Two parameters in the order of their texts. */
  lemma TwoParametersRender(u: ParsedUrl, k: Bytes, v: Bytes, l: Bytes, w: Bytes)
    requires k != l && !IsTracking(k) && !IsTracking(l) && u.query == map[k := [v], l := [w]]
    requires Leq(QueryEscape(k) + "=" + QueryEscape(v), QueryEscape(l) + "=" + QueryEscape(w))
    ensures Canonical(u) == Canonical(u.(query := map[]))
      + ("?" + ((QueryEscape(k) + "=" + QueryEscape(v)) + "&" + (QueryEscape(l) + "=" + QueryEscape(w))))
  {
    TwoPairsRender(u.query, k, v, l, w);
    NoPairsRender();
    var head := NormalHost(u.host) + NormalPath(u.path);
    assert Canonical(u.(query := map[])) == head + "" == head;
  }

  /** Texts that cannot be parsed count as equal up to case and outer white space. */
  lemma UnparseableAgree(raw: string, other: string, parse: string -> Option<ParsedUrl>)
    requires parse(raw) == None && parse(other) == None
    ensures CanonicalText(raw, parse) == CanonicalText(other, parse) <==>
      Lower(TrimSpace(raw)) == Lower(TrimSpace(other))
  {
  }
}
