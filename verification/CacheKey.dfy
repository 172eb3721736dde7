/** Cache keys of search requests (cache/cache.go, GenerateKey). The key is the SHA-256 of a raw key;
    the digest is a parameter and everything here is about the raw key. */
module CacheKey {
  import opened Text
  import opened Seqs
  import opened ByteOrder

  /** The inputs of a key. */
  datatype KeyParts = KeyParts(query: string, categories: seq<string>, lang: string, country: string, locale: string)

  function Normal(s: string): string {
    Lower(TrimSpace(s))
  }

  function NormalAll(ts: seq<string>): (r: seq<string>)
    ensures |r| == |ts|
    ensures forall i :: 0 <= i < |ts| ==> r[i] == Lower(TrimSpace(ts[i]))
  {
    seq(|ts|, i requires 0 <= i < |ts| => Normal(ts[i]))
  }

  function RawKey(p: KeyParts): string {
    "gosearx:" + Normal(p.query) + "|" + Join(Sort(NormalAll(p.categories)), ",")
      + "|" + Lower(p.lang) + "|" + Lower(p.country) + "|" + Lower(p.locale)
  }

  /** The first i entries are in their final places. */
  ghost predicate Settled(s: seq<string>, i: nat) {
    forall p, q :: 0 <= p < i && p < q < |s| ==> Leq(s[p], s[q])
  }

  /** Entry i is no larger than the entries from i up to j. */
  ghost predicate LeastUpTo(s: seq<string>, i: nat, j: nat) {
    i < |s| && forall q :: i <= q < j <= |s| ==> Leq(s[i], s[q])
  }

  lemma SwapKeepsOrder(s: seq<string>, i: nat, j: nat)
    requires i < j < |s| && Settled(s, i) && LeastUpTo(s, i, j) && Less(s[j], s[i])
    ensures var t := s[i := s[j]][j := s[i]];
      Settled(t, i) && LeastUpTo(t, i, j + 1) && multiset(t) == multiset(s)
  {
    var t := s[i := s[j]][j := s[i]];
    LeqTotal(s[j], s[i]);
    LessIrreflexive(s[j]);
    forall q | i <= q < j + 1 ensures Leq(t[i], t[q]) {
      if i < q < j {
        LeqTransitive(s[j], s[i], s[q]);
      }
    }
    forall p, q | 0 <= p < i && p < q < |t| ensures Leq(t[p], t[q]) {
      assert Leq(s[p], s[i]) && Leq(s[p], s[j]) && Leq(s[p], s[q]);
    }
  }

  method Swap(cats: array<string>, i: nat, j: nat)
    requires i < j < cats.Length
    modifies cats
    ensures cats[..] == old(cats[..])[i := old(cats[j])][j := old(cats[i])]
  {
    cats[i], cats[j] := cats[j], cats[i];
  }

  /** The exchange sort inside GenerateKey. */
  method ExchangeSort(cats: array<string>)
    modifies cats
    ensures cats[..] == Sort(old(cats[..]))
  {
    for i := 0 to cats.Length
      invariant multiset(cats[..]) == old(multiset(cats[..]))
      invariant Settled(cats[..], i)
    {
      LessIrreflexive(cats[i]);
      for j := i + 1 to cats.Length
        invariant multiset(cats[..]) == old(multiset(cats[..]))
        invariant Settled(cats[..], i) && LeastUpTo(cats[..], i, j)
      {
        if Less(cats[j], cats[i]) {
          SwapKeepsOrder(cats[..], i, j);
          Swap(cats, i, j);
        }
      }
    }
    SortUnique(old(cats[..]), cats[..]);
  }

  method GenerateKey(p: KeyParts, digest: string -> string) returns (key: string)
    ensures key == digest(RawKey(p))
  {
    var q := Lower(TrimSpace(p.query));
    var cats := new string[|p.categories|];
    for i := 0 to cats.Length
      invariant cats[..i] == NormalAll(p.categories)[..i]
    {
      cats[i] := Lower(TrimSpace(p.categories[i]));
    }
    assert cats[..] == NormalAll(p.categories);
    ExchangeSort(cats);
    var rawKey := "gosearx:" + q + "|" + Join(cats[..], ",")
      + "|" + Lower(p.lang) + "|" + Lower(p.country) + "|" + Lower(p.locale);
    return digest(rawKey);
  }

  /** Keys are digests in hexadecimal. */
  predicate IsHex(key: string) {
    key != "" && forall i :: 0 <= i < |key| ==> '0' <= key[i] <= '9' || 'a' <= key[i] <= 'f'
  }

  // ----- what equal raw keys mean

  predicate BarFree(p: KeyParts) {
    && (forall t :: t in p.categories ==> '|' !in t)
    && '|' !in p.lang && '|' !in p.country && '|' !in p.locale
  }

  predicate CommaFree(p: KeyParts) {
    forall t :: t in p.categories ==> ',' !in t
  }

  predicate Separable(p: KeyParts) {
    p.categories != [] && BarFree(p) && CommaFree(p)
  }

  lemma LowerFree(s: string, c: char)
    requires c !in s && !('a' <= c <= 'z')
    ensures c !in Lower(s)
  {
    forall i | 0 <= i < |s| ensures Lower(s)[i] != c {
      assert s[i] in s;
    }
  }

  lemma {:induction false} TrimLeftFree(s: string, c: char)
    requires c !in s
    ensures c !in TrimLeft(s)
  {
    if s != "" && IsSpace(s[0]) {
      TrimLeftFree(s[1..], c);
    }
  }

  lemma NormalFree(s: string, c: char)
    requires c !in s && !('a' <= c <= 'z')
    ensures c !in Normal(s)
  {
    TrimLeftFree(s, c);
    assert TrimSpace(s) <= TrimLeft(s);
    LowerFree(TrimSpace(s), c);
  }

  lemma SortedFree(ts: seq<string>, c: char)
    requires !('a' <= c <= 'z') && forall t :: t in ts ==> c !in t
    ensures forall t :: t in Sort(NormalAll(ts)) ==> c !in t
  {
    forall t | t in Sort(NormalAll(ts)) ensures c !in t {
      assert t in multiset(NormalAll(ts));
      var i :| 0 <= i < |ts| && NormalAll(ts)[i] == t;
      NormalFree(ts[i], c);
    }
  }

  lemma SortLength(ts: seq<string>)
    ensures |Sort(ts)| == |ts|
  {
    SameLength(ts, Sort(ts));
  }

  lemma FieldsFree(p: KeyParts)
    requires BarFree(p)
    ensures '|' !in Join(Sort(NormalAll(p.categories)), ",")
    ensures '|' !in Lower(p.lang) && '|' !in Lower(p.country) && '|' !in Lower(p.locale)
  {
    SortedFree(p.categories, '|');
    JoinFree(Sort(NormalAll(p.categories)), ",", '|');
    LowerFree(p.lang, '|');
    LowerFree(p.country, '|');
    LowerFree(p.locale, '|');
  }

  /** Without bars in categories and fields a raw key decides its five parts; the query may hold bars. */
  lemma RawKeyDecidesParts(a: KeyParts, b: KeyParts)
    requires BarFree(a) && BarFree(b) && RawKey(a) == RawKey(b)
    ensures Normal(a.query) == Normal(b.query)
    ensures Join(Sort(NormalAll(a.categories)), ",") == Join(Sort(NormalAll(b.categories)), ",")
    ensures Lower(a.lang) == Lower(b.lang) && Lower(a.country) == Lower(b.country) && Lower(a.locale) == Lower(b.locale)
  {
    var ca, cb := Join(Sort(NormalAll(a.categories)), ","), Join(Sort(NormalAll(b.categories)), ",");
    var a1, b1 := "gosearx:" + Normal(a.query), "gosearx:" + Normal(b.query);
    var a2, b2 := a1 + "|" + ca, b1 + "|" + cb;
    var a3, b3 := a2 + "|" + Lower(a.lang), b2 + "|" + Lower(b.lang);
    var a4, b4 := a3 + "|" + Lower(a.country), b3 + "|" + Lower(b.country);
    FieldsFree(a);
    FieldsFree(b);
    CutLast(a4, Lower(a.locale), b4, Lower(b.locale), '|');
    CutLast(a3, Lower(a.country), b3, Lower(b.country), '|');
    CutLast(a2, Lower(a.lang), b2, Lower(b.lang), '|');
    CutLast(a1, ca, b1, cb, '|');
    assert Normal(a.query) == a1[8..] && Normal(b.query) == b1[8..];
  }

  /** Joined with commas, sorted categories without commas decide their multiset. */
  lemma JoinDecidesCategories(a: seq<string>, b: seq<string>)
    requires a != [] && b != []
    requires forall t :: t in a + b ==> ',' !in t
    ensures Join(Sort(NormalAll(a)), ",") == Join(Sort(NormalAll(b)), ",") <==>
      multiset(NormalAll(a)) == multiset(NormalAll(b))
  {
    SortDecidesPermutation(NormalAll(a), NormalAll(b));
    if Join(Sort(NormalAll(a)), ",") == Join(Sort(NormalAll(b)), ",") {
      SortLength(NormalAll(a));
      SortLength(NormalAll(b));
      assert forall t :: t in a || t in b ==> t in a + b;
      SortedFree(a, ',');
      SortedFree(b, ',');
      JoinInjective(Sort(NormalAll(a)), Sort(NormalAll(b)), ',');
    }
  }

  /** Two requests share a raw key exactly when trimmed and case-folded queries, the case-folded
      categories up to order, and the three case-folded fields agree. */
  lemma RawKeyDecidesMeaning(a: KeyParts, b: KeyParts)
    requires Separable(a) && Separable(b)
    ensures RawKey(a) == RawKey(b) <==>
      && Lower(TrimSpace(a.query)) == Lower(TrimSpace(b.query))
      && multiset(NormalAll(a.categories)) == multiset(NormalAll(b.categories))
      && Lower(a.lang) == Lower(b.lang)
      && Lower(a.country) == Lower(b.country)
      && Lower(a.locale) == Lower(b.locale)
  {
    assert forall t :: t in a.categories + b.categories ==> ',' !in t;
    JoinDecidesCategories(a.categories, b.categories);
    if RawKey(a) == RawKey(b) {
      RawKeyDecidesParts(a, b);
    }
  }

  lemma NormalOfPlain(s: string)
    requires forall i :: 0 <= i < |s| ==> !('A' <= s[i] <= 'Z') && !IsSpace(s[i])
    ensures Normal(s) == s
  {
    assert TrimSpace(s) == s;
    assert Lower(s) == s;
  }

  lemma TrimmingShortens(s: string)
    requires s != ""
    ensures IsSpace(s[0]) ==> |TrimLeft(s)| < |s|
    ensures IsSpace(s[|s| - 1]) ==> |TrimRight(s)| < |s|
  {
  }

  /** A text in normal form neither begins nor ends with white space. */
  lemma NormalEnds(s: string)
    requires Normal(s) == s
    ensures TrimSpace(s) == s && Lower(s) == s
    ensures s != "" ==> !IsSpace(s[0]) && !IsSpace(s[|s| - 1])
  {
    if s != "" {
      TrimmingShortens(s);
      assert |TrimSpace(s)| == |s| && TrimSpace(s) <= TrimLeft(s);
      assert TrimLeft(s) == s;
    }
  }

  /** Normal forms joined by a separator that is neither white space nor a capital are in normal form. */
  lemma NormalAround(x: string, c: char, y: string)
    requires Normal(x) == x && Normal(y) == y
    requires !IsSpace(c) && LowerChar(c) == c
    ensures Normal(x + [c] + y) == x + [c] + y
  {
    NormalEnds(x);
    NormalEnds(y);
    var s := x + [c] + y;
    assert !IsSpace(s[0]) && !IsSpace(s[|s| - 1]);
    assert TrimSpace(s) == s;
    LowerConcat(x + [c], y);
    LowerConcat(x, [c]);
    assert Lower([c]) == [c];
  }

  lemma SingleJoins(t: string)
    requires Normal(t) == t
    ensures Join(Sort(NormalAll([t])), ",") == t
  {
    assert NormalAll([t]) == [t];
    SortUnique([t], [t]);
  }

  lemma SortedPairJoins(x: string, y: string)
    requires Normal(x) == x && Normal(y) == y && Leq(x, y)
    ensures Join(Sort(NormalAll([x, y])), ",") == x + "," + y
  {
    assert NormalAll([x, y]) == [x, y];
    SortUnique([x, y], [x, y]);
    assert [x, y][1..] == [y];
  }

  /** The conditions matter: a category with a comma has the key of the two categories around it. */
  lemma CommaCollides(query: string, x: string, y: string, lang: string, country: string, locale: string)
    requires Normal(x) == x && Normal(y) == y && Leq(x, y)
    ensures RawKey(KeyParts(query, [x + "," + y], lang, country, locale))
         == RawKey(KeyParts(query, [x, y], lang, country, locale))
  {
    NormalAround(x, ',', y);
    assert x + [','] + y == x + "," + y;
    SingleJoins(x + "," + y);
    SortedPairJoins(x, y);
  }

  lemma BarsRegroup(head: string, query: string, category: string, x: string, y: string)
    ensures head + query + "|" + category + "|" + (x + "|" + y) == head + (query + "|" + category) + "|" + x + "|" + y
  {
  }

  lemma BarJoins(x: string, y: string)
    requires TrimSpace(x) == x
    ensures Join(Sort(NormalAll([x])), ",") == Lower(x)
    ensures Lower(x + "|" + y) == Lower(x) + "|" + Lower(y)
  {
    assert NormalAll([x]) == [Lower(x)];
    SortUnique([Lower(x)], [Lower(x)]);
  }

  /** And a bar inside the language shifts the category into the query and the text before the bar
      into the categories. */
  lemma BarCollides(query: string, category: string, x: string, y: string, country: string, locale: string)
    requires Normal(query) == query && Normal(category) == category && TrimSpace(x) == x
    ensures RawKey(KeyParts(query, [category], x + "|" + y, country, locale))
         == RawKey(KeyParts(query + "|" + category, [x], y, country, locale))
  {
    NormalAround(query, '|', category);
    assert query + ['|'] + category == query + "|" + category;
    SingleJoins(category);
    BarJoins(x, y);
    BarsRegroup("gosearx:", query, category, Lower(x), Lower(y));
  }
}
