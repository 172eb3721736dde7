/** The two halves of deduplication together: cards are keyed by canonical URLs (scoring/scoring.go,
    CanonicalizeURL and AggregateAndScore). */
module Deduplication {
  import opened Options
  import opened Text
  import opened CanonicalUrl
  import opened Merging

  /** Items i and j end up in the same card. */
  ghost predicate SameCard(items: seq<EngineResult>, i: nat, j: nat, canon: string -> string)
    requires i < |items| && j < |items|
  {
    exists c :: c in Merge(items, canon) && items[i] in Group(items, c, canon) && items[j] in Group(items, c, canon)
  }

  lemma {:induction false} InItsGroup(items: seq<EngineResult>, i: nat, canon: string -> string)
    requires i < |items|
    ensures items[i] in Group(items, canon(items[i].url), canon)
  {
    if i > 0 {
      InItsGroup(items[1..], i - 1, canon);
    }
  }

  lemma SameCardIffSameForm(items: seq<EngineResult>, i: nat, j: nat, canon: string -> string)
    requires i < |items| && j < |items|
    ensures SameCard(items, i, j, canon) <==> canon(items[i].url) == canon(items[j].url)
  {
    MergeKeys(items, canon(items[i].url), canon);
    InItsGroup(items, i, canon);
    InItsGroup(items, j, canon);
  }

  /** Two results are merged exactly when their URLs agree on the folded host without "www.", the
      normalized path and the parameters that are not for tracking, in any order. */
  lemma MergedIffSameTarget(
    items: seq<EngineResult>, i: nat, j: nat, canon: string -> string,
    parse: string -> Option<ParsedUrl>, u: ParsedUrl, v: ParsedUrl)
    requires i < |items| && j < |items|
    requires forall raw :: canon(raw) == CanonicalText(raw, parse)
    requires parse(items[i].url) == Some(u) && parse(items[j].url) == Some(v)
    requires HostBearing(u) && HostBearing(v) && '?' !in u.path && '?' !in v.path
    ensures SameCard(items, i, j, canon) <==>
      && NormalHost(u.host) == NormalHost(v.host)
      && NormalPath(u.path) == NormalPath(v.path)
      && multiset(CleanPairs(u.query)) == multiset(CleanPairs(v.query))
  {
    CanonicalDecidesEquality(u, v);
    SameCardIffSameForm(items, i, j, canon);
  }

  /** Two results whose URLs differ in one more parameter share a card if and only if that is a tracking
      parameter: its folded key begins with "utm_" or is "gclid", "fbclid", "ref" or "source". */
  lemma ParameterSplitsCards(
    items: seq<EngineResult>, i: nat, j: nat, canon: string -> string,
    parse: string -> Option<ParsedUrl>, u: ParsedUrl, key: Bytes, values: seq<Bytes>)
    requires i < |items| && j < |items|
    requires forall raw :: canon(raw) == CanonicalText(raw, parse)
    requires parse(items[i].url) == Some(u) && parse(items[j].url) == Some(u.(query := u.query[key := values]))
    requires key !in u.query && values != []
    ensures var k := Lower(key);
      var tracking := OccursAt(k, "utm_", 0) || k == "gclid" || k == "fbclid" || k == "ref" || k == "source";
      && (tracking ==> SameCard(items, i, j, canon))
      && (!tracking && HostBearing(u) && '?' !in u.path ==> !SameCard(items, i, j, canon))
  {
    ParameterMatters(u, key, values);
    SameCardIffSameForm(items, i, j, canon);
  }
}
