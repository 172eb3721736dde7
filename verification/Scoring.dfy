/** Aggregation as a whole (scoring/scoring.go, AggregateAndScore): filter, merge through a map of
    mutable cards, rank. */
module Scoring {
  import opened Text
  import opened Seqs
  import opened Merging
  import opened Ranking

  /** A card while the loop updates it through its pointer. */
  class Card {
    var title: string
    const url: string
    var content: string
    var score: real
    var engines: seq<string>
    const category: string

    function Value(): SearchResult
      reads this
    {
      SearchResult(title, url, content, score, engines, category)
    }

    constructor (item: EngineResult, contribution: real)
      requires contribution == Contribution(item)
      ensures Value() == NewCard(item)
    {
      title := item.title;
      url := item.url;
      content := item.content;
      score := contribution;
      engines := [item.engine];
      category := item.category;
    }

    method Update(item: EngineResult, contribution: real)
      requires contribution == Contribution(item)
      modifies this
      ensures Value() == Absorb(old(Value()), item)
    {
      score := score + contribution;
      if item.engine !in engines {
        engines := engines + [item.engine];
      }
      if |item.title| > |title| {
        title := item.title;
      }
      if |item.content| > |content| {
        content := item.content;
      }
    }
  }

  ghost predicate Enumerates(keys: seq<string>, cards: Cards) {
    Distinct(keys) && forall c :: c in keys <==> c in cards
  }

  function CardAt(cards: Cards): string -> SearchResult {
    c => if c in cards then cards[c] else SearchResult("", "", "", 0.0, [], "")
  }

  /** A ranking of the cards of these items, taken from the map in some order. */
  ghost predicate IsAggregate(out: seq<SearchResult>, items: seq<EngineResult>, canon: string -> string) {
    exists keys :: Enumerates(keys, Merge(items, canon)) && IsRanking(out, Map(CardAt(Merge(items, canon)), keys))
  }

  method IsExcluded(item: EngineResult, terms: seq<string>) returns (hasExcluded: bool)
    ensures hasExcluded == Excluded(item, terms)
  {
    hasExcluded := false;
    var lowerTitle, lowerContent := Lower(item.title), Lower(item.content);
    for i := 0 to |terms|
      invariant !hasExcluded && forall j :: 0 <= j < i ==> !Hits(item, terms[j])
    {
      var term := terms[i];
      if term != "" && (Contains(lowerTitle, term) || Contains(lowerContent, term)) {
        assert Hits(item, terms[i]);
        return true;
      }
    }
  }

  /** The cards in the heap stand for these values, one object for each key. */
  ghost predicate StandsFor(merged: map<string, Card>, cards: Cards)
    reads merged.Values
  {
    && merged.Keys == cards.Keys
    && (forall c :: c in merged ==> merged[c].Value() == cards[c])
    && forall c, d :: c in merged && d in merged && c != d ==> merged[c] != merged[d]
  }

  /** One round of the merge: update the card of this canonical URL or open one. */
  method MergeItem(merged: map<string, Card>, item: EngineResult, canon: string -> string, ghost cards: Cards)
    returns (after: map<string, Card>)
    requires StandsFor(merged, cards)
    modifies merged.Values
    ensures StandsFor(after, AddItem(cards, item, canon))
    ensures forall c :: c in after ==> (c in merged && after[c] == merged[c]) || fresh(after[c])
  {
    var canonical := canon(item.url);
    var rank := if item.rank <= 0 then 1 else item.rank;
    var weight := if item.weight <= 0.0 then 1.0 else item.weight;
    var contribution := weight / rank as real;
    if canonical in merged {
      merged[canonical].Update(item, contribution);
      after := merged;
    } else {
      var card := new Card(item, contribution);
      after := merged[canonical := card];
    }
  }

  lemma KeptAppend(raw: seq<EngineResult>, i: nat, terms: seq<string>)
    requires i < |raw|
    ensures Kept(raw[..i + 1], terms)
         == if Keeps(terms)(raw[i]) then Kept(raw[..i], terms) + [raw[i]] else Kept(raw[..i], terms)
  {
    assert raw[..i + 1] == raw[..i] + [raw[i]];
    FilterConcat(Keeps(terms), raw[..i], [raw[i]]);
    assert Filter(Keeps(terms), [raw[i]]) == if Keeps(terms)(raw[i]) then [raw[i]] else [];
  }

  /** The loop's treatment of one raw result. */
  method TakeItem(
    merged: map<string, Card>, item: EngineResult, excludedTerms: seq<string>, canon: string -> string,
    ghost kept: seq<EngineResult>)
    returns (after: map<string, Card>, ghost keptAfter: seq<EngineResult>)
    requires StandsFor(merged, Merge(kept, canon))
    modifies merged.Values
    ensures keptAfter == if Keeps(excludedTerms)(item) then kept + [item] else kept
    ensures StandsFor(after, Merge(keptAfter, canon))
    ensures forall c :: c in after ==> (c in merged && after[c] == merged[c]) || fresh(after[c])
  {
    after, keptAfter := merged, kept;
    if item.url == "" {
      return;
    }
    var hasExcluded := IsExcluded(item, excludedTerms);
    if hasExcluded {
      return;
    }
    MergeAppend(kept, item, canon);
    after := MergeItem(merged, item, canon, Merge(kept, canon));
    keptAfter := kept + [item];
  }

  /** Copies the cards out of the map, in the arbitrary order of Go's map iteration. */
  method CollectCards(merged: map<string, Card>, ghost spec: Cards) returns (cards: seq<SearchResult>)
    requires StandsFor(merged, spec)
    ensures exists keys :: Enumerates(keys, spec) && cards == Map(CardAt(spec), keys)
  {
    cards := [];
    var todo := merged.Keys;
    ghost var keys: seq<string> := [];
    while todo != {}
      invariant todo <= merged.Keys && Distinct(keys)
      invariant forall c :: c in keys <==> c in merged && c !in todo
      invariant cards == Map(CardAt(spec), keys)
      decreases |todo|
    {
      var c :| c in todo;
      todo := todo - {c};
      MapAppend(CardAt(spec), keys, c);
      keys := keys + [c];
      cards := cards + [merged[c].Value()];
    }
  }

  method AggregateAndScore(raw: seq<EngineResult>, excludedTerms: seq<string>, canon: string -> string)
    returns (results: seq<SearchResult>)
    ensures IsAggregate(results, Kept(raw, excludedTerms), canon)
  {
    var merged: map<string, Card> := map[];
    ghost var kept: seq<EngineResult> := [];
    for i := 0 to |raw|
      invariant kept == Kept(raw[..i], excludedTerms)
      invariant forall c :: c in merged ==> fresh(merged[c])
      invariant StandsFor(merged, Merge(kept, canon))
    {
      KeptAppend(raw, i, excludedTerms);
      merged, kept := TakeItem(merged, raw[i], excludedTerms, canon, kept);
    }
    assert raw[..|raw|] == raw;
    var cards := CollectCards(merged, Merge(kept, canon));
    results := SortSlice(cards);
  }

  // ----- order of arrival

  lemma StandingsByKey(a: Cards, b: Cards, keys: seq<string>)
    requires forall c :: c in keys ==> c in a && c in b && SameSummary(a[c], b[c])
    ensures Map(StandingOf, Map(CardAt(a), keys)) == Map(StandingOf, Map(CardAt(b), keys))
  {
    forall i | 0 <= i < |keys|
      ensures StandingOf(CardAt(a)(keys[i])) == StandingOf(CardAt(b)(keys[i]))
    {
      assert keys[i] in keys;
    }
  }

  lemma StandingsAgree(a: Cards, ka: seq<string>, b: Cards, kb: seq<string>)
    requires Enumerates(ka, a) && Enumerates(kb, b) && a.Keys == b.Keys
    requires forall c :: c in a ==> SameSummary(a[c], b[c])
    ensures multiset(Map(StandingOf, Map(CardAt(a), ka))) == multiset(Map(StandingOf, Map(CardAt(b), kb)))
  {
    StandingsByKey(a, b, ka);
    DistinctPermutation(ka, kb);
    MapPermutation(CardAt(b), ka, kb);
    MapPermutation(StandingOf, Map(CardAt(b), ka), Map(CardAt(b), kb));
  }

  /** Whatever the order of the items, the ranked sequence of (google, score) pairs is the same. */
  lemma RankingIgnoresOrder(
    a: seq<EngineResult>, out: seq<SearchResult>, b: seq<EngineResult>, other: seq<SearchResult>,
    canon: string -> string)
    requires multiset(a) == multiset(b)
    requires IsAggregate(out, a, canon) && IsAggregate(other, b, canon)
    ensures Map(StandingOf, out) == Map(StandingOf, other)
  {
    var ma, mb := Merge(a, canon), Merge(b, canon);
    var ka :| Enumerates(ka, ma) && IsRanking(out, Map(CardAt(ma), ka));
    var kb :| Enumerates(kb, mb) && IsRanking(other, Map(CardAt(mb), kb));
    MergeIgnoresOrder(a, b, canon);
    StandingsAgree(ma, ka, mb, kb);
    RankingsAgreeOnStandings(out, Map(CardAt(ma), ka), other, Map(CardAt(mb), kb));
  }

  // ----- cards, scores and exclusion

  lemma AggregateHasCard(out: seq<SearchResult>, items: seq<EngineResult>, canon: string -> string, i: nat)
    returns (c: string)
    requires IsAggregate(out, items, canon) && i < |out|
    ensures c in Merge(items, canon) && out[i] == Merge(items, canon)[c]
  {
    var cards := Merge(items, canon);
    var keys :| Enumerates(keys, cards) && IsRanking(out, Map(CardAt(cards), keys));
    assert out[i] in multiset(Map(CardAt(cards), keys));
    var k :| 0 <= k < |keys| && Map(CardAt(cards), keys)[k] == out[i];
    c := keys[k];
    assert c in keys;
  }

  lemma {:induction false} DistinctSize(keys: seq<string>, s: set<string>)
    requires Distinct(keys) && forall c :: c in keys <==> c in s
    ensures |keys| == |s|
  {
    if keys == [] {
      assert s == {};
    } else {
      assert forall c :: c in keys[1..] <==> c in s - {keys[0]};
      DistinctSize(keys[1..], s - {keys[0]});
    }
  }

  lemma {:induction false} ScoresByKey(cards: Cards, keys: seq<string>)
    requires forall c :: c in keys ==> c in cards
    ensures Sum((card: SearchResult) => card.score, Map(CardAt(cards), keys)) == Sum(ScoreIn(cards), keys)
  {
    if keys != [] {
      assert Map(CardAt(cards), keys)[1..] == Map(CardAt(cards), keys[1..]);
      ScoresByKey(cards, keys[1..]);
    }
  }

  /** One card for each canonical URL, and their scores add up to the contributions of the items. */
  lemma AggregateConservesScore(out: seq<SearchResult>, items: seq<EngineResult>, canon: string -> string)
    requires IsAggregate(out, items, canon)
    ensures |out| == |Merge(items, canon)|
    ensures Sum((card: SearchResult) => card.score, out) == Sum(Contribution, items)
  {
    var cards := Merge(items, canon);
    var keys :| Enumerates(keys, cards) && IsRanking(out, Map(CardAt(cards), keys));
    var score := (card: SearchResult) => card.score;
    SumPermutation(score, out, Map(CardAt(cards), keys));
    SameLength(out, Map(CardAt(cards), keys));
    ScoresByKey(cards, keys);
    ScoreIsConserved(items, canon, keys);
    assert cards.Keys == set c | c in keys;
    DistinctSize(keys, cards.Keys);
  }

  lemma TextsComeFromGroup(card: SearchResult, g: seq<EngineResult>)
    requires IsCardOf(card, g)
    ensures exists item :: item in g && item.title == card.title
    ensures exists item :: item in g && item.content == card.content
  {
    var k :| 0 <= k < |g| && Titles(g)[k] == card.title;
    assert g[k] in g;
    var l :| 0 <= l < |g| && Contents(g)[l] == card.content;
    assert g[l] in g;
  }

  /** No returned card shows an excluded term, in its title or its content, in any case. */
  lemma NoCardShowsExcludedTerm(
    out: seq<SearchResult>, raw: seq<EngineResult>, terms: seq<string>, canon: string -> string)
    requires IsAggregate(out, Kept(raw, terms), canon)
    ensures forall i, t :: 0 <= i < |out| && t in terms && t != "" ==>
      !Contains(Lower(out[i].title), t) && !Contains(Lower(out[i].content), t)
  {
    forall i, t | 0 <= i < |out| && t in terms && t != ""
      ensures !Contains(Lower(out[i].title), t) && !Contains(Lower(out[i].content), t)
    {
      var items := Kept(raw, terms);
      var c := AggregateHasCard(out, items, canon, i);
      MergeMeetsGroups(items, c, canon);
      TextsComeFromGroup(out[i], Group(items, c, canon));
      var x :| x in Group(items, c, canon) && x.title == out[i].title;
      var y :| y in Group(items, c, canon) && y.content == out[i].content;
      var j :| 0 <= j < |terms| && terms[j] == t;
      assert Keeps(terms)(x) && Keeps(terms)(y);
      assert !Hits(x, terms[j]) && !Hits(y, terms[j]);
    }
  }

  lemma {:induction false} KeptTwice(raw: seq<EngineResult>, terms: seq<string>, more: seq<string>)
    requires forall t :: t in terms ==> t in more
    ensures Kept(Kept(raw, terms), more) == Kept(raw, more)
  {
    if raw != [] {
      KeptTwice(raw[1..], terms, more);
      var rest := Kept(raw[1..], terms);
      FilterCons(Keeps(more), raw[0], rest);
      assert Kept(raw, terms) == if Keeps(terms)(raw[0]) then [raw[0]] + rest else rest;
      if Excluded(raw[0], terms) {
        var i :| 0 <= i < |terms| && Hits(raw[0], terms[i]);
        assert terms[i] in more;
        var j :| 0 <= j < |more| && more[j] == terms[i];
        assert Excluded(raw[0], more);
      }
      assert Kept(raw, more) == if Keeps(more)(raw[0]) then [raw[0]] + Kept(raw[1..], more) else Kept(raw[1..], more);
    }
  }

  lemma {:induction false} KeptAll(items: seq<EngineResult>)
    requires forall x :: x in items ==> x.url != ""
    ensures Kept(items, []) == items
  {
    if items != [] {
      assert items[0] in items;
      KeptAll(items[1..]);
      HeadTail(items);
    }
  }

  /** Excluding inside the aggregation is aggregating the list filtered beforehand. */
  lemma ExclusionIsPrefilter(
    out: seq<SearchResult>, raw: seq<EngineResult>, terms: seq<string>, canon: string -> string)
    ensures IsAggregate(out, Kept(raw, terms), canon) <==> IsAggregate(out, Kept(Kept(raw, terms), []), canon)
  {
    KeptAll(Kept(raw, terms));
  }

  lemma {:induction false} SumOfFilter(p: EngineResult -> bool, g: seq<EngineResult>)
    ensures Sum(Contribution, Filter(p, g)) <= Sum(Contribution, g)
  {
    if g != [] {
      SumOfFilter(p, g[1..]);
      SumConcat(Contribution, if p(g[0]) then [g[0]] else [], Filter(p, g[1..]));
    }
  }

  lemma {:induction false} FilterCommutes(p: EngineResult -> bool, q: EngineResult -> bool, s: seq<EngineResult>)
    ensures Filter(p, Filter(q, s)) == Filter(q, Filter(p, s))
  {
    if s != [] {
      FilterCommutes(p, q, s[1..]);
      var fp, fq := Filter(p, s[1..]), Filter(q, s[1..]);
      FilterCons(p, s[0], fq);
      FilterCons(q, s[0], fp);
      assert Filter(p, s) == if p(s[0]) then [s[0]] + fp else fp;
      assert Filter(q, s) == if q(s[0]) then [s[0]] + fq else fq;
    }
  }

  /** More excluded terms never add a card and never raise the score of a canonical URL. */
  lemma MoreTermsNeverHelp(
    raw: seq<EngineResult>, terms: seq<string>, more: seq<string>, canon: string -> string, c: string)
    requires forall t :: t in terms ==> t in more
    requires c in Merge(Kept(raw, more), canon)
    ensures c in Merge(Kept(raw, terms), canon)
    ensures Merge(Kept(raw, more), canon)[c].score <= Merge(Kept(raw, terms), canon)[c].score
  {
    KeptTwice(raw, terms, more);
    var items := Kept(raw, terms);
    MergeMeetsGroups(items, c, canon);
    MergeMeetsGroups(Kept(items, more), c, canon);
    FilterCommutes(InGroup(c, canon), Keeps(more), items);
    SumOfFilter(Keeps(more), Group(items, c, canon));
  }

  // ----- what an answer consists of, in terms of the raw results

  /** The result has a URL, and no non-empty term occurs in its folded title or its folded content. */
  ghost predicate Shown(item: EngineResult, terms: seq<string>) {
    item.url != "" && forall t, i :: t in terms && t != "" ==>
      !OccursAt(Lower(item.title), t, i) && !OccursAt(Lower(item.content), t, i)
  }

  /** The shown results of one canonical URL. */
  ghost function ShownAs(c: string, terms: seq<string>, canon: string -> string): EngineResult -> bool {
    (item: EngineResult) => canon(item.url) == c && Shown(item, terms)
  }

  lemma TermHits(item: EngineResult, t: string)
    requires t != ""
    ensures Hits(item, t) <==> exists i :: OccursAt(Lower(item.title), t, i) || OccursAt(Lower(item.content), t, i)
  {
    ContainsMeaning(Lower(item.title), t);
    ContainsMeaning(Lower(item.content), t);
  }

  lemma ShownIffKept(item: EngineResult, terms: seq<string>)
    ensures Shown(item, terms) <==> Keeps(terms)(item)
  {
    if Shown(item, terms) {
      forall j | 0 <= j < |terms| ensures !Hits(item, terms[j]) {
        if terms[j] != "" {
          TermHits(item, terms[j]);
        }
      }
    }
    if Keeps(terms)(item) {
      forall t, i: nat | t in terms && t != ""
        ensures !OccursAt(Lower(item.title), t, i) && !OccursAt(Lower(item.content), t, i)
      {
        var j :| 0 <= j < |terms| && terms[j] == t;
        TermHits(item, t);
        assert !Hits(item, terms[j]);
      }
    }
  }

  lemma {:induction false} GroupOfKept(raw: seq<EngineResult>, terms: seq<string>, canon: string -> string, c: string)
    ensures Group(Kept(raw, terms), c, canon) == Filter(ShownAs(c, terms, canon), raw)
  {
    if raw != [] {
      GroupOfKept(raw[1..], terms, canon, c);
      ShownIffKept(raw[0], terms);
      FilterConcat(InGroup(c, canon), if Keeps(terms)(raw[0]) then [raw[0]] else [], Kept(raw[1..], terms));
    }
  }

  /** The canonical URLs of the cards. */
  function CardUrls(out: seq<SearchResult>, canon: string -> string): seq<string> {
    Map((card: SearchResult) => canon(card.url), out)
  }

  ghost predicate SomeShown(raw: seq<EngineResult>, terms: seq<string>, canon: string -> string, c: string) {
    exists k :: 0 <= k < |raw| && canon(raw[k].url) == c && Shown(raw[k], terms)
  }

  /** What an answer says about the raw results: no two cards are for one canonical URL; there is a card
      for a canonical URL if and only if some result of it is shown; and the score of a card is the sum
      of the contributions of the shown results of its canonical URL. */
  ghost predicate Accounts(
    out: seq<SearchResult>, raw: seq<EngineResult>, terms: seq<string>, canon: string -> string)
  {
    && Distinct(CardUrls(out, canon))
    && (forall c :: c in CardUrls(out, canon) <==> SomeShown(raw, terms, canon, c))
    && forall i :: 0 <= i < |out| ==>
         out[i].score == Sum(Contribution, Filter(ShownAs(canon(out[i].url), terms, canon), raw))
  }

  /** The canonical URLs of the shown results. */
  ghost function ShownUrls(raw: seq<EngineResult>, terms: seq<string>, canon: string -> string): set<string> {
    set k | 0 <= k < |raw| && Shown(raw[k], terms) :: canon(raw[k].url)
  }

  lemma CardHasItsUrl(items: seq<EngineResult>, c: string, canon: string -> string)
    requires c in Merge(items, canon)
    ensures canon(Merge(items, canon)[c].url) == c
    ensures Merge(items, canon)[c].score == Sum(Contribution, Group(items, c, canon))
  {
    MergeMeetsGroups(items, c, canon);
    var g := Group(items, c, canon);
    assert g[0] in g;
  }

  lemma UrlsOfCards(items: seq<EngineResult>, canon: string -> string, keys: seq<string>)
    requires Enumerates(keys, Merge(items, canon))
    ensures CardUrls(Map(CardAt(Merge(items, canon)), keys), canon) == keys
  {
    forall i | 0 <= i < |keys|
      ensures CardUrls(Map(CardAt(Merge(items, canon)), keys), canon)[i] == keys[i]
    {
      assert keys[i] in keys;
      CardHasItsUrl(items, keys[i], canon);
    }
  }

  /** The cards of an answer have the canonical URLs of the merge, each once. */
  lemma AnswerUrls(out: seq<SearchResult>, items: seq<EngineResult>, canon: string -> string)
    requires IsAggregate(out, items, canon)
    ensures Distinct(CardUrls(out, canon))
    ensures forall c :: c in CardUrls(out, canon) <==> c in Merge(items, canon)
  {
    var cards := Merge(items, canon);
    var keys :| Enumerates(keys, cards) && IsRanking(out, Map(CardAt(cards), keys));
    UrlsOfCards(items, canon, keys);
    MapPermutation((card: SearchResult) => canon(card.url), Map(CardAt(cards), keys), out);
    PermutedDistinct(keys, CardUrls(out, canon));
    forall c: string ensures c in CardUrls(out, canon) <==> c in cards {
      assert c in multiset(CardUrls(out, canon)) <==> c in multiset(keys);
    }
  }

  lemma {:induction false} KeptMember(raw: seq<EngineResult>, terms: seq<string>, k: nat)
    requires k < |raw| && Keeps(terms)(raw[k])
    ensures raw[k] in Kept(raw, terms)
  {
    if k > 0 {
      KeptMember(raw[1..], terms, k - 1);
    }
  }

  lemma MergedIffSomeShown(raw: seq<EngineResult>, terms: seq<string>, canon: string -> string, c: string)
    ensures c in Merge(Kept(raw, terms), canon) <==> SomeShown(raw, terms, canon, c)
  {
    var items := Kept(raw, terms);
    MergeKeys(items, c, canon);
    if i :| 0 <= i < |items| && canon(items[i].url) == c {
      assert items[i] in items;
      var k :| 0 <= k < |raw| && raw[k] == items[i];
      ShownIffKept(raw[k], terms);
    }
    if k :| 0 <= k < |raw| && canon(raw[k].url) == c && Shown(raw[k], terms) {
      ShownIffKept(raw[k], terms);
      KeptMember(raw, terms, k);
      var i :| 0 <= i < |items| && items[i] == raw[k];
      assert canon(items[i].url) == c;
    }
  }

  lemma ScoreOfCard(out: seq<SearchResult>, raw: seq<EngineResult>, terms: seq<string>, canon: string -> string, i: nat)
    requires IsAggregate(out, Kept(raw, terms), canon) && i < |out|
    ensures out[i].score == Sum(Contribution, Filter(ShownAs(canon(out[i].url), terms, canon), raw))
  {
    var c := AggregateHasCard(out, Kept(raw, terms), canon, i);
    CardHasItsUrl(Kept(raw, terms), c, canon);
    GroupOfKept(raw, terms, canon, c);
  }

  lemma ShownUrlsMember(raw: seq<EngineResult>, terms: seq<string>, canon: string -> string, c: string)
    ensures c in ShownUrls(raw, terms, canon) <==> SomeShown(raw, terms, canon, c)
  {
  }

  /** Every answer that the aggregation may give accounts for the raw results in this way, with as many
      cards as there are canonical URLs of shown results. */
  lemma AnswerAccounts(
    out: seq<SearchResult>, raw: seq<EngineResult>, terms: seq<string>, canon: string -> string)
    requires IsAggregate(out, Kept(raw, terms), canon)
    ensures Accounts(out, raw, terms, canon)
    ensures |out| == |ShownUrls(raw, terms, canon)|
  {
    AnswerUrls(out, Kept(raw, terms), canon);
    forall i | 0 <= i < |out|
      ensures out[i].score == Sum(Contribution, Filter(ShownAs(canon(out[i].url), terms, canon), raw))
    {
      ScoreOfCard(out, raw, terms, canon, i);
    }
    forall c: string
      ensures c in CardUrls(out, canon) <==> SomeShown(raw, terms, canon, c)
      ensures c in ShownUrls(raw, terms, canon) <==> SomeShown(raw, terms, canon, c)
    {
      MergedIffSomeShown(raw, terms, canon, c);
      ShownUrlsMember(raw, terms, canon, c);
    }
    DistinctSize(CardUrls(out, canon), ShownUrls(raw, terms, canon));
  }
}
