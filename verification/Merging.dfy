/** Deduplicating raw results (scoring/scoring.go, AggregateAndScore): filtering, the merge step, and
    what the merged cards are. The canonical form of a URL is a parameter. */
module Merging {
  import opened Text
  import opened Seqs

  datatype EngineResult = EngineResult(
    title: string, url: string, content: string, engine: string, category: string, rank: int, weight: real)

  datatype SearchResult = SearchResult(
    title: string, url: string, content: string, score: real, engines: seq<string>, category: string)

  type Cards = map<string, SearchResult>

  function Contribution(item: EngineResult): (c: real)
    ensures c > 0.0
  {
    (if item.weight <= 0.0 then 1.0 else item.weight) / (if item.rank <= 0 then 1.0 else item.rank as real)
  }

  /** The contribution is the weight shared out over the rank, with unusable ranks and weights read as 1. */
  lemma ContributionMeaning(item: EngineResult)
    ensures var weight := if item.weight > 0.0 then item.weight else 1.0;
      var rank := if item.rank > 0 then item.rank else 1;
      Contribution(item) * rank as real == weight
  {
    var rank := if item.rank > 0 then item.rank else 1;
    assert rank as real != 0.0;
  }

  // ----- exclusion

  predicate Hits(item: EngineResult, term: string) {
    term != "" && (Contains(Lower(item.title), term) || Contains(Lower(item.content), term))
  }

  predicate Excluded(item: EngineResult, terms: seq<string>) {
    exists i :: 0 <= i < |terms| && Hits(item, terms[i])
  }

  function Keeps(terms: seq<string>): EngineResult -> bool {
    (item: EngineResult) => item.url != "" && !Excluded(item, terms)
  }

  function Kept(raw: seq<EngineResult>, terms: seq<string>): seq<EngineResult> {
    Filter(Keeps(terms), raw)
  }

  // ----- the merge step

  function Longer(old_: string, new_: string): string {
    if |new_| > |old_| then new_ else old_
  }

  function AppendUnseen(engines: seq<string>, engine: string): seq<string> {
    if engine in engines then engines else engines + [engine]
  }

  function NewCard(item: EngineResult): SearchResult {
    SearchResult(item.title, item.url, item.content, Contribution(item), [item.engine], item.category)
  }

  function Absorb(card: SearchResult, item: EngineResult): SearchResult {
    SearchResult(Longer(card.title, item.title), card.url, Longer(card.content, item.content),
                 card.score + Contribution(item), AppendUnseen(card.engines, item.engine), card.category)
  }

  function AddItem(cards: Cards, item: EngineResult, canon: string -> string): Cards {
    var c := canon(item.url);
    cards[c := if c in cards then Absorb(cards[c], item) else NewCard(item)]
  }

  function Merge(items: seq<EngineResult>, canon: string -> string): Cards {
    if items == [] then map[]
    else AddItem(Merge(items[..|items| - 1], canon), items[|items| - 1], canon)
  }

  lemma MergeAppend(items: seq<EngineResult>, item: EngineResult, canon: string -> string)
    ensures Merge(items + [item], canon) == AddItem(Merge(items, canon), item, canon)
  {
    assert (items + [item])[..|items|] == items;
  }

  // ----- what a card is: a reference definition by groups

  function InGroup(c: string, canon: string -> string): EngineResult -> bool {
    (item: EngineResult) => canon(item.url) == c
  }

  function Group(items: seq<EngineResult>, c: string, canon: string -> string): seq<EngineResult> {
    Filter(InGroup(c, canon), items)
  }

  function FirstIndex<T(==)>(s: seq<T>, x: T): (k: nat)
    requires x in s
    ensures k < |s| && s[k] == x && x !in s[..k]
  {
    if s[0] == x then 0 else 1 + FirstIndex(s[1..], x)
  }

  /** Without repetition, the same elements, in the order in which they first occur. */
  ghost predicate FirstAppearances(engines: seq<string>, all: seq<string>) {
    && Distinct(engines)
    && (forall e :: e in engines <==> e in all)
    && forall i, j :: 0 <= i < j < |engines| ==> FirstIndex(all, engines[i]) < FirstIndex(all, engines[j])
  }

  /** The first of the longest texts. */
  ghost predicate EarliestLongest(text: string, all: seq<string>) {
    exists k :: 0 <= k < |all| && all[k] == text
      && (forall i :: 0 <= i < |all| ==> |all[i]| <= |text|)
      && (forall i :: 0 <= i < k ==> |all[i]| < |text|)
  }

  function Titles(g: seq<EngineResult>): seq<string> {
    Map((item: EngineResult) => item.title, g)
  }

  function Contents(g: seq<EngineResult>): seq<string> {
    Map((item: EngineResult) => item.content, g)
  }

  function Engines(g: seq<EngineResult>): seq<string> {
    Map((item: EngineResult) => item.engine, g)
  }

  ghost predicate IsCardOf(card: SearchResult, g: seq<EngineResult>) {
    && g != []
    && card.score == Sum(Contribution, g)
    && card.url == g[0].url
    && card.category == g[0].category
    && FirstAppearances(card.engines, Engines(g))
    && EarliestLongest(card.title, Titles(g))
    && EarliestLongest(card.content, Contents(g))
  }

  lemma LongerIsEarliestLongest(text: string, all: seq<string>, new_: string)
    requires EarliestLongest(text, all)
    ensures EarliestLongest(Longer(text, new_), all + [new_])
  {
    var more := all + [new_];
    var k :| 0 <= k < |all| && all[k] == text
      && (forall i :: 0 <= i < |all| ==> |all[i]| <= |text|)
      && (forall i :: 0 <= i < k ==> |all[i]| < |text|);
    if |new_| > |text| {
      assert more[|all|] == new_;
      forall i | 0 <= i < |more| - 1 ensures |more[i]| < |new_| {
        assert more[i] == all[i];
      }
    } else {
      assert more[k] == text;
      forall i | 0 <= i < k ensures |more[i]| < |text| {
        assert more[i] == all[i];
      }
    }
  }

  lemma {:induction false} FirstIndexAppend(s: seq<string>, x: string, y: string)
    requires x in s
    ensures FirstIndex(s + [y], x) == FirstIndex(s, x)
  {
    if s[0] != x {
      assert (s + [y])[1..] == s[1..] + [y];
      FirstIndexAppend(s[1..], x, y);
    }
  }

  lemma {:induction false} FirstIndexOfNew(s: seq<string>, y: string)
    requires y !in s
    ensures FirstIndex(s + [y], y) == |s|
  {
    if s != [] {
      assert (s + [y])[1..] == s[1..] + [y];
      FirstIndexOfNew(s[1..], y);
    }
  }

  lemma AppendUnseenIsFirstAppearances(engines: seq<string>, all: seq<string>, e: string)
    requires FirstAppearances(engines, all)
    ensures FirstAppearances(AppendUnseen(engines, e), all + [e])
  {
    var more := AppendUnseen(engines, e);
    forall i, j | 0 <= i < j < |more|
      ensures FirstIndex(all + [e], more[i]) < FirstIndex(all + [e], more[j])
    {
      assert more[i] == engines[i] && engines[i] in all;
      FirstIndexAppend(all, more[i], e);
      if j < |engines| {
        assert more[j] == engines[j] && engines[j] in all;
        FirstIndexAppend(all, more[j], e);
      } else {
        FirstIndexOfNew(all, e);
      }
    }
  }

  lemma AbsorbExtendsGroup(card: SearchResult, g: seq<EngineResult>, item: EngineResult)
    requires IsCardOf(card, g)
    ensures IsCardOf(Absorb(card, item), g + [item])
  {
    SumConcat(Contribution, g, [item]);
    assert Titles(g + [item]) == Titles(g) + [item.title];
    assert Contents(g + [item]) == Contents(g) + [item.content];
    assert Engines(g + [item]) == Engines(g) + [item.engine];
    LongerIsEarliestLongest(card.title, Titles(g), item.title);
    LongerIsEarliestLongest(card.content, Contents(g), item.content);
    AppendUnseenIsFirstAppearances(card.engines, Engines(g), item.engine);
  }

  lemma NewCardStartsGroup(item: EngineResult)
    ensures IsCardOf(NewCard(item), [item])
  {
    assert Titles([item])[0] == item.title && Contents([item])[0] == item.content;
    assert Engines([item]) == [item.engine];
  }

  lemma GroupAppend(items: seq<EngineResult>, item: EngineResult, c: string, canon: string -> string)
    ensures Group(items + [item], c, canon) == Group(items, c, canon) + (if canon(item.url) == c then [item] else [])
  {
    FilterConcat(InGroup(c, canon), items, [item]);
  }

  /** What the merge knows about canonical URL c. */
  ghost predicate CardMeetsGroup(cards: Cards, c: string, g: seq<EngineResult>) {
    (c in cards <==> g != []) && (c in cards ==> IsCardOf(cards[c], g))
  }

  lemma AddItemMeetsGroup(cards: Cards, c: string, g: seq<EngineResult>, item: EngineResult, canon: string -> string)
    requires CardMeetsGroup(cards, c, g)
    ensures CardMeetsGroup(AddItem(cards, item, canon), c, g + (if canon(item.url) == c then [item] else []))
  {
    if canon(item.url) == c {
      if c in cards {
        AbsorbExtendsGroup(cards[c], g, item);
      } else {
        NewCardStartsGroup(item);
        assert g + [item] == [item];
      }
    } else {
      assert g + [] == g;
    }
  }

  /** The merge loop builds one card for each canonical URL, and each card is its group's. */
  lemma {:induction false} MergeMeetsGroups(items: seq<EngineResult>, c: string, canon: string -> string)
    ensures CardMeetsGroup(Merge(items, canon), c, Group(items, c, canon))
  {
    if items != [] {
      var n := |items| - 1;
      MergeMeetsGroups(items[..n], c, canon);
      GroupAppend(items[..n], items[n], c, canon);
      assert items == items[..n] + [items[n]];
      AddItemMeetsGroup(Merge(items[..n], canon), c, Group(items[..n], c, canon), items[n], canon);
    }
  }

  /** The canonical URLs of the cards are those of the items. */
  lemma {:induction false} MergeKeys(items: seq<EngineResult>, c: string, canon: string -> string)
    ensures c in Merge(items, canon) <==> exists i :: 0 <= i < |items| && canon(items[i].url) == c
  {
    if items != [] {
      var n := |items| - 1;
      MergeKeys(items[..n], c, canon);
      if c in Merge(items[..n], canon) {
        var i :| 0 <= i < n && canon(items[..n][i].url) == c;
        assert items[i] == items[..n][i];
      }
      if i :| 0 <= i < |items| && canon(items[i].url) == c {
        if i < n {
          assert items[..n][i] == items[i];
        }
      }
    }
  }

  // ----- conservation

  function ScoreIn(cards: Cards): string -> real {
    c => if c in cards then cards[c].score else 0.0
  }

  lemma {:induction false} SumAgrees(f: string -> real, g: string -> real, keys: seq<string>)
    requires forall k :: k in keys ==> f(k) == g(k)
    ensures Sum(f, keys) == Sum(g, keys)
  {
    if keys != [] {
      SumAgrees(f, g, keys[1..]);
    }
  }

  lemma {:induction false} SumBump(f: string -> real, g: string -> real, keys: seq<string>, c: string)
    requires Distinct(keys) && c in keys
    requires forall k :: k in keys && k != c ==> g(k) == f(k)
    ensures Sum(g, keys) == Sum(f, keys) + g(c) - f(c)
  {
    if keys[0] == c {
      SumAgrees(f, g, keys[1..]);
    } else {
      SumBump(f, g, keys[1..], c);
    }
  }

  lemma AddItemScore(cards: Cards, item: EngineResult, canon: string -> string, keys: seq<string>)
    requires Distinct(keys) && canon(item.url) in keys
    ensures Sum(ScoreIn(AddItem(cards, item, canon)), keys) == Sum(ScoreIn(cards), keys) + Contribution(item)
  {
    SumBump(ScoreIn(cards), ScoreIn(AddItem(cards, item, canon)), keys, canon(item.url));
  }

  lemma {:induction false} SumZero(f: string -> real, keys: seq<string>)
    requires forall k :: f(k) == 0.0
    ensures Sum(f, keys) == 0.0
  {
    if keys != [] {
      SumZero(f, keys[1..]);
    }
  }

  /** Merging moves score around but neither makes nor loses any. */
  lemma {:induction false} ScoreIsConserved(items: seq<EngineResult>, canon: string -> string, keys: seq<string>)
    requires Distinct(keys) && forall c :: c in Merge(items, canon) ==> c in keys
    ensures Sum(ScoreIn(Merge(items, canon)), keys) == Sum(Contribution, items)
  {
    if items == [] {
      assert forall k :: ScoreIn(map[])(k) == 0.0;
      SumZero(ScoreIn(map[]), keys);
    } else {
      var n := |items| - 1;
      var rest, item := items[..n], items[n];
      assert canon(item.url) in Merge(items, canon);
      ScoreIsConserved(rest, canon, keys);
      AddItemScore(Merge(rest, canon), item, canon, keys);
      assert items == rest + [item];
      SumConcat(Contribution, rest, [item]);
    }
  }

  // ----- merging is a monoid homomorphism

  function AppendAllUnseen(engines: seq<string>, more: seq<string>): seq<string> {
    if more == [] then engines
    else AppendUnseen(AppendAllUnseen(engines, more[..|more| - 1]), more[|more| - 1])
  }

  function CombineCards(a: SearchResult, b: SearchResult): SearchResult {
    SearchResult(Longer(a.title, b.title), a.url, Longer(a.content, b.content), a.score + b.score,
                 AppendAllUnseen(a.engines, b.engines), a.category)
  }

  function Combine(a: Cards, b: Cards): Cards {
    map c | c in a.Keys + b.Keys ::
      if c in a && c in b then CombineCards(a[c], b[c]) else if c in a then a[c] else b[c]
  }

  lemma {:induction false} UnseenMembers(engines: seq<string>, more: seq<string>, e: string)
    ensures e in AppendAllUnseen(engines, more) <==> e in engines || e in more
  {
    if more != [] {
      UnseenMembers(engines, more[..|more| - 1], e);
      assert more == more[..|more| - 1] + [more[|more| - 1]];
    }
  }

  lemma UnseenStep(engines: seq<string>, more: seq<string>, e: string)
    ensures AppendAllUnseen(engines, AppendUnseen(more, e)) == AppendUnseen(AppendAllUnseen(engines, more), e)
  {
    if e in more {
      UnseenMembers(engines, more, e);
    } else {
      assert (more + [e])[..|more|] == more;
    }
  }

  lemma {:induction false} UnseenAssociative(x: seq<string>, y: seq<string>, z: seq<string>)
    ensures AppendAllUnseen(AppendAllUnseen(x, y), z) == AppendAllUnseen(x, AppendAllUnseen(y, z))
  {
    if z != [] {
      UnseenAssociative(x, y, z[..|z| - 1]);
      UnseenStep(x, AppendAllUnseen(y, z[..|z| - 1]), z[|z| - 1]);
    }
  }

  lemma AbsorbIntoSecond(a: SearchResult, b: SearchResult, item: EngineResult)
    ensures Absorb(CombineCards(a, b), item) == CombineCards(a, Absorb(b, item))
  {
    UnseenStep(a.engines, b.engines, item.engine);
  }

  lemma AbsorbAsCard(a: SearchResult, item: EngineResult)
    ensures Absorb(a, item) == CombineCards(a, NewCard(item))
  {
    assert AppendAllUnseen(a.engines, [item.engine])
        == AppendUnseen(AppendAllUnseen(a.engines, [item.engine][..0]), item.engine);
  }

  lemma AddItemToSecond(a: Cards, b: Cards, item: EngineResult, canon: string -> string)
    ensures AddItem(Combine(a, b), item, canon) == Combine(a, AddItem(b, item, canon))
  {
    var c := canon(item.url);
    if c in a && c in b {
      AbsorbIntoSecond(a[c], b[c], item);
    } else if c in a {
      AbsorbAsCard(a[c], item);
    }
  }

  /** The cards of a concatenation are the combined cards of its parts. */
  lemma {:induction false} MergeIsHomomorphism(a: seq<EngineResult>, b: seq<EngineResult>, canon: string -> string)
    ensures Merge(a + b, canon) == Combine(Merge(a, canon), Merge(b, canon))
    decreases |b|
  {
    if b == [] {
      assert a + b == a;
    } else {
      var n := |b| - 1;
      var rest, item := b[..n], b[n];
      MergeIsHomomorphism(a, rest, canon);
      assert a + b == (a + rest) + [item];
      MergeAppend(a + rest, item, canon);
      AddItemToSecond(Merge(a, canon), Merge(rest, canon), item, canon);
    }
  }

  lemma CombineCardsAssociative(x: SearchResult, y: SearchResult, z: SearchResult)
    ensures CombineCards(CombineCards(x, y), z) == CombineCards(x, CombineCards(y, z))
  {
    UnseenAssociative(x.engines, y.engines, z.engines);
  }

  lemma CombineTwice(a: Cards, b: Cards, d: Cards, l: Cards, r: Cards)
    requires l == Combine(Combine(a, b), d) && r == Combine(a, Combine(b, d))
    requires forall c :: c in a && c in b && c in d ==>
      CombineCards(CombineCards(a[c], b[c]), d[c]) == CombineCards(a[c], CombineCards(b[c], d[c]))
    ensures l == r
  {
    assert l.Keys == r.Keys;
  }

  /** Combining is associative, with the empty map as its unit. */
  lemma CombineIsMonoid(a: Cards, b: Cards, d: Cards)
    ensures Combine(Combine(a, b), d) == Combine(a, Combine(b, d))
    ensures Combine(a, map[]) == a == Combine(map[], a)
  {
    var ab, bd := Combine(a, b), Combine(b, d);
    var l, r := Combine(ab, d), Combine(a, bd);
    forall c | c in a && c in b && c in d
      ensures CombineCards(CombineCards(a[c], b[c]), d[c]) == CombineCards(a[c], CombineCards(b[c], d[c]))
    {
      CombineCardsAssociative(a[c], b[c], d[c]);
    }
    CombineTwice(a, b, d, l, r);
  }

  // ----- what does not depend on the order of the items

  /** Two cards with the same score, source engines and lengths of title and content. */
  ghost predicate SameSummary(a: SearchResult, b: SearchResult) {
    && a.score == b.score
    && (forall e :: e in a.engines <==> e in b.engines)
    && |a.title| == |b.title|
    && |a.content| == |b.content|
  }

  lemma LongestLength(s: string, a: seq<string>, t: string, b: seq<string>)
    requires EarliestLongest(s, a) && EarliestLongest(t, b) && multiset(a) == multiset(b)
    ensures |s| == |t|
  {
    var k :| 0 <= k < |a| && a[k] == s;
    assert a[k] in multiset(b);
    var i :| 0 <= i < |b| && b[i] == s;
    var l :| 0 <= l < |b| && b[l] == t;
    assert b[l] in multiset(a);
    var j :| 0 <= j < |a| && a[j] == t;
  }

  lemma SameGroupSameSummary(x: SearchResult, g: seq<EngineResult>, y: SearchResult, h: seq<EngineResult>)
    requires IsCardOf(x, g) && IsCardOf(y, h) && multiset(g) == multiset(h)
    ensures SameSummary(x, y)
  {
    SumPermutation(Contribution, g, h);
    MapPermutation((item: EngineResult) => item.title, g, h);
    MapPermutation((item: EngineResult) => item.content, g, h);
    MapPermutation((item: EngineResult) => item.engine, g, h);
    LongestLength(x.title, Titles(g), y.title, Titles(h));
    LongestLength(x.content, Contents(g), y.content, Contents(h));
    forall e ensures e in Engines(g) <==> e in Engines(h) {
      assert e in multiset(Engines(g)) <==> e in multiset(Engines(h));
    }
  }

  /** Reordering the items leaves the canonical URLs and the summary of every card as they are. */
  lemma MergeIgnoresOrder(a: seq<EngineResult>, b: seq<EngineResult>, canon: string -> string)
    requires multiset(a) == multiset(b)
    ensures Merge(a, canon).Keys == Merge(b, canon).Keys
    ensures forall c :: c in Merge(a, canon) ==> SameSummary(Merge(a, canon)[c], Merge(b, canon)[c])
  {
    forall c: string
      ensures c in Merge(a, canon) <==> c in Merge(b, canon)
      ensures c in Merge(a, canon) && c in Merge(b, canon) ==> SameSummary(Merge(a, canon)[c], Merge(b, canon)[c])
    {
      var ga, gb := Group(a, c, canon), Group(b, c, canon);
      MergeMeetsGroups(a, c, canon);
      MergeMeetsGroups(b, c, canon);
      FilterPermutation(InGroup(c, canon), a, b);
      SameLength(ga, gb);
      if c in Merge(a, canon) {
        SameGroupSameSummary(Merge(a, canon)[c], ga, Merge(b, canon)[c], gb);
      }
    }
  }
}
