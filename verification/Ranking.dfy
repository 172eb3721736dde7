/** The order of the result cards (scoring/scoring.go): google's cards first, then by score, then by
    title. sort.Slice is known by its contract: the results hold for every sorted permutation. */
module Ranking {
  import opened Seqs
  import opened ByteOrder
  import opened Merging

  predicate HasGoogle(card: SearchResult) {
    "google" in card.engines
  }

  /** The less function given to sort.Slice. */
  predicate Before(a: SearchResult, b: SearchResult) {
    if HasGoogle(a) && !HasGoogle(b) then true
    else if !HasGoogle(a) && HasGoogle(b) then false
    else if a.score == b.score then Less(a.title, b.title)
    else a.score > b.score
  }

  /** Neither card comes before the other. */
  predicate Tied(a: SearchResult, b: SearchResult) {
    !Before(a, b) && !Before(b, a)
  }

  /** Ties are cards that agree on everything the order looks at. */
  lemma TiedMeansSameKey(a: SearchResult, b: SearchResult)
    ensures Tied(a, b) <==> HasGoogle(a) == HasGoogle(b) && a.score == b.score && a.title == b.title
  {
    LessTotal(a.title, b.title);
    LessIrreflexive(a.title);
  }

  /** The order is a strict weak order, which is what sort.Slice asks of it. */
  lemma StrictWeakOrder(a: SearchResult, b: SearchResult, c: SearchResult)
    ensures !Before(a, a)
    ensures !(Before(a, b) && Before(b, a))
    ensures Before(a, b) && Before(b, c) ==> Before(a, c)
    ensures Tied(a, b) && Tied(b, c) ==> Tied(a, c)
  {
    LessIrreflexive(a.title);
    if Less(a.title, b.title) && Less(b.title, a.title) {
      LessTransitive(a.title, b.title, a.title);
    }
    if Less(a.title, b.title) && Less(b.title, c.title) {
      LessTransitive(a.title, b.title, c.title);
    }
    TiedMeansSameKey(a, b);
    TiedMeansSameKey(b, c);
    TiedMeansSameKey(a, c);
  }

  ghost predicate Ranked(out: seq<SearchResult>) {
    forall i, j :: 0 <= i < j < |out| ==> !Before(out[j], out[i])
  }

  ghost predicate IsRanking(out: seq<SearchResult>, cards: seq<SearchResult>) {
    multiset(out) == multiset(cards) && Ranked(out)
  }

  /** Google's cards form a prefix; in each half scores never rise, and equal scores are in title order. */
  lemma RankedShape(out: seq<SearchResult>) returns (n: nat)
    requires Ranked(out)
    ensures n <= |out|
    ensures forall i :: 0 <= i < n ==> "google" in out[i].engines
    ensures forall i :: n <= i < |out| ==> "google" !in out[i].engines
    ensures forall i, j :: (0 <= i < j < n || n <= i < j < |out|) ==>
      out[i].score >= out[j].score && (out[i].score == out[j].score ==> Leq(out[i].title, out[j].title))
  {
    n := 0;
    while n < |out| && HasGoogle(out[n])
      invariant 0 <= n <= |out|
      invariant forall i :: 0 <= i < n ==> HasGoogle(out[i])
    {
      n := n + 1;
    }
    forall i | n <= i < |out| ensures !HasGoogle(out[i]) {
      assert i == n || !Before(out[i], out[n]);
    }
    forall i, j | 0 <= i < j < |out| && HasGoogle(out[i]) == HasGoogle(out[j])
      ensures out[i].score >= out[j].score && (out[i].score == out[j].score ==> Leq(out[i].title, out[j].title))
    {
      assert !Before(out[j], out[i]);
    }
  }

  // ----- uniqueness

  /** Everything the order looks at, and the part of it that does not depend on arrival order. */
  type Key = (bool, real, string)
  type Standing = (bool, real)

  function KeyOf(card: SearchResult): Key {
    (HasGoogle(card), card.score, card.title)
  }

  function StandingOf(card: SearchResult): Standing {
    (HasGoogle(card), card.score)
  }

  predicate StandingLeq(a: Standing, b: Standing) {
    if a.0 == b.0 then a.1 >= b.1 else a.0
  }

  predicate KeyLeq(a: Key, b: Key) {
    if a.0 == b.0 && a.1 == b.1 then Leq(a.2, b.2) else StandingLeq((a.0, a.1), (b.0, b.1))
  }

  lemma KeyLeqAntisymmetric()
    ensures Antisymmetric(KeyLeq) && Antisymmetric(StandingLeq)
  {
    forall a: Key, b: Key | KeyLeq(a, b) && KeyLeq(b, a) ensures a == b {
      LessTotal(a.2, b.2);
    }
  }

  /** Two rankings of the same cards differ only among full ties. */
  lemma RankingsAgreeOnKeys(out: seq<SearchResult>, other: seq<SearchResult>, cards: seq<SearchResult>)
    requires IsRanking(out, cards) && IsRanking(other, cards)
    ensures |out| == |other| && forall i :: 0 <= i < |out| ==> Tied(out[i], other[i])
  {
    var a, b := Map(KeyOf, out), Map(KeyOf, other);
    MapPermutation(KeyOf, out, other);
    forall i, j | 0 <= i < j < |out| ensures KeyLeq(a[i], a[j]) {
      assert !Before(out[j], out[i]);
    }
    forall i, j | 0 <= i < j < |other| ensures KeyLeq(b[i], b[j]) {
      assert !Before(other[j], other[i]);
    }
    KeyLeqAntisymmetric();
    SortedUnique(a, b, KeyLeq);
    forall i | 0 <= i < |out| ensures Tied(out[i], other[i]) {
      assert a[i] == b[i];
      TiedMeansSameKey(out[i], other[i]);
    }
  }

  /** Rankings of cards with the same standings show the same standings in the same order. */
  lemma RankingsAgreeOnStandings(
    out: seq<SearchResult>, cards: seq<SearchResult>, other: seq<SearchResult>, cards2: seq<SearchResult>)
    requires IsRanking(out, cards) && IsRanking(other, cards2)
    requires multiset(Map(StandingOf, cards)) == multiset(Map(StandingOf, cards2))
    ensures Map(StandingOf, out) == Map(StandingOf, other)
  {
    var a, b := Map(StandingOf, out), Map(StandingOf, other);
    MapPermutation(StandingOf, out, cards);
    MapPermutation(StandingOf, other, cards2);
    forall i, j | 0 <= i < j < |out| ensures StandingLeq(a[i], a[j]) {
      assert !Before(out[j], out[i]);
    }
    forall i, j | 0 <= i < j < |other| ensures StandingLeq(b[i], b[j]) {
      assert !Before(other[j], other[i]);
    }
    KeyLeqAntisymmetric();
    SortedUnique(a, b, StandingLeq);
  }

  // ----- some ranking exists

  lemma RankedWithout(out: seq<SearchResult>, card: SearchResult, k: nat)
    requires Ranked(out) && k <= |out|
    requires forall j :: 0 <= j < k ==> !Before(card, out[j])
    requires forall j :: k <= j < |out| ==> !Before(out[j], card)
    ensures Ranked(out[..k] + [card] + out[k..])
  {
    var more := out[..k] + [card] + out[k..];
    forall i, j | 0 <= i < j < |more| ensures !Before(more[j], more[i]) {
      assert i < k ==> more[i] == out[i];
      assert i > k ==> more[i] == out[i - 1];
      assert j < k ==> more[j] == out[j];
      assert j > k ==> more[j] == out[j - 1];
    }
  }

  lemma NotBeforeAfter(out: seq<SearchResult>, card: SearchResult, k: nat, j: nat)
    requires Ranked(out) && k <= j < |out| && Before(card, out[k])
    ensures !Before(out[j], card)
  {
    StrictWeakOrder(out[j], card, out[k]);
    StrictWeakOrder(card, out[k], card);
    assert j == k || !Before(out[j], out[k]);
  }

  lemma InsertKeepsRanked(out: seq<SearchResult>, card: SearchResult, k: nat)
    requires Ranked(out) && k <= |out|
    requires forall j :: 0 <= j < k ==> !Before(card, out[j])
    requires k < |out| ==> Before(card, out[k])
    ensures Ranked(out[..k] + [card] + out[k..])
    ensures multiset(out[..k] + [card] + out[k..]) == multiset(out) + multiset{card}
  {
    assert out == out[..k] + out[k..];
    forall j | k <= j < |out| ensures !Before(out[j], card) {
      NotBeforeAfter(out, card, k, j);
    }
    RankedWithout(out, card, k);
  }

  /** Stands in for sort.Slice. */
  method SortSlice(cards: seq<SearchResult>) returns (out: seq<SearchResult>)
    ensures IsRanking(out, cards)
  {
    out := [];
    for i := 0 to |cards|
      invariant multiset(out) == multiset(cards[..i])
      invariant Ranked(out)
    {
      var card := cards[i];
      var k := 0;
      while k < |out| && !Before(card, out[k])
        invariant 0 <= k <= |out|
        invariant forall j :: 0 <= j < k ==> !Before(card, out[j])
      {
        k := k + 1;
      }
      InsertKeepsRanked(out, card, k);
      assert cards[..i + 1] == cards[..i] + [card];
      out := out[..k] + [card] + out[k..];
    }
    assert cards[..|cards|] == cards;
  }
}
