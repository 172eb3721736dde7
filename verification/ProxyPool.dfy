/** The proxy rotator and the failover transport (proxy/proxy.go). Proxies are known by their
    position in the pool. */
module ProxyPool {

  /** The range of the atomic uint64 counter. */
  const WRAP: nat := 0x1_0000_0000_0000_0000

  /** The pick of the t-th call, counting from 0: the counter before its increment, reduced. */
  function Pick(t: nat, n: nat): (p: nat)
    requires n > 0
    ensures p < n
  {
    t % WRAP % n
  }

  // ----- fairness

  lemma CounterStep(t: nat)
    ensures (t % WRAP + 1) % WRAP == (t + 1) % WRAP
  {
  }

  /** The picks of the first t increments, in their order. */
  function HandedOut(t: nat, n: nat): (r: seq<nat>)
    requires n > 0
    ensures |r| == t
  {
    if t == 0 then [] else HandedOut(t - 1, n) + [Pick(t - 1, n)]
  }

  function Count(picks: seq<nat>, p: nat): nat {
    if picks == [] then 0 else Count(picks[..|picks| - 1], p) + (if picks[|picks| - 1] == p then 1 else 0)
  }

  lemma MulAtLeast(d: int, n: nat)
    requires d >= 1
    ensures d * n >= n
  {
    assert (d - 1) * n >= 0;
  }

  lemma Distribute(a: int, b: int, n: int)
    ensures (a - b) * n == a * n - b * n && (b - a) * n == b * n - a * n
  {
  }

  lemma UniqueQuotient(a: int, s: nat, q: int, r: nat, n: nat)
    requires s < n && r < n && a * n + s == q * n + r
    ensures a == q && s == r
  {
    Distribute(a, q, n);
    if a > q {
      MulAtLeast(a - q, n);
      assert false;
    } else if q > a {
      MulAtLeast(q - a, n);
      assert false;
    }
  }

  lemma DivMod(x: int, n: nat, q: int, r: nat)
    requires n > 0 && r < n && x == q * n + r
    ensures x / n == q && x % n == r
  {
    assert x == x / n * n + x % n;
    UniqueQuotient(x / n, x % n, q, r, n);
  }

  lemma NextMultiple(q: int, n: int)
    ensures (q + 1) * n == q * n + n
  {
  }

  lemma DivStep(t: nat, n: nat, j: nat)
    requires j < n
    ensures (t + 1 + n - 1 - j) / n == (t + n - 1 - j) / n + (if t % n == j then 1 else 0)
  {
    var q, r := t / n, t % n;
    assert t == q * n + r;
    NextMultiple(q, n);
    if r > j {
      DivMod(t + n - 1 - j, n, q + 1, r - 1 - j);
      DivMod(t + n - j, n, q + 1, r - j);
    } else if r == j {
      DivMod(t + n - 1 - j, n, q, n - 1);
      DivMod(t + n - j, n, q + 1, 0);
    } else {
      DivMod(t + n - 1 - j, n, q, r + n - 1 - j);
      DivMod(t + n - j, n, q, r + n - j);
    }
  }

  lemma CountAppend(picks: seq<nat>, x: nat, p: nat)
    ensures Count(picks + [x], p) == Count(picks, p) + (if x == p then 1 else 0)
  {
    assert (picks + [x])[..|picks|] == picks;
  }

  lemma PickBeforeWrap(t: nat, n: nat)
    requires n > 0 && t < WRAP
    ensures Pick(t, n) == t % n
  {
    assert t % WRAP == t;
  }

  /** Until the counter wraps, each proxy gets its exact share of the increments. */
  lemma {:induction false} SharesInOrder(t: nat, n: nat, j: nat)
    requires j < n && t <= WRAP
    ensures Count(HandedOut(t, n), j) == (t + n - 1 - j) / n
  {
    if t == 0 {
      DivMod(n - 1 - j, n, 0, n - 1 - j);
    } else {
      SharesInOrder(t - 1, n, j);
      DivStep(t - 1, n, j);
      PickBeforeWrap(t - 1, n);
      CountAppend(HandedOut(t - 1, n), (t - 1) % n, j);
    }
  }

  // ----- concurrent calls

  /** A call of GetNext is two steps of its goroutine: the atomic increment, which gives it the new
      counter, and the return with the proxy that this value selects. */
  datatype Event = Add(goroutine: int) | Return(goroutine: int)

  /** The counter, the values held by goroutines between their two steps, what was handed out in the
      order of the returns, and, as history, the number of increments. */
  datatype Traffic = Traffic(index: nat, held: map<int, nat>, handed: seq<nat>, calls: nat)

  /** The position that a counter value selects after an increment. */
  function Selected(value: nat, n: nat): (p: nat)
    requires n > 0
    ensures p < n
  {
    (value + WRAP - 1) % WRAP % n
  }

  predicate Enabled(s: Traffic, e: Event) {
    match e
    case Add(g) => g !in s.held
    case Return(g) => g in s.held
  }

  function Step(s: Traffic, e: Event, n: nat): Traffic
    requires Enabled(s, e) && n > 0
  {
    match e
    case Add(g) =>
      var value := (s.index + 1) % WRAP;
      Traffic(value, s.held[g := value], s.handed, s.calls + 1)
    case Return(g) =>
      s.(held := s.held - {g}, handed := s.handed + [Selected(s.held[g], n)])
  }

  predicate ValidSchedule(s: Traffic, schedule: seq<Event>, n: nat)
    requires n > 0
    decreases |schedule|
  {
    schedule == [] || (Enabled(s, schedule[0]) && ValidSchedule(Step(s, schedule[0], n), schedule[1..], n))
  }

  function Run(s: Traffic, schedule: seq<Event>, n: nat): Traffic
    requires n > 0 && ValidSchedule(s, schedule, n)
    decreases |schedule|
  {
    if schedule == [] then s else Run(Step(s, schedule[0], n), schedule[1..], n)
  }

  /** The goroutines that are about to return proxy j. */
  function Holding(held: map<int, nat>, n: nat, j: nat): set<int>
    requires n > 0
  {
    set g | g in held && Selected(held[g], n) == j
  }

  predicate BalancedOn(s: Traffic, n: nat, j: nat)
    requires n > 0
  {
    Count(s.handed, j) + |Holding(s.held, n, j)| == Count(HandedOut(s.calls, n), j)
  }

  /** Every increment has handed out its pick or is about to. */
  ghost predicate Balanced(s: Traffic, n: nat)
    requires n > 0
  {
    && s.index == s.calls % WRAP
    && |s.handed| + |s.held| == s.calls
    && forall j: nat :: BalancedOn(s, n, j)
  }

  lemma DecrementUndoes(r: nat)
    requires r < WRAP
    ensures ((r + 1) % WRAP + WRAP - 1) % WRAP == r
  {
    if r + 1 == WRAP {
      assert (r + 1) % WRAP == 0;
    } else {
      assert (r + 1) % WRAP == r + 1;
    }
  }

  lemma SelectedIsPick(t: nat, n: nat)
    requires n > 0
    ensures Selected((t + 1) % WRAP, n) == Pick(t, n)
  {
    CounterStep(t);
    DecrementUndoes(t % WRAP);
  }

  lemma HoldingMore(held: map<int, nat>, g: int, value: nat, n: nat, j: nat)
    requires n > 0 && g !in held
    ensures |Holding(held[g := value], n, j)| == |Holding(held, n, j)| + (if Selected(value, n) == j then 1 else 0)
  {
    assert Holding(held[g := value], n, j) == Holding(held, n, j) + (if Selected(value, n) == j then {g} else {});
  }

  lemma HoldingLess(held: map<int, nat>, g: int, n: nat, j: nat)
    requires n > 0 && g in held
    ensures |Holding(held - {g}, n, j)| == |Holding(held, n, j)| - (if Selected(held[g], n) == j then 1 else 0)
  {
    assert Holding(held - {g}, n, j) == Holding(held, n, j) - (if Selected(held[g], n) == j then {g} else {});
  }

  lemma AddBalances(s: Traffic, g: int, value: nat, n: nat, j: nat)
    requires n > 0 && g !in s.held && BalancedOn(s, n, j) && Selected(value, n) == Pick(s.calls, n)
    ensures BalancedOn(Traffic(value, s.held[g := value], s.handed, s.calls + 1), n, j)
  {
    HoldingMore(s.held, g, value, n, j);
    CountAppend(HandedOut(s.calls, n), Pick(s.calls, n), j);
  }

  lemma AddedTraffic(s: Traffic, g: int, value: nat, n: nat)
    requires n > 0 && Balanced(s, n) && g !in s.held
    requires value == (s.calls + 1) % WRAP && Selected(value, n) == Pick(s.calls, n)
    ensures Balanced(Traffic(value, s.held[g := value], s.handed, s.calls + 1), n)
  {
    var after := Traffic(value, s.held[g := value], s.handed, s.calls + 1);
    assert after.held.Keys == s.held.Keys + {g};
    forall j: nat ensures BalancedOn(after, n, j) {
      assert BalancedOn(s, n, j);
      AddBalances(s, g, value, n, j);
    }
  }

  lemma AddKeepsBalance(s: Traffic, g: int, n: nat)
    requires n > 0 && Balanced(s, n) && g !in s.held
    ensures Balanced(Step(s, Add(g), n), n)
  {
    CounterStep(s.calls);
    SelectedIsPick(s.calls, n);
    AddedTraffic(s, g, (s.index + 1) % WRAP, n);
  }

  lemma ReturnKeepsBalance(s: Traffic, g: int, n: nat)
    requires n > 0 && Balanced(s, n) && g in s.held
    ensures Balanced(Step(s, Return(g), n), n)
  {
    assert (s.held - {g}).Keys == s.held.Keys - {g};
    forall j: nat ensures BalancedOn(Step(s, Return(g), n), n, j) {
      assert BalancedOn(s, n, j);
      HoldingLess(s.held, g, n, j);
      CountAppend(s.handed, Selected(s.held[g], n), j);
    }
  }

  /** GetNext is the two steps of a goroutine, one after the other. */
  lemma CallIsTwoSteps(s: Traffic, g: int, n: nat)
    requires n > 0 && s.index < WRAP && g !in s.held
    ensures ValidSchedule(s, [Add(g), Return(g)], n)
    ensures Run(s, [Add(g), Return(g)], n)
         == Traffic((s.index + 1) % WRAP, s.held, s.handed + [s.index % n], s.calls + 1)
  {
    var s1 := Step(s, Add(g), n);
    var s2 := Step(s1, Return(g), n);
    assert s1.held - {g} == s.held;
    SelectedIsPick(s.index, n);
    PickBeforeWrap(s.index, n);
    assert [Add(g), Return(g)][1..] == [Return(g)];
    assert [Return(g)][1..] == [] && ValidSchedule(s2, [], n) && Run(s2, [], n) == s2;
    assert ValidSchedule(s1, [Return(g)], n) && Run(s1, [Return(g)], n) == s2;
  }

  lemma {:induction false} RunKeepsBalance(s: Traffic, schedule: seq<Event>, n: nat)
    requires n > 0 && ValidSchedule(s, schedule, n) && Balanced(s, n)
    ensures Balanced(Run(s, schedule, n), n)
    decreases |schedule|
  {
    if schedule != [] {
      match schedule[0] {
        case Add(g) => AddKeepsBalance(s, g, n);
        case Return(g) => ReturnKeepsBalance(s, g, n);
      }
      RunKeepsBalance(Step(s, schedule[0], n), schedule[1..], n);
    }
  }

  /** A new rotator. */
  function Untouched(): Traffic {
    Traffic(0, map[], [], 0)
  }

  /** Under every interleaving of the steps of any goroutines, until the counter wraps, each proxy has
      been handed out, or is about to be, exactly as often as its share of the increments; once all
      calls have returned it has been handed out that often. */
  lemma ExactShares(schedule: seq<Event>, n: nat, j: nat)
    requires j < n && ValidSchedule(Untouched(), schedule, n)
    requires Run(Untouched(), schedule, n).calls <= 18_446_744_073_709_551_616
    ensures var s := Run(Untouched(), schedule, n);
      && Count(s.handed, j) + |Holding(s.held, n, j)| == (s.calls + n - 1 - j) / n
      && (s.held == map[] ==> |s.handed| == s.calls && Count(s.handed, j) == (|s.handed| + n - 1 - j) / n)
  {
    assert forall i: nat :: Holding(map[], n, i) == {};
    assert forall i: nat :: BalancedOn(Untouched(), n, i);
    RunKeepsBalance(Untouched(), schedule, n);
    var s := Run(Untouched(), schedule, n);
    assert BalancedOn(s, n, j);
    SharesInOrder(s.calls, n, j);
    if s.held == map[] {
      assert Holding(s.held, n, j) == {};
    }
  }

  lemma WrapKeepsResidue(t: nat, n: nat)
    requires n > 0 && WRAP % n == 0
    ensures t % WRAP % n == t % n
  {
    var k, m, r := t / WRAP, WRAP / n, t % WRAP;
    assert t == k * WRAP + r && WRAP == m * n;
    assert k * (m * n) == (k * m) * n;
    var q, s := r / n, r % n;
    assert r == q * n + s;
    assert t == (k * m + q) * n + s;
    DivMod(t, n, k * m + q, s);
  }

  /** The wrap goes unnoticed exactly when the pool size divides the range of the counter. */
  lemma RoundRobinForeverIffDivides(n: nat)
    requires n > 0
    ensures (forall t: nat :: Pick(t, n) == t % n) <==> WRAP % n == 0
  {
    if WRAP % n == 0 {
      forall t: nat ensures Pick(t, n) == t % n {
        WrapKeepsResidue(t, n);
      }
    } else {
      assert Pick(WRAP, n) == 0;
    }
  }

  // ----- the transport

  datatype Response = Response(status: int)

  datatype Attempt = Delivered(response: Response) | Failed(error: string)

  datatype FailoverError = BadStatus(status: int, attempt: nat, maxAttempts: nat) | TransportError(error: string)

  datatype Result =
    | Success(response: Response)
    | GaveUp(maxAttempts: nat, last: FailoverError)
    | Direct(attempt: Attempt)

  /** 502, 504 and 503 count as failures of the proxy. */
  predicate Usable(a: Attempt) {
    a.Delivered? && a.response.status != 502 && a.response.status != 504 && a.response.status != 503
  }

  function MaxAttempts(n: nat): nat {
    if n < 3 then n else 3
  }

  function ErrorOf(a: Attempt, attempt: nat, max: nat): FailoverError
    requires !Usable(a)
  {
    if a.Delivered? then BadStatus(a.response.status, attempt, max) else TransportError(a.error)
  }

  /** The picks of k consecutive calls from a counter value. */
  function Picks(start: nat, n: nat, k: nat): (r: seq<nat>)
    requires n > 0
    ensures |r| == k
    ensures forall i :: 0 <= i < k ==> r[i] == Pick(start + i, n)
  {
    if k == 0 then [] else Picks(start, n, k - 1) + [Pick(start + k - 1, n)]
  }

  /** The attempts of a request from a given one on, when pick number k goes to attempt k + 1: the
      result, and the number of attempts made by then. */
  function Attempts(send: (nat, nat) -> Attempt, picks: seq<nat>, attempt: nat): (Result, nat)
    requires 1 <= attempt <= |picks|
    decreases |picks| - attempt
  {
    var a := send(attempt, picks[attempt - 1]);
    if Usable(a) then (Success(a.response), attempt)
    else if attempt == |picks| then (GaveUp(attempt, ErrorOf(a, attempt, attempt)), attempt)
    else Attempts(send, picks, attempt + 1)
  }

  /** The first usable attempt decides; without one the last attempt's failure is reported. */
  lemma {:induction false} FirstUsableDecides(send: (nat, nat) -> Attempt, picks: seq<nat>, attempt: nat)
    requires 1 <= attempt <= |picks|
    ensures var (r, used) := Attempts(send, picks, attempt);
      && attempt <= used <= |picks|
      && (forall k :: attempt - 1 <= k < used - 1 ==> !Usable(send(k + 1, picks[k])))
      && var a := send(used, picks[used - 1]);
         if Usable(a) then r == Success(a.response)
         else used == |picks| && r == GaveUp(used, ErrorOf(a, used, used))
    decreases |picks| - attempt
  {
    if !Usable(send(attempt, picks[attempt - 1])) && attempt < |picks| {
      FirstUsableDecides(send, picks, attempt + 1);
    }
  }

  class Rotator {
    const size: nat
    var index: nat

    ghost predicate Valid()
      reads this
    {
      index < WRAP
    }

    constructor (size: nat)
      ensures Valid() && this.size == size && index == 0
    {
      this.size := size;
      index := 0;
    }

    /** The position of the next proxy; -1 stands for nil. */
    method GetNext() returns (p: int)
      requires Valid()
      modifies this`index
      ensures Valid()
      ensures size == 0 ==> p == -1 && index == old(index)
      ensures size > 0 ==> p == old(index) % size && index == (old(index) + 1) % WRAP
    {
      if size == 0 {
        return -1;
      }
      index := (index + 1) % WRAP;
      p := Selected(index, size);
    }

    /** The pick of an attempt, as call number t of the rotator. */
    method NextAttempt(ghost t: nat) returns (p: nat)
      requires Valid() && size > 0 && index == t % WRAP
      modifies this`index
      ensures Valid() && p == Pick(t, size) && index == (t + 1) % WRAP
    {
      p := GetNext();
      CounterStep(t);
    }

    /** One undisturbed request. The transport asks the rotator for one proxy per attempt; attempt
        k through proxy p has the outcome send(k, p), and direct is the outcome without proxies. */
    method RoundTrip(send: (nat, nat) -> Attempt, direct: Attempt) returns (r: Result)
      requires Valid()
      modifies this`index
      ensures Valid()
      ensures size == 0 ==> r == Direct(direct) && index == old(index)
      ensures size > 0 ==>
        var (result, used) := Attempts(send, Picks(old(index), size, MaxAttempts(size)), 1);
        r == result && index == (old(index) + used) % WRAP
    {
      if size == 0 {
        return Direct(direct);
      }
      var maxAttempts := 3;
      if size < maxAttempts {
        maxAttempts := size;
      }
      ghost var start, picks := index, Picks(index, size, maxAttempts);
      var lastErr := TransportError("");
      var attempt := 1;
      while attempt <= maxAttempts
        invariant 1 <= attempt <= maxAttempts + 1
        invariant index == (start + (attempt - 1)) % WRAP
        invariant attempt <= maxAttempts ==> Attempts(send, picks, attempt) == Attempts(send, picks, 1)
        invariant attempt > maxAttempts ==> Attempts(send, picks, 1) == (GaveUp(maxAttempts, lastErr), maxAttempts)
      {
        var p := NextAttempt(start + (attempt - 1));
        assert p == picks[attempt - 1];
        var outcome := send(attempt, p);
        if outcome.Delivered? {
          var status := outcome.response.status;
          if status != 502 && status != 504 && status != 503 {
            return Success(outcome.response);
          }
        }
        lastErr := ErrorOf(outcome, attempt, maxAttempts);
        attempt := attempt + 1;
      }
      return GaveUp(maxAttempts, lastErr);
    }
  }

  /** Calls that do not overlap, served by a new rotator. */
  method Serve(r: Rotator, calls: nat) returns (handed: seq<nat>)
    requires r.Valid() && r.size > 0 && r.index == 0
    modifies r`index
    ensures r.Valid() && handed == HandedOut(calls, r.size) && r.index == calls % WRAP
  {
    handed := [];
    for t := 0 to calls
      invariant r.Valid() && r.index == t % WRAP && handed == HandedOut(t, r.size)
    {
      var p := r.GetNext();
      CounterStep(t);
      handed := handed + [p];
    }
  }

  // ----- failover

  lemma CloseResiduesDiffer(a: nat, b: nat, n: nat)
    requires a < b < a + n
    ensures a % n != b % n
  {
    var q, r := a / n, a % n;
    assert a == q * n + r;
    NextMultiple(q, n);
    if r + (b - a) < n {
      DivMod(b, n, q, r + (b - a));
    } else {
      DivMod(b, n, q + 1, r + (b - a) - n);
    }
  }

  /** Consecutive picks before the wrap, no more than there are proxies, are all different. */
  lemma ConsecutivePicksDiffer(start: nat, n: nat, k: nat, l: nat)
    requires n > 0 && k < l < n && start + l < WRAP
    ensures Pick(start + k, n) != Pick(start + l, n)
  {
    PickBeforeWrap(start + k, n);
    PickBeforeWrap(start + l, n);
    CloseResiduesDiffer(start + k, start + l, n);
  }

  lemma {:induction false} TooManyTried(tried: seq<nat>, bad: set<nat>)
    requires forall k, l :: 0 <= k < l < |tried| ==> tried[k] != tried[l]
    requires forall k :: 0 <= k < |tried| ==> tried[k] in bad
    ensures |tried| <= |bad|
  {
    if tried != [] {
      var rest := bad - {tried[0]};
      TooManyTried(tried[1..], rest);
    }
  }

  /** With at most min(3, n) - 1 bad proxies, one of the picks of an undisturbed request before the
      wrap falls on another proxy. */
  lemma SomePickAvoidsBad(start: nat, n: nat, bad: set<nat>) returns (k: nat)
    requires n > 0 && start + MaxAttempts(n) <= WRAP && |bad| < MaxAttempts(n)
    ensures k < MaxAttempts(n) && Pick(start + k, n) !in bad
  {
    var picks := Picks(start, n, MaxAttempts(n));
    forall i, j | 0 <= i < j < |picks| ensures picks[i] != picks[j] {
      ConsecutivePicksDiffer(start, n, i, j);
    }
    if forall i :: 0 <= i < |picks| ==> picks[i] in bad {
      TooManyTried(picks, bad);
    }
    k :| 0 <= k < |picks| && picks[k] !in bad;
  }

  /** Hence the attempts of such a request end in success. */
  lemma AttemptsSurvive(send: (nat, nat) -> Attempt, start: nat, n: nat, bad: set<nat>)
    requires n > 0 && start + MaxAttempts(n) <= WRAP && |bad| < MaxAttempts(n)
    requires forall k: nat, p: nat :: p < n && p !in bad ==> Usable(send(k, p))
    ensures Attempts(send, Picks(start, n, MaxAttempts(n)), 1).0.Success?
  {
    var k := SomePickAvoidsBad(start, n, bad);
    var picks := Picks(start, n, MaxAttempts(n));
    assert Usable(send(k + 1, picks[k]));
    FirstUsableDecides(send, picks, 1);
  }

  ghost predicate GoodUsable(send: (nat, nat) -> Attempt, n: nat, bad: set<nat>) {
    forall k: nat, p: nat :: p < n && p !in bad ==> Usable(send(k, p))
  }

  /** Every undisturbed request before the wrap succeeds, whichever m proxies of the pool are bad and
      however they fail. */
  ghost predicate Survives(n: nat, m: nat)
    requires n > 0
  {
    forall send: (nat, nat) -> Attempt, start: nat, bad: set<nat> ::
      start + MaxAttempts(n) <= WRAP && |bad| <= m && GoodUsable(send, n, bad) ==>
        Attempts(send, Picks(start, n, MaxAttempts(n)), 1).0.Success?
  }

  /** The first proxies of the pool, as many as there are attempts, fail. */
  function FailingBelow(limit: nat): (nat, nat) -> Attempt {
    (k: nat, p: nat) => if p < limit then Failed("") else Delivered(Response(200))
  }

  function Below(n: nat): (r: set<nat>)
    ensures forall i: nat :: i in r <==> i < n
    ensures |r| == n
  {
    if n == 0 then {} else Below(n - 1) + {n - 1}
  }

  lemma AllAttemptsFail(n: nat)
    requires n > 0
    ensures !Attempts(FailingBelow(MaxAttempts(n)), Picks(0, n, MaxAttempts(n)), 1).0.Success?
  {
    var max := MaxAttempts(n);
    var picks := Picks(0, n, max);
    forall i | 0 <= i < max ensures picks[i] == i {
      PickBeforeWrap(i, n);
    }
    FirstUsableDecides(FailingBelow(max), picks, 1);
  }

  /** The bound is exact: m bad proxies can never fail such a request if and only if m is smaller than
      the number of attempts, min(3, n). */
  lemma SurvivesIffFewerThanAttempts(n: nat, m: nat)
    requires n > 0
    ensures Survives(n, m) <==> m < n && m < 3
  {
    if m < MaxAttempts(n) {
      forall send: (nat, nat) -> Attempt, start: nat, bad: set<nat>
        | start + MaxAttempts(n) <= WRAP && |bad| <= m && GoodUsable(send, n, bad)
        ensures Attempts(send, Picks(start, n, MaxAttempts(n)), 1).0.Success?
      {
        AttemptsSurvive(send, start, n, bad);
      }
    } else {
      AllAttemptsFail(n);
      var send, bad := FailingBelow(MaxAttempts(n)), Below(MaxAttempts(n));
      assert GoodUsable(send, n, bad);
      assert !Attempts(send, Picks(0, n, MaxAttempts(n)), 1).0.Success?;
    }
  }

  method RoundTripSurvives(r: Rotator, send: (nat, nat) -> Attempt, direct: Attempt, ghost bad: set<nat>)
    returns (result: Result)
    requires r.Valid() && r.size > 0 && r.index + MaxAttempts(r.size) <= WRAP
    requires |bad| < MaxAttempts(r.size)
    requires forall k: nat, p: nat :: p < r.size && p !in bad ==> Usable(send(k, p))
    modifies r`index
    ensures result.Success?
  {
    AttemptsSurvive(send, r.index, r.size, bad);
    result := r.RoundTrip(send, direct);
  }

  // ----- statuses and errors, written out

  /** Status 502, 503 or 504, or no response at all. */
  predicate Fails(a: Attempt) {
    match a
    case Delivered(response) => response.status in {502, 503, 504}
    case Failed(_) => true
  }

  predicate AttemptFails(send: (nat, nat) -> Attempt, start: nat, n: nat, k: nat)
    requires n > 0 && k >= 1
  {
    Fails(send(k, Pick(start + (k - 1), n)))
  }

  /** A request through a pool of n proxies makes up to three attempts, or n when there are fewer. It
      ends with the first response whose status is not 502, 503 or 504; when all attempts fail it
      reports the last one: its status and number, or its error. */
  lemma RequestMeaning(send: (nat, nat) -> Attempt, start: nat, n: nat)
    requires n > 0
    ensures var max := if n >= 3 then 3 else n;
      var (r, used) := Attempts(send, Picks(start, n, MaxAttempts(n)), 1);
      && 1 <= used <= max == MaxAttempts(n)
      && (forall k :: 1 <= k < used ==> AttemptFails(send, start, n, k))
      && var last := send(used, Pick(start + (used - 1), n));
         match last
         case Delivered(response) =>
           if response.status in {502, 503, 504} then
             used == max && r == GaveUp(max, BadStatus(response.status, max, max))
           else r == Success(response)
         case Failed(error) => used == max && r == GaveUp(max, TransportError(error))
  {
    var picks := Picks(start, n, MaxAttempts(n));
    FirstUsableDecides(send, picks, 1);
    var used := Attempts(send, picks, 1).1;
    forall k | 1 <= k < used ensures AttemptFails(send, start, n, k) {
      assert !Usable(send((k - 1) + 1, picks[k - 1]));
    }
  }
}
