/** The in-memory cache with expiring entries (cache/cache.go): the class, an ideal cache that never
    evicts, and the interleavings that the cache's lock allows. */
module TtlCache {
  import opened Options

  datatype Item<V> = Item(value: V, expiration: int)

  /** Zero means "never"; an entry is still good at its expiration instant. */
  predicate Expired<V>(item: Item<V>, now: int) {
    item.expiration != 0 && now > item.expiration
  }

  function Expiration(now: int, ttl: int): int {
    if ttl > 0 then now + ttl else 0
  }

  /** What the janitor removes: it skips entries whose expiration is not positive. */
  predicate Sweepable<V>(item: Item<V>, now: int) {
    item.expiration > 0 && now > item.expiration
  }

  function Lookup<V>(items: map<string, Item<V>>, key: string, now: int): Option<V> {
    if key in items && !Expired(items[key], now) then Some(items[key].value) else None
  }

  function AfterGet<V>(items: map<string, Item<V>>, key: string, now: int): map<string, Item<V>> {
    if key in items && Expired(items[key], now) then items - {key} else items
  }

  function AfterSweep<V>(items: map<string, Item<V>>, now: int): map<string, Item<V>> {
    map k | k in items && !Sweepable(items[k], now) :: items[k]
  }

  class InMemoryCache<V> {
    var items: map<string, Item<V>>

    constructor ()
      ensures items == map[]
    {
      items := map[];
    }

    method Set(key: string, value: V, ttl: int, now: int)
      modifies this
      ensures items == old(items)[key := Item(value, Expiration(now, ttl))]
      ensures items[key].expiration == if ttl > 0 then now + ttl else 0
    {
      var exp := 0;
      if ttl > 0 {
        exp := now + ttl;
      }
      items := items[key := Item(value, exp)];
    }

    method Get(key: string, now: int) returns (r: Option<V>)
      modifies this
      ensures r == Lookup(old(items), key, now)
      ensures items == AfterGet(old(items), key, now)
      ensures r.Some? <==> key in items
      ensures key in items <==>
        key in old(items) && (old(items)[key].expiration == 0 || now <= old(items)[key].expiration)
    {
      if key !in items {
        return None;
      }
      var item := items[key];
      if Expired(item, now) {
        items := items - {key};
        return None;
      }
      return Some(item.value);
    }

    method Delete(key: string)
      modifies this
      ensures items == old(items) - {key}
    {
      items := items - {key};
    }

    method Clear()
      modifies this
      ensures items == map[]
    {
      items := map[];
    }

    /** One tick of the janitor. */
    method Sweep(now: int)
      modifies this
      ensures items == AfterSweep(old(items), now)
      ensures forall k :: k in items <==> k in old(items) && !(0 < old(items)[k].expiration < now)
    {
      var todo := items.Keys;
      while todo != {}
        invariant todo <= items.Keys <= old(items).Keys
        invariant forall k :: k in items ==> items[k] == old(items)[k]
        invariant forall k :: k in items && k !in todo ==> !Sweepable(items[k], now)
        invariant forall k :: k in old(items) && k !in items ==> Sweepable(old(items)[k], now)
        decreases |todo|
      {
        var k :| k in todo;
        todo := todo - {k};
        if items[k].expiration > 0 && now > items[k].expiration {
          items := items - {k};
        }
      }
    }
  }

  // ----- atomic operations: the cache against one that never evicts

  datatype Op<V> = Set(key: string, value: V, ttl: int) | Get(key: string) | Delete(key: string) | Clear | Sweep

  datatype TimedOp<V> = Timed(now: int, op: Op<V>)

  function Step<V>(items: map<string, Item<V>>, t: TimedOp<V>): map<string, Item<V>> {
    match t.op
    case Set(key, value, ttl) => items[key := Item(value, Expiration(t.now, ttl))]
    case Get(key) => AfterGet(items, key, t.now)
    case Delete(key) => items - {key}
    case Clear => map[]
    case Sweep => AfterSweep(items, t.now)
  }

  /** The ideal cache: nothing is dropped by reading or by the janitor. */
  function IdealStep<V>(items: map<string, Item<V>>, t: TimedOp<V>): map<string, Item<V>> {
    match t.op
    case Set(key, value, ttl) => items[key := Item(value, Expiration(t.now, ttl))]
    case Get(_) => items
    case Delete(key) => items - {key}
    case Clear => map[]
    case Sweep => items
  }

  function Answer<V>(items: map<string, Item<V>>, t: TimedOp<V>): seq<Option<V>> {
    match t.op
    case Get(key) => [Lookup(items, key, t.now)]
    case _ => []
  }

  /** The answers of all the Gets of a run, in order. */
  function Answers<V>(items: map<string, Item<V>>, run: seq<TimedOp<V>>): seq<Option<V>>
    decreases |run|
  {
    if run == [] then [] else Answer(items, run[0]) + Answers(Step(items, run[0]), run[1..])
  }

  function IdealAnswers<V>(items: map<string, Item<V>>, run: seq<TimedOp<V>>): seq<Option<V>>
    decreases |run|
  {
    if run == [] then [] else Answer(items, run[0]) + IdealAnswers(IdealStep(items, run[0]), run[1..])
  }

  predicate ClockedFrom<V>(run: seq<TimedOp<V>>, start: int) {
    run == [] || (start <= run[0].now && ClockedFrom(run[1..], run[0].now))
  }

  /** The evicting cache holds part of what the ideal one holds; the rest has expired. */
  ghost predicate Shadows<V>(items: map<string, Item<V>>, ideal: map<string, Item<V>>, now: int) {
    && items.Keys <= ideal.Keys
    && (forall k :: k in items ==> items[k] == ideal[k])
    && (forall k :: k in ideal && k !in items ==> Expired(ideal[k], now))
  }

  lemma StepShadows<V>(items: map<string, Item<V>>, ideal: map<string, Item<V>>, t: TimedOp<V>, start: int)
    requires Shadows(items, ideal, start) && start <= t.now
    ensures Shadows(Step(items, t), IdealStep(ideal, t), t.now)
    ensures Answer(items, t) == Answer(ideal, t)
  {
  }

  lemma {:induction false} AnswersAgreeFrom<V>(
    items: map<string, Item<V>>, ideal: map<string, Item<V>>, run: seq<TimedOp<V>>, start: int)
    requires Shadows(items, ideal, start) && ClockedFrom(run, start)
    ensures Answers(items, run) == IdealAnswers(ideal, run)
    decreases |run|
  {
    if run != [] {
      StepShadows(items, ideal, run[0], start);
      AnswersAgreeFrom(Step(items, run[0]), IdealStep(ideal, run[0]), run[1..], run[0].now);
    }
  }

  /** Over any run on a non-decreasing clock, delete-on-read and the janitor change no answer. */
  lemma EvictionIsInvisible<V>(run: seq<TimedOp<V>>, start: int)
    requires ClockedFrom(run, start)
    ensures Answers(map[], run) == IdealAnswers(map[], run)
  {
    AnswersAgreeFrom<V>(map[], map[], run, start);
  }

  // ----- lock-level interleavings

  /** A Get is three critical sections and a clock reading: it reads the entry under the read lock,
      checks the entry it holds, and, when that has expired, deletes the key under the write lock.
      Set and Sweep are one critical section each; a Set carries the expiration that it computed
      before taking the lock. */
  datatype Action<V> =
    | CommitSet(key: string, item: Item<V>)
    | CommitDelete(key: string)
    | CommitClear
    | CommitSweep
    | ReadEntry(tid: int, key: string)
    | CheckEntry(tid: int)
    | EvictEntry(tid: int)

  datatype LockEvent<V> = LockEvent(now: int, action: Action<V>)

  datatype Reading<V> = Holding(key: string, item: Item<V>) | Condemned(key: string)

  datatype LockState<V> = LockState(items: map<string, Item<V>>, threads: map<int, Reading<V>>)

  predicate Holds<V>(s: LockState<V>, tid: int) {
    tid in s.threads && s.threads[tid].Holding?
  }

  predicate Condemns<V>(s: LockState<V>, tid: int) {
    tid in s.threads && s.threads[tid].Condemned?
  }

  /** An event that its thread is not ready for changes nothing. */
  function Perform<V>(s: LockState<V>, e: LockEvent<V>): LockState<V> {
    match e.action
    case CommitSet(key, item) => s.(items := s.items[key := item])
    case CommitDelete(key) => s.(items := s.items - {key})
    case CommitClear => s.(items := map[])
    case CommitSweep => s.(items := AfterSweep(s.items, e.now))
    case ReadEntry(tid, key) =>
      if tid in s.threads || key !in s.items then s
      else s.(threads := s.threads[tid := Holding(key, s.items[key])])
    case CheckEntry(tid) =>
      if !Holds(s, tid) then s
      else if Expired(s.threads[tid].item, e.now) then
        s.(threads := s.threads[tid := Condemned(s.threads[tid].key)])
      else s.(threads := s.threads - {tid})
    case EvictEntry(tid) =>
      if !Condemns(s, tid) then s
      else LockState(s.items - {s.threads[tid].key}, s.threads - {tid})
  }

  function StateAt<V>(trace: seq<LockEvent<V>>, n: nat): LockState<V>
    requires n <= |trace|
  {
    if n == 0 then LockState(map[], map[]) else Perform(StateAt(trace, n - 1), trace[n - 1])
  }

  /** The entry most recently Set for a key and not removed by Delete or Clear since. */
  function LastSet<V>(trace: seq<LockEvent<V>>, n: nat, key: string): Option<Item<V>>
    requires n <= |trace|
  {
    if n == 0 then None
    else
      match trace[n - 1].action
      case CommitSet(k, item) => if k == key then Some(item) else LastSet(trace, n - 1, key)
      case CommitDelete(k) => if k == key then None else LastSet(trace, n - 1, key)
      case CommitClear => None
      case _ => LastSet(trace, n - 1, key)
  }

  lemma {:induction false} StoredIsLastSet<V>(trace: seq<LockEvent<V>>, n: nat, key: string)
    requires n <= |trace| && key in StateAt(trace, n).items
    ensures LastSet(trace, n, key) == Some(StateAt(trace, n).items[key])
  {
    if n > 0 {
      var e := trace[n - 1];
      if !(e.action.CommitSet? && e.action.key == key) {
        StoredIsLastSet(trace, n - 1, key);
      }
    }
  }

  /** At point n, thread tid has been holding the entry it read by the event at r. */
  ghost predicate HeldSince<V>(trace: seq<LockEvent<V>>, r: nat, n: nat, tid: int)
    requires r < n <= |trace|
  {
    && Holds(StateAt(trace, n), tid)
    && trace[r].action == ReadEntry(tid, StateAt(trace, n).threads[tid].key)
    && tid !in StateAt(trace, r).threads
    && forall m :: r < m <= n ==>
         tid in StateAt(trace, m).threads && StateAt(trace, m).threads[tid] == StateAt(trace, n).threads[tid]
  }

  lemma {:induction false} HeldEntryWasRead<V>(trace: seq<LockEvent<V>>, n: nat, tid: int) returns (r: nat)
    requires n <= |trace| && Holds(StateAt(trace, n), tid)
    ensures r < n && HeldSince(trace, r, n, tid)
    ensures LastSet(trace, r, StateAt(trace, n).threads[tid].key) == Some(StateAt(trace, n).threads[tid].item)
  {
    var before := StateAt(trace, n - 1);
    if Holds(before, tid) {
      r := HeldEntryWasRead(trace, n - 1, tid);
    } else {
      r := n - 1;
      StoredIsLastSet(trace, r, trace[r].action.key);
    }
  }

  /** The value a Get returns when the check at event c lets its entry through. */
  ghost function HitAt<V>(trace: seq<LockEvent<V>>, c: nat, tid: int): Option<V>
    requires c < |trace|
  {
    var s := StateAt(trace, c);
    if trace[c].action == CheckEntry(tid) && Holds(s, tid) && !Expired(s.threads[tid].item, trace[c].now) then
      Some(s.threads[tid].item.value)
    else None
  }

  /** Under every interleaving, a hit returns the value most recently Set for the key at the moment
      the Get read it, and that entry has not expired when it is checked. */
  lemma HitReturnsLastSet<V>(trace: seq<LockEvent<V>>, c: nat, tid: int) returns (r: nat, item: Item<V>)
    requires c < |trace| && HitAt(trace, c, tid).Some?
    ensures r < c && HeldSince(trace, r, c, tid)
    ensures LastSet(trace, r, trace[r].action.key) == Some(item)
    ensures HitAt(trace, c, tid) == Some(item.value) && !Expired(item, trace[c].now)
  {
    r := HeldEntryWasRead(trace, c, tid);
    item := StateAt(trace, c).threads[tid].item;
  }

  predicate Clocked<V>(trace: seq<LockEvent<V>>) {
    forall i, j :: 0 <= i <= j < |trace| ==> trace[i].now <= trace[j].now
  }

  /** The late delete of a Get removes an entry that has not expired. */
  predicate DropsFresh<V>(trace: seq<LockEvent<V>>, n: nat)
    requires n < |trace|
  {
    var s := StateAt(trace, n);
    && trace[n].action.EvictEntry?
    && Condemns(s, trace[n].action.tid)
    && var key := s.threads[trace[n].action.tid].key;
       key in s.items && !Expired(s.items[key], trace[n].now)
  }

  predicate LiveAfter<V>(trace: seq<LockEvent<V>>, n: nat, key: string)
    requires n < |trace|
  {
    match LastSet(trace, n + 1, key)
    case None => false
    case Some(item) => !Expired(item, trace[n].now)
  }

  /** After the event at n, every entry that was Set and has not expired by then is still stored. */
  ghost predicate NothingLost<V>(trace: seq<LockEvent<V>>, n: nat)
    requires n < |trace|
  {
    forall key :: LiveAfter(trace, n, key) ==> key in StateAt(trace, n + 1).items
  }

  lemma {:induction false} KeptWithoutFreshDrop<V>(trace: seq<LockEvent<V>>, n: nat)
    requires Clocked(trace) && n < |trace|
    requires forall m :: 0 <= m <= n ==> !DropsFresh(trace, m)
    ensures NothingLost(trace, n)
  {
    if n > 0 {
      KeptWithoutFreshDrop(trace, n - 1);
    }
    forall key | LiveAfter(trace, n, key)
      ensures key in StateAt(trace, n + 1).items
    {
      var e := trace[n];
      if !(e.action.CommitSet? && e.action.key == key) {
        assert LastSet(trace, n, key) == LastSet(trace, n + 1, key);
        assert n > 0 && trace[n - 1].now <= trace[n].now;
        assert LiveAfter(trace, n - 1, key);
        assert key in StateAt(trace, n - 1 + 1).items;
        StoredIsLastSet(trace, n, key);
        assert !DropsFresh(trace, n);
      }
    }
  }

  /** The cache loses a live entry exactly when some late delete hits a fresh one. */
  lemma LosesOnlyByFreshDrop<V>(trace: seq<LockEvent<V>>)
    requires Clocked(trace)
    ensures (forall n :: 0 <= n < |trace| ==> NothingLost(trace, n))
       <==> (forall n :: 0 <= n < |trace| ==> !DropsFresh(trace, n))
  {
    if forall n :: 0 <= n < |trace| ==> !DropsFresh(trace, n) {
      forall n | 0 <= n < |trace| ensures NothingLost(trace, n) {
        KeptWithoutFreshDrop(trace, n);
      }
    } else {
      var n :| 0 <= n < |trace| && DropsFresh(trace, n);
      var s := StateAt(trace, n);
      var key := s.threads[trace[n].action.tid].key;
      StoredIsLastSet(trace, n, key);
      assert LastSet(trace, n + 1, key) == Some(s.items[key]);
      assert LiveAfter(trace, n, key);
      assert !NothingLost(trace, n);
    }
  }

  /** Such a run: the entry set at event 3 has no expiration and is gone after event 4. */
  function LateDelete(): seq<LockEvent<int>> {
    [LockEvent(0, CommitSet("k", Item(1, 10))),
     LockEvent(5, ReadEntry(1, "k")),
     LockEvent(11, CheckEntry(1)),
     LockEvent(11, CommitSet("k", Item(2, 0))),
     LockEvent(12, EvictEntry(1))]
  }

  lemma LateDeleteDropsFresh()
    ensures Clocked(LateDelete())
    ensures DropsFresh(LateDelete(), 4)
    ensures LastSet(LateDelete(), 5, "k") == Some(Item(2, 0)) && "k" !in StateAt(LateDelete(), 5).items
  {
    var t := LateDelete();
    assert StateAt(t, 1) == LockState(map["k" := Item(1, 10)], map[]);
    assert StateAt(t, 2) == LockState(map["k" := Item(1, 10)], map[1 := Holding("k", Item(1, 10))]);
    assert StateAt(t, 3) == LockState(map["k" := Item(1, 10)], map[1 := Condemned("k")]);
    assert StateAt(t, 4) == LockState(map["k" := Item(2, 0)], map[1 := Condemned("k")]);
    assert LastSet(t, 4, "k") == Some(Item(2, 0));
  }
}
