/** The limiter of one address once more, with the Get of its cache taken apart into its critical
    sections (cache/cache.go, Get): the entry is read under the read lock, checked, and, when it has
    expired, deleted later under the write lock, whatever is stored there by then. */
module LimiterLocks {
  import opened TtlCache
  import Limiter = RateLimiter

  type Entry<R> = Item<Limiter.Payload<R>>

  type Entries<R> = map<string, Entry<R>>

  /** A request in flight: it has read the clock, holds the entry it has read, is about to delete it
      because it has expired, or has been admitted and is about to write back. */
  datatype Phase<R> =
    | Started(now: int, seen: nat)
    | HasRead(now: int, seen: nat, item: Entry<R>)
    | Evicting(now: int, seen: nat)
    | Allowed(now: int, seen: nat, stamps: seq<int>)

  /** An admitted request changes the entry when it deletes an expired one and when it stores its list:
      how many admissions had been stored when it started, and how many have been by now. */
  datatype Change = Change(seen: nat, stored: nat)

  /** The log and the changes are history. */
  datatype State<R> = State(items: Entries<R>, phases: map<int, Phase<R>>, log: seq<int>, changes: seq<Change>)

  datatype Event<R> =
    | Start(id: int)
    | Read(id: int)
    | Check(id: int)
    | Evict(id: int)
    | Store(id: int)
    | Other(op: Op<Limiter.Payload<R>>)

  datatype TimedEvent<R> = At(now: int, event: Event<R>)

  /** The lag bounds how late the cache reads the entry and the clock; the late delete and the write
      may take any time. */
  predicate Enabled<R>(s: State<R>, e: TimedEvent<R>, ip: string, lag: int) {
    match e.event
    case Start(id) => id !in s.phases
    case Read(id) => id in s.phases && s.phases[id].Started? && e.now <= s.phases[id].now + lag
    case Check(id) => id in s.phases && s.phases[id].HasRead? && e.now <= s.phases[id].now + lag
    case Evict(id) => id in s.phases && s.phases[id].Evicting?
    case Store(id) => id in s.phases && s.phases[id].Allowed?
    case Other(op) => Limiter.Foreign(op, ip)
  }

  /** The list a request works with when the entry it holds has not expired. */
  function Usable<R>(item: Entry<R>, now: int): seq<int> {
    if item.value.Stamps? then Limiter.Recent(item.value.stamps, now - Limiter.WINDOW) else []
  }

  /** The verdict on a list, and where it leaves the request. */
  function Decided<R>(phases: map<int, Phase<R>>, id: int, stamps: seq<int>): map<int, Phase<R>>
    requires id in phases
  {
    if |stamps| < Limiter.MAX_REQUESTS then phases[id := Allowed(phases[id].now, phases[id].seen, stamps)]
    else phases - {id}
  }

  function Advance<R>(s: State<R>, e: TimedEvent<R>, ip: string, lag: int): State<R>
    requires Enabled(s, e, ip, lag)
  {
    var key := Limiter.LogKey(ip);
    match e.event
    case Start(id) => s.(phases := s.phases[id := Started(e.now, |s.log|)])
    case Read(id) =>
      var p := s.phases[id];
      s.(phases := if key in s.items then s.phases[id := HasRead(p.now, p.seen, s.items[key])]
                   else Decided(s.phases, id, []))
    case Check(id) =>
      var p := s.phases[id];
      s.(phases := if Expired(p.item, e.now) then s.phases[id := Evicting(p.now, p.seen)]
                   else Decided(s.phases, id, Usable(p.item, p.now)))
    case Evict(id) =>
      State(s.items - {key}, Decided(s.phases, id, []), s.log, s.changes + [Change(s.phases[id].seen, |s.log|)])
    case Store(id) =>
      var p := s.phases[id];
      State(Limiter.Recorded(s.items, ip, p.stamps + [p.now], e.now), s.phases - {id}, s.log + [p.now],
            s.changes + [Change(p.seen, |s.log|)])
    case Other(op) => s.(items := Step(s.items, Timed(e.now, op)))
  }

  predicate ValidRun<R>(s: State<R>, run: seq<TimedEvent<R>>, ip: string, lag: int, clock: int)
    decreases |run|
  {
    run == [] ||
    (clock <= run[0].now && Enabled(s, run[0], ip, lag)
     && ValidRun(Advance(s, run[0], ip, lag), run[1..], ip, lag, run[0].now))
  }

  function Run<R>(s: State<R>, run: seq<TimedEvent<R>>, ip: string, lag: int, clock: int): State<R>
    requires ValidRun(s, run, ip, lag, clock)
    decreases |run|
  {
    if run == [] then s else Run(Advance(s, run[0], ip, lag), run[1..], ip, lag, run[0].now)
  }

  function Initial<R>(): State<R> {
    State(map[], map[], [], [])
  }

  predicate InFlightAtMost<R>(s: State<R>, run: seq<TimedEvent<R>>, ip: string, lag: int, clock: int, m: nat)
    requires ValidRun(s, run, ip, lag, clock)
    decreases |run|
  {
    |s.phases| <= m
    && (run == [] || InFlightAtMost(Advance(s, run[0], ip, lag), run[1..], ip, lag, run[0].now, m))
  }

  predicate UpToDate<R>(s: State<R>, i: nat) {
    i < |s.changes| ==> s.changes[i].seen == s.changes[i].stored
  }

  /** No two admitted requests overlap: none changes the entry after another one that it had not seen
      has been stored. */
  ghost predicate AdmittedOneByOne<R>(s: State<R>) {
    forall i: nat :: UpToDate(s, i)
  }

  // ----- what every section keeps

  /** What a request that has seen the whole log knows. */
  ghost predicate Knows<R>(p: Phase<R>, log: seq<int>, clock: int, lag: int) {
    match p
    case Started(_, _) => true
    case HasRead(_, _, item) => Limiter.EntryInvariant(item, log, lag)
    case Evicting(now, _) => Limiter.WindowPassed(log, clock) && Limiter.Remembers([], log, now, lag)
    case Allowed(now, _, stamps) => |stamps| < Limiter.MAX_REQUESTS && Limiter.Remembers(stamps, log, now, lag)
  }

  ghost predicate PhaseInvariant<R>(p: Phase<R>, log: seq<int>, clock: int, lag: int) {
    && p.now <= clock
    && p.seen <= |log|
    && (p.seen == |log| ==> Limiter.LogUpTo(log, p.now) && Knows(p, log, clock, lag))
  }

  ghost predicate PhasesInvariant<R>(phases: map<int, Phase<R>>, log: seq<int>, clock: int, lag: int) {
    forall id :: id in phases ==> PhaseInvariant(phases[id], log, clock, lag)
  }

  ghost predicate Invariant<R>(s: State<R>, ip: string, clock: int, lag: int) {
    && Limiter.Sorted(s.log)
    && Limiter.Spaced(s.log, lag)
    && Limiter.StoreInvariant(s.items, s.log, ip, clock, lag)
    && Limiter.LogUpTo(s.log, clock)
    && PhasesInvariant(s.phases, s.log, clock, lag)
  }

  lemma LaterPhases<R>(phases: map<int, Phase<R>>, log: seq<int>, clock: int, lag: int, now: int)
    requires PhasesInvariant(phases, log, clock, lag) && clock <= now
    ensures PhasesInvariant(phases, log, now, lag)
  {
  }

  lemma DecidedInvariant<R>(phases: map<int, Phase<R>>, id: int, stamps: seq<int>, log: seq<int>, clock: int, lag: int)
    requires PhasesInvariant(phases, log, clock, lag) && id in phases
    requires phases[id].seen == |log| ==> Limiter.Remembers(stamps, log, phases[id].now, lag)
    ensures PhasesInvariant(Decided(phases, id, stamps), log, clock, lag)
  {
  }

  lemma ReadKeepsInvariant<R>(s: State<R>, e: TimedEvent<R>, ip: string, clock: int, lag: int)
    requires Invariant(s, ip, clock, lag) && clock <= e.now && Enabled(s, e, ip, lag) && e.event.Read?
    ensures Invariant(Advance(s, e, ip, lag), ip, e.now, lag)
  {
    var id := e.event.id;
    var p := s.phases[id];
    LaterPhases(s.phases, s.log, clock, lag, e.now);
    if Limiter.LogKey(ip) !in s.items {
      Limiter.ForgetAll(s.log, p.now, e.now, lag);
      DecidedInvariant(s.phases, id, [], s.log, e.now, lag);
    }
  }

  /** An entry that is good at its check yields a list that remembers enough. */
  lemma GoodEntryDecides<R>(phases: map<int, Phase<R>>, id: int, log: seq<int>, clock: int, lag: int)
    requires PhasesInvariant(phases, log, clock, lag) && id in phases && phases[id].HasRead?
    requires Limiter.Sorted(log) && lag >= 0
    ensures PhasesInvariant(Decided(phases, id, Usable(phases[id].item, phases[id].now)), log, clock, lag)
  {
    var p := phases[id];
    assert PhaseInvariant(p, log, clock, lag);
    if p.seen == |log| {
      Limiter.FilterRemembers(p.item.value.stamps, log, p.now, lag);
    }
    DecidedInvariant(phases, id, Usable(p.item, p.now), log, clock, lag);
  }

  /** One that has expired outlived the window of the last admission. */
  lemma ExpiredEntryEvicts<R>(phases: map<int, Phase<R>>, id: int, log: seq<int>, clock: int, lag: int)
    requires PhasesInvariant(phases, log, clock, lag) && id in phases && phases[id].HasRead?
    requires Limiter.Sorted(log) && clock <= phases[id].now + lag && Expired(phases[id].item, clock)
    ensures PhasesInvariant(phases[id := Evicting(phases[id].now, phases[id].seen)], log, clock, lag)
  {
    var p := phases[id];
    assert PhaseInvariant(p, log, clock, lag);
    if p.seen == |log| {
      Limiter.ForgetAll(log, p.now, clock, lag);
    }
  }

  lemma CheckKeepsInvariant<R>(s: State<R>, e: TimedEvent<R>, ip: string, clock: int, lag: int)
    requires Invariant(s, ip, clock, lag) && clock <= e.now && Enabled(s, e, ip, lag) && lag >= 0 && e.event.Check?
    ensures Invariant(Advance(s, e, ip, lag), ip, e.now, lag)
  {
    var id := e.event.id;
    LaterPhases(s.phases, s.log, clock, lag, e.now);
    if Expired(s.phases[id].item, e.now) {
      ExpiredEntryEvicts(s.phases, id, s.log, e.now, lag);
    } else {
      GoodEntryDecides(s.phases, id, s.log, e.now, lag);
    }
  }

  lemma HasSeenAll<R>(s: State<R>, e: TimedEvent<R>, ip: string, lag: int)
    requires Enabled(s, e, ip, lag) && (e.event.Evict? || e.event.Store?)
    requires AdmittedOneByOne(Advance(s, e, ip, lag))
    ensures s.phases[e.event.id].seen == |s.log|
  {
    assert UpToDate(Advance(s, e, ip, lag), |s.changes|);
  }

  /** The late delete of a request that overlaps no other admitted one finds the entry that it has
      read, or none. */
  lemma EvictKeepsInvariant<R>(s: State<R>, e: TimedEvent<R>, ip: string, clock: int, lag: int)
    requires Invariant(s, ip, clock, lag) && clock <= e.now && Enabled(s, e, ip, lag) && e.event.Evict?
    requires s.phases[e.event.id].seen == |s.log|
    ensures Invariant(Advance(s, e, ip, lag), ip, e.now, lag)
  {
    var id := e.event.id;
    LaterPhases(s.phases, s.log, clock, lag, e.now);
    assert PhaseInvariant(s.phases[id], s.log, e.now, lag);
    DecidedInvariant(s.phases, id, [], s.log, e.now, lag);
  }

  lemma OthersFallBehind<R>(phases: map<int, Phase<R>>, id: int, log: seq<int>, at: int, clock: int, now: int, lag: int)
    requires PhasesInvariant(phases, log, clock, lag) && clock <= now
    ensures PhasesInvariant(phases - {id}, log + [at], now, lag)
  {
  }

  lemma StoreKeepsInvariant<R>(s: State<R>, e: TimedEvent<R>, ip: string, clock: int, lag: int)
    requires Invariant(s, ip, clock, lag) && clock <= e.now && Enabled(s, e, ip, lag) && e.event.Store?
    requires s.phases[e.event.id].seen == |s.log|
    ensures Invariant(Advance(s, e, ip, lag), ip, e.now, lag)
  {
    var id := e.event.id;
    var p := s.phases[id];
    assert PhaseInvariant(p, s.log, clock, lag);
    Limiter.RecordKeepsLog(p.stamps, s.log, p.now, lag);
    Limiter.RecordKeepsStore(s.items, p.stamps, s.log, ip, p.now, e.now, lag);
    OthersFallBehind(s.phases, id, s.log, p.now, clock, e.now, lag);
  }

  lemma AdvanceKeepsInvariant<R>(s: State<R>, e: TimedEvent<R>, ip: string, clock: int, lag: int)
    requires Invariant(s, ip, clock, lag) && clock <= e.now && Enabled(s, e, ip, lag) && lag >= 0
    requires AdmittedOneByOne(Advance(s, e, ip, lag))
    ensures Invariant(Advance(s, e, ip, lag), ip, e.now, lag)
  {
    match e.event
    case Start(_) => LaterPhases(s.phases, s.log, clock, lag, e.now);
    case Read(_) => ReadKeepsInvariant(s, e, ip, clock, lag);
    case Check(_) => CheckKeepsInvariant(s, e, ip, clock, lag);
    case Evict(_) =>
      HasSeenAll(s, e, ip, lag);
      EvictKeepsInvariant(s, e, ip, clock, lag);
    case Store(_) =>
      HasSeenAll(s, e, ip, lag);
      StoreKeepsInvariant(s, e, ip, clock, lag);
    case Other(op) =>
      LaterPhases(s.phases, s.log, clock, lag, e.now);
      Limiter.StepKeepsStore(s.items, s.log, op, ip, clock, e.now, lag);
  }

  lemma {:induction false} HistoryGrows<R>(s: State<R>, run: seq<TimedEvent<R>>, ip: string, lag: int, clock: int)
    requires ValidRun(s, run, ip, lag, clock)
    ensures s.changes <= Run(s, run, ip, lag, clock).changes
    ensures AdmittedOneByOne(Run(s, run, ip, lag, clock)) ==> AdmittedOneByOne(s)
    decreases |run|
  {
    if run != [] {
      HistoryGrows(Advance(s, run[0], ip, lag), run[1..], ip, lag, run[0].now);
    }
    var end := Run(s, run, ip, lag, clock);
    if AdmittedOneByOne(end) {
      forall i: nat ensures UpToDate(s, i) {
        assert UpToDate(end, i);
      }
    }
  }

  lemma {:induction false} RunKeepsInvariant<R>(s: State<R>, run: seq<TimedEvent<R>>, ip: string, lag: int, clock: int)
    returns (end: int)
    requires ValidRun(s, run, ip, lag, clock) && Invariant(s, ip, clock, lag) && lag >= 0
    requires AdmittedOneByOne(Run(s, run, ip, lag, clock))
    ensures clock <= end && Invariant(Run(s, run, ip, lag, clock), ip, end, lag)
    decreases |run|
  {
    end := clock;
    if run != [] {
      var next := Advance(s, run[0], ip, lag);
      HistoryGrows(next, run[1..], ip, lag, run[0].now);
      AdvanceKeepsInvariant(s, run[0], ip, clock, lag);
      end := RunKeepsInvariant(next, run[1..], ip, lag, run[0].now);
    }
  }

  /** Under every interleaving of the critical sections in which no two admitted requests overlap, any
      admission and the fifth one after it are a window apart, give or take the lag. */
  lemma AdmissionsAreSpaced<R>(run: seq<TimedEvent<R>>, ip: string, lag: int, clock: int)
    requires lag >= 0 && ValidRun(Initial<R>(), run, ip, lag, clock)
    requires AdmittedOneByOne(Run(Initial<R>(), run, ip, lag, clock))
    ensures var log := Run(Initial<R>(), run, ip, lag, clock).log;
      && Limiter.Sorted(log)
      && forall i :: 0 <= i && i + 5 < |log| ==>
           log[i + 5] - log[i] >= 10_000_000_000 || log[i + 5] - log[i] > 10_000_000_000 - lag
  {
    var end := RunKeepsInvariant(Initial<R>(), run, ip, lag, clock);
    var log := Run(Initial<R>(), run, ip, lag, clock).log;
    forall i | 0 <= i && i + 5 < |log|
      ensures log[i + 5] - log[i] >= Limiter.WINDOW || log[i + 5] - log[i] > Limiter.WINDOW - lag
    {
      assert Limiter.Apart(log[i], log[i + Limiter.MAX_REQUESTS], lag);
    }
  }

  // ----- one request in flight

  ghost predicate Serial<R>(s: State<R>) {
    AdmittedOneByOne(s) && forall id :: id in s.phases ==> s.phases[id].seen == |s.log|
  }

  lemma AdvanceKeepsSerial<R>(s: State<R>, e: TimedEvent<R>, ip: string, lag: int)
    requires Serial(s) && |s.phases| <= 1 && Enabled(s, e, ip, lag)
    ensures Serial(Advance(s, e, ip, lag))
  {
    var next := Advance(s, e, ip, lag);
    forall i: nat ensures UpToDate(next, i) {
      assert UpToDate(s, i);
    }
    if e.event.Store? {
      Limiter.OnlyKey(s.phases, e.event.id);
    }
  }

  lemma {:induction false} OneInFlightIsSerial<R>(
    s: State<R>, run: seq<TimedEvent<R>>, ip: string, lag: int, clock: int)
    requires ValidRun(s, run, ip, lag, clock) && InFlightAtMost(s, run, ip, lag, clock, 1) && Serial(s)
    ensures Serial(Run(s, run, ip, lag, clock))
    decreases |run|
  {
    if run != [] {
      AdvanceKeepsSerial(s, run[0], ip, lag);
      OneInFlightIsSerial(Advance(s, run[0], ip, lag), run[1..], ip, lag, run[0].now);
    }
  }

  lemma OneInFlightIsSpaced<R>(run: seq<TimedEvent<R>>, ip: string, lag: int, clock: int)
    requires lag >= 0 && ValidRun(Initial<R>(), run, ip, lag, clock)
    requires InFlightAtMost(Initial<R>(), run, ip, lag, clock, 1)
    ensures Limiter.Spaced(Run(Initial<R>(), run, ip, lag, clock).log, lag)
  {
    OneInFlightIsSerial(Initial<R>(), run, ip, lag, clock);
    var end := RunKeepsInvariant(Initial<R>(), run, ip, lag, clock);
  }

  // ----- the machine with atomic Gets is part of this one

  function Lift<R>(p: Limiter.Phase): Phase<R> {
    match p
    case Started(now, seen) => Started(now, seen)
    case Allowed(now, seen, stamps) => Allowed(now, seen, stamps)
  }

  function LiftAll<R>(phases: map<int, Limiter.Phase>): map<int, Phase<R>> {
    map id | id in phases :: Lift(phases[id])
  }

  /** The same but for the history of changes. */
  ghost predicate Same<R>(l: State<R>, s: Limiter.State<R>) {
    l.items == s.items && l.log == s.log && l.phases == LiftAll(s.phases)
  }

  lemma LiftSize<R>(phases: map<int, Limiter.Phase>)
    ensures |LiftAll<R>(phases)| == |phases|
  {
    assert LiftAll<R>(phases).Keys == phases.Keys;
  }

  /** An event of the atomic machine that is not a Fetch. */
  function Plain<R>(e: Limiter.TimedEvent<R>): TimedEvent<R>
    requires !e.event.Fetch?
  {
    match e.event
    case Start(id) => At(e.now, Start(id))
    case Store(id) => At(e.now, Store(id))
    case Other(op) => At(e.now, Other(op))
  }

  lemma PlainStep<R>(l: State<R>, s: Limiter.State<R>, e: Limiter.TimedEvent<R>, ip: string, lag: int)
    requires Same(l, s) && Limiter.Enabled(s, e, ip, lag) && !e.event.Fetch?
    ensures Enabled(l, Plain(e), ip, lag)
    ensures Same(Advance(l, Plain(e), ip, lag), Limiter.Advance(s, e, ip, lag))
  {
  }

  lemma DecidedLift<R>(phases: map<int, Limiter.Phase>, before: map<int, Phase<R>>, id: int, stamps: seq<int>)
    requires id in phases && id in before && before - {id} == LiftAll<R>(phases) - {id}
    requires before[id].now == phases[id].now && before[id].seen == phases[id].seen
    ensures Decided(before, id, stamps) == LiftAll<R>(
      if |stamps| < Limiter.MAX_REQUESTS then phases[id := Limiter.Allowed(phases[id].now, phases[id].seen, stamps)]
      else phases - {id})
  {
    var after := if |stamps| < Limiter.MAX_REQUESTS
      then phases[id := Limiter.Allowed(phases[id].now, phases[id].seen, stamps)] else phases - {id};
    forall k | k != id ensures k in Decided(before, id, stamps) <==> k in after {
      assert k in before - {id} <==> k in LiftAll<R>(phases) - {id};
    }
    forall k | k != id && k in after ensures Decided(before, id, stamps)[k] == Lift(after[k]) {
      assert (before - {id})[k] == (LiftAll<R>(phases) - {id})[k];
    }
  }

  /** One event in front of a run. */
  lemma EventFirst<R>(
    s: State<R>, e: TimedEvent<R>, tail: seq<TimedEvent<R>>, ip: string, lag: int, clock: int, m: nat)
    requires clock <= e.now && Enabled(s, e, ip, lag) && |s.phases| <= m
    requires ValidRun(Advance(s, e, ip, lag), tail, ip, lag, e.now)
    requires InFlightAtMost(Advance(s, e, ip, lag), tail, ip, lag, e.now, m)
    ensures ValidRun(s, [e] + tail, ip, lag, clock) && InFlightAtMost(s, [e] + tail, ip, lag, clock, m)
    ensures Run(s, [e] + tail, ip, lag, clock) == Run(Advance(s, e, ip, lag), tail, ip, lag, e.now)
  {
    assert ([e] + tail)[1..] == tail;
  }

  predicate Fetches<R>(s: Limiter.State<R>, id: int, t: int, lag: int) {
    id in s.phases && s.phases[id].Started? && t <= s.phases[id].now + lag
  }

  lemma PhaseSize<R>(phases: map<int, Phase<R>>, id: int, p: Phase<R>)
    requires id in phases
    ensures |phases[id := p]| == |phases|
  {
    assert phases[id := p].Keys == phases.Keys;
  }

  /** Nothing is stored: the Get ends with the read. */
  lemma MissSections<R>(l: State<R>, s: Limiter.State<R>, id: int, t: int, ip: string, lag: int)
    requires Same(l, s) && Fetches(s, id, t, lag) && Limiter.LogKey(ip) !in s.items
    ensures Enabled(l, At(t, Read(id)), ip, lag)
    ensures Same(Advance(l, At(t, Read(id)), ip, lag), Limiter.Advance(s, Limiter.At(t, Limiter.Fetch(id)), ip, lag))
  {
    DecidedLift(s.phases, l.phases, id, []);
  }

  /** The entry is good: the Get ends with the check. */
  lemma HitSections<R>(l: State<R>, s: Limiter.State<R>, id: int, t: int, ip: string, lag: int)
    requires Same(l, s) && Fetches(s, id, t, lag) && Limiter.Live(s.items, Limiter.LogKey(ip), t)
    ensures Enabled(l, At(t, Read(id)), ip, lag)
    ensures var l1 := Advance(l, At(t, Read(id)), ip, lag);
      && |l1.phases| == |l.phases|
      && Enabled(l1, At(t, Check(id)), ip, lag)
      && Same(Advance(l1, At(t, Check(id)), ip, lag),
              Limiter.Advance(s, Limiter.At(t, Limiter.Fetch(id)), ip, lag))
  {
    var now, seen, item := s.phases[id].now, s.phases[id].seen, s.items[Limiter.LogKey(ip)];
    PhaseSize(l.phases, id, HasRead(now, seen, item));
    var before := l.phases[id := HasRead(now, seen, item)];
    assert before - {id} == LiftAll<R>(s.phases) - {id};
    DecidedLift(s.phases, before, id, Usable(item, now));
    assert Limiter.Fetched(s.items, ip, now, t) == Usable(item, now);
  }

  /** The entry has expired: the Get ends with the late delete. */
  lemma EvictSections<R>(l: State<R>, s: Limiter.State<R>, id: int, t: int, ip: string, lag: int)
    requires Same(l, s) && Fetches(s, id, t, lag) && Limiter.LogKey(ip) in s.items
    requires Expired(s.items[Limiter.LogKey(ip)], t)
    ensures Enabled(l, At(t, Read(id)), ip, lag)
    ensures var l1 := Advance(l, At(t, Read(id)), ip, lag);
      && |l1.phases| == |l.phases|
      && Enabled(l1, At(t, Check(id)), ip, lag)
      && var l2 := Advance(l1, At(t, Check(id)), ip, lag);
      && |l2.phases| == |l.phases|
      && Enabled(l2, At(t, Evict(id)), ip, lag)
      && Same(Advance(l2, At(t, Evict(id)), ip, lag),
              Limiter.Advance(s, Limiter.At(t, Limiter.Fetch(id)), ip, lag))
  {
    var now, seen, item := s.phases[id].now, s.phases[id].seen, s.items[Limiter.LogKey(ip)];
    PhaseSize(l.phases, id, HasRead(now, seen, item));
    var held := l.phases[id := HasRead(now, seen, item)];
    PhaseSize(held, id, Evicting(now, seen));
    var before := held[id := Evicting(now, seen)];
    assert before - {id} == LiftAll<R>(s.phases) - {id};
    DecidedLift(s.phases, before, id, []);
  }

  /** Every run of the machine with atomic Gets is a run of this one, with as many requests in flight
      and the same log. */
  lemma {:induction false} AtomicRunHasSections<R>(
    l: State<R>, s: Limiter.State<R>, run: seq<Limiter.TimedEvent<R>>, ip: string, lag: int, clock: int, m: nat)
    returns (sections: seq<TimedEvent<R>>)
    requires Same(l, s) && Limiter.ValidRun(s, run, ip, lag, clock)
    requires Limiter.InFlightAtMost(s, run, ip, lag, clock, m)
    ensures ValidRun(l, sections, ip, lag, clock) && InFlightAtMost(l, sections, ip, lag, clock, m)
    ensures Same(Run(l, sections, ip, lag, clock), Limiter.Run(s, run, ip, lag, clock))
    decreases |run|
  {
    LiftSize<R>(s.phases);
    if run == [] {
      return [];
    }
    var t, next := run[0].now, Limiter.Advance(s, run[0], ip, lag);
    if !run[0].event.Fetch? {
      PlainStep(l, s, run[0], ip, lag);
      var e := Plain(run[0]);
      sections := AtomicRunHasSections(Advance(l, e, ip, lag), next, run[1..], ip, lag, t, m);
      EventFirst(l, e, sections, ip, lag, clock, m);
      return [e] + sections;
    }
    var id := run[0].event.id;
    var read: TimedEvent<R>, check: TimedEvent<R>, evict: TimedEvent<R> :=
      At(t, Read(id)), At(t, Check(id)), At(t, Evict(id));
    if Limiter.LogKey(ip) !in s.items {
      MissSections(l, s, id, t, ip, lag);
      sections := AtomicRunHasSections(Advance(l, read, ip, lag), next, run[1..], ip, lag, t, m);
    } else if !Expired(s.items[Limiter.LogKey(ip)], t) {
      HitSections(l, s, id, t, ip, lag);
      var l1 := Advance(l, read, ip, lag);
      sections := AtomicRunHasSections(Advance(l1, check, ip, lag), next, run[1..], ip, lag, t, m);
      EventFirst(l1, check, sections, ip, lag, t, m);
      sections := [check] + sections;
    } else {
      EvictSections(l, s, id, t, ip, lag);
      var l1 := Advance(l, read, ip, lag);
      var l2 := Advance(l1, check, ip, lag);
      sections := AtomicRunHasSections(Advance(l2, evict, ip, lag), next, run[1..], ip, lag, t, m);
      EventFirst(l2, evict, sections, ip, lag, t, m);
      EventFirst(l1, check, [evict] + sections, ip, lag, t, m);
      sections := [check] + ([evict] + sections);
    }
    EventFirst(l, read, sections, ip, lag, clock, m);
    sections := [read] + sections;
  }

  lemma {:induction false} InFlightMonotone<R>(
    s: State<R>, run: seq<TimedEvent<R>>, ip: string, lag: int, clock: int, m: nat, n: nat)
    requires ValidRun(s, run, ip, lag, clock) && InFlightAtMost(s, run, ip, lag, clock, m) && m <= n
    ensures InFlightAtMost(s, run, ip, lag, clock, n)
    decreases |run|
  {
    if run != [] {
      InFlightMonotone(Advance(s, run[0], ip, lag), run[1..], ip, lag, run[0].now, m, n);
    }
  }

  ghost predicate SafeUpTo<R(!new)>(m: nat, ip: string, lag: int) {
    forall run: seq<TimedEvent<R>>, clock: int ::
      ValidRun(Initial<R>(), run, ip, lag, clock) && InFlightAtMost(Initial<R>(), run, ip, lag, clock, m) ==>
        Limiter.Spaced(Run(Initial<R>(), run, ip, lag, clock).log, lag)
  }

  /** With two requests in flight, some run exceeds the limit at this level too. */
  lemma TwoInFlightExceed<R>(ip: string, lag: int) returns (run: seq<TimedEvent<R>>)
    requires 0 <= lag <= Limiter.WINDOW
    ensures ValidRun(Initial<R>(), run, ip, lag, 0) && InFlightAtMost(Initial<R>(), run, ip, lag, 0, 2)
    ensures !Limiter.Spaced(Run(Initial<R>(), run, ip, lag, 0).log, lag)
  {
    var atomic := Limiter.OverlapExceedsLimit<R>(ip, lag, 0, 0);
    run := AtomicRunHasSections(Initial<R>(), Limiter.Initial<R>(), atomic, ip, lag, 0, 2);
    var log := Run(Initial<R>(), run, ip, lag, 0).log;
    assert !Limiter.Apart(log[0], log[0 + Limiter.MAX_REQUESTS], lag);
  }

  /** Taking the Gets apart changes nothing in this: the limiter keeps its bound on all runs with at
      most m requests of the address in flight if and only if m is at most one. */
  lemma SpacedIffOneInFlight<R(!new)>(m: nat, ip: string, lag: int)
    requires 0 <= lag <= Limiter.WINDOW
    ensures SafeUpTo<R>(m, ip, lag) <==> m <= 1
  {
    if m <= 1 {
      forall run: seq<TimedEvent<R>>, clock: int
        | ValidRun(Initial<R>(), run, ip, lag, clock) && InFlightAtMost(Initial<R>(), run, ip, lag, clock, m)
        ensures Limiter.Spaced(Run(Initial<R>(), run, ip, lag, clock).log, lag)
      {
        InFlightMonotone(Initial<R>(), run, ip, lag, clock, m, 1);
        OneInFlightIsSpaced(run, ip, lag, clock);
      }
    } else {
      var run := TwoInFlightExceed<R>(ip, lag);
      InFlightMonotone(Initial<R>(), run, ip, lag, 0, 2, m);
      assert !Limiter.Spaced(Run(Initial<R>(), run, ip, lag, 0).log, lag);
    }
  }
}
