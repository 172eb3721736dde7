/** The sliding-window limiter (server/handlers.go, LimitRate). It keeps its log of admissions as an
    entry of the expiring cache, which may drop that entry when it is read or swept. */
module RateLimiter {
  import opened TtlCache

  /** 10 seconds in nanoseconds. */
  const WINDOW: int := 10_000_000_000

  const MAX_REQUESTS: nat := 5

  /** What the server keeps in its cache: the limiter's lists of instants, and responses. */
  datatype Payload<R> = Stamps(stamps: seq<int>) | Page(page: R)

  function LogKey(ip: string): string {
    "ratelimit:" + ip
  }

  function Recent(stamps: seq<int>, cutoff: int): (r: seq<int>)
    ensures |r| <= |stamps|
  {
    if stamps == [] then []
    else if stamps[|stamps| - 1] > cutoff then Recent(stamps[..|stamps| - 1], cutoff) + [stamps[|stamps| - 1]]
    else Recent(stamps[..|stamps| - 1], cutoff)
  }

  /** The list a request works with: what the cache returns at clock reading tGet, without the
      instants outside the window that ends at now. */
  function Fetched<R>(items: map<string, Item<Payload<R>>>, ip: string, now: int, tGet: int): seq<int> {
    match Lookup<Payload<R>>(items, LogKey(ip), tGet)
    case Some(Stamps(stamps)) => Recent(stamps, now - WINDOW)
    case _ => []
  }

  function Recorded<R>(items: map<string, Item<Payload<R>>>, ip: string, stamps: seq<int>, tSet: int)
    : map<string, Item<Payload<R>>>
  {
    items[LogKey(ip) := Item(Stamps(stamps), Expiration(tSet, WINDOW))]
  }

  class HandlerContext<R> {
    const cache: InMemoryCache?<Payload<R>>

    constructor (cache: InMemoryCache?<Payload<R>>)
      ensures this.cache == cache
    {
      this.cache := cache;
    }

    /** One request: the limiter reads the clock (now), then the cache does for Get and for Set. */
    method LimitRate(ip: string, now: int, tGet: int, tSet: int) returns (admitted: bool)
      modifies cache
      ensures cache == null ==> admitted
      ensures cache != null ==> admitted == (|Fetched(old(cache.items), ip, now, tGet)| < MAX_REQUESTS)
      ensures cache != null && !admitted ==> cache.items == AfterGet(old(cache.items), LogKey(ip), tGet)
      ensures cache != null && admitted ==>
        cache.items == Recorded(AfterGet(old(cache.items), LogKey(ip), tGet), ip,
                                Fetched(old(cache.items), ip, now, tGet) + [now], tSet)
      ensures cache != null && !admitted ==>
        "ratelimit:" + ip in old(cache.items) && old(cache.items)["ratelimit:" + ip].value.Stamps?
      ensures cache != null && admitted ==>
        && "ratelimit:" + ip in cache.items
        && cache.items["ratelimit:" + ip].expiration == tSet + 10_000_000_000
    {
      if cache == null {
        return true;
      }
      var key := "ratelimit:" + ip;
      var timestamps: seq<int> := [];
      var val := cache.Get(key, tGet);
      if val.Some? && val.value.Stamps? {
        timestamps := val.value.stamps;
        var cutoff := now - WINDOW;
        var filtered: seq<int> := [];
        for i := 0 to |timestamps|
          invariant filtered == Recent(timestamps[..i], cutoff)
        {
          assert timestamps[..i + 1][..i] == timestamps[..i];
          if timestamps[i] > cutoff {
            filtered := filtered + [timestamps[i]];
          }
        }
        assert timestamps[..|timestamps|] == timestamps;
        timestamps := filtered;
      }
      if |timestamps| >= MAX_REQUESTS {
        return false;
      }
      timestamps := timestamps + [now];
      cache.Set(key, Stamps(timestamps), WINDOW, tSet);
      return true;
    }
  }

  // ----- whole runs of one address, with any number of requests in flight

  /** A request in flight: it has read the clock, or it has been admitted and is about to write back.
      What it had seen when it started is the number of admissions stored by then. */
  datatype Phase = Started(now: int, seen: nat) | Allowed(now: int, seen: nat, stamps: seq<int>)

  /** The log lists the instants of all admissions in the order in which they are stored, seen what
      each of them had seen, and decisions the verdicts. These three are history: the limiter itself
      sees only the cache. */
  datatype State<R> = State(
    items: map<string, Item<Payload<R>>>, phases: map<int, Phase>, log: seq<int>, seen: seq<nat>, decisions: seq<bool>)

  /** The three clock readings of a request, and whatever else happens in the cache meanwhile. */
  datatype Event<R> = Start(id: int) | Fetch(id: int) | Store(id: int) | Other(op: Op<Payload<R>>)

  datatype TimedEvent<R> = At(now: int, event: Event<R>)

  /** Operations on other keys, and the janitor. */
  predicate Foreign<R>(op: Op<Payload<R>>, ip: string) {
    match op
    case Set(key, _, _) => key != LogKey(ip)
    case Get(key) => key != LogKey(ip)
    case Delete(key) => key != LogKey(ip)
    case Clear => false
    case Sweep => true
  }

  /** The cache operations that requests of another address make are foreign. */
  lemma OtherAddressesAreForeign<R>(ip: string, other: string, op: Op<Payload<R>>)
    requires ip != other && (op.Get? || op.Set?) && op.key == LogKey(other)
    ensures Foreign(op, ip)
  {
    assert LogKey(ip)[10..] == ip && LogKey(other)[10..] == other;
  }

  /** Events in their order within a request; lag bounds how late the cache reads the clock for Get. */
  predicate Enabled<R>(s: State<R>, e: TimedEvent<R>, ip: string, lag: int) {
    match e.event
    case Start(id) => id !in s.phases
    case Fetch(id) => id in s.phases && s.phases[id].Started? && e.now <= s.phases[id].now + lag
    case Store(id) => id in s.phases && s.phases[id].Allowed?
    case Other(op) => Foreign(op, ip)
  }

  function Advance<R>(s: State<R>, e: TimedEvent<R>, ip: string, lag: int): State<R>
    requires Enabled(s, e, ip, lag)
  {
    match e.event
    case Start(id) => s.(phases := s.phases[id := Started(e.now, |s.log|)])
    case Fetch(id) =>
      var p := s.phases[id];
      var stamps := Fetched(s.items, ip, p.now, e.now);
      var admitted := |stamps| < MAX_REQUESTS;
      s.(items := AfterGet(s.items, LogKey(ip), e.now),
         phases := if admitted then s.phases[id := Allowed(p.now, p.seen, stamps)] else s.phases - {id},
         decisions := s.decisions + [admitted])
    case Store(id) =>
      var p := s.phases[id];
      s.(items := Recorded(s.items, ip, p.stamps + [p.now], e.now),
         phases := s.phases - {id},
         log := s.log + [p.now],
         seen := s.seen + [p.seen])
    case Other(op) => s.(items := Step(s.items, Timed(e.now, op)))
  }

  predicate ValidRun<R>(s: State<R>, run: seq<TimedEvent<R>>, ip: string, lag: int, clock: int)
    decreases |run|
  {
    run == [] ||
    (clock <= run[0].now && Enabled(s, run[0], ip, lag)
     && ValidRun(Advance(s, run[0], ip, lag), run[1..], ip, lag, run[0].now))
  }

  function Run<R>(s: State<R>, run: seq<TimedEvent<R>>, ip: string, lag: int, clock: int): State<R>
    requires ValidRun(s, run, ip, lag, clock)
    decreases |run|
  {
    if run == [] then s else Run(Advance(s, run[0], ip, lag), run[1..], ip, lag, run[0].now)
  }

  function Initial<R>(): State<R> {
    State(map[], map[], [], [], [])
  }

  /** At no moment of the run more than m requests are in flight. */
  predicate InFlightAtMost<R>(s: State<R>, run: seq<TimedEvent<R>>, ip: string, lag: int, clock: int, m: nat)
    requires ValidRun(s, run, ip, lag, clock)
    decreases |run|
  {
    |s.phases| <= m
    && (run == [] || InFlightAtMost(Advance(s, run[0], ip, lag), run[1..], ip, lag, run[0].now, m))
  }

  /** Admission k had started before admission j was stored, which was stored first. */
  predicate Overlap<R>(s: State<R>, j: nat, k: nat) {
    j < k < |s.seen| && s.seen[k] <= j
  }

  /** No two admitted requests overlap; refused ones may overlap anything. */
  ghost predicate AdmittedOneByOne<R>(s: State<R>) {
    forall j: nat, k: nat :: !Overlap(s, j, k)
  }

  /** One event in front of a run. */
  lemma EventFirst<R>(
    s: State<R>, e: TimedEvent<R>, tail: seq<TimedEvent<R>>, ip: string, lag: int, clock: int, m: nat)
    requires clock <= e.now && Enabled(s, e, ip, lag)
    requires ValidRun(Advance(s, e, ip, lag), tail, ip, lag, e.now)
    ensures ValidRun(s, [e] + tail, ip, lag, clock)
    ensures Run(s, [e] + tail, ip, lag, clock) == Run(Advance(s, e, ip, lag), tail, ip, lag, e.now)
    ensures |s.phases| <= m && InFlightAtMost(Advance(s, e, ip, lag), tail, ip, lag, e.now, m) ==>
      InFlightAtMost(s, [e] + tail, ip, lag, clock, m)
  {
    assert ([e] + tail)[1..] == tail;
  }

  /** The events of one request alone. */
  function RequestEvents<R>(id: int, now: int, tGet: int, tSet: int, admitted: bool): seq<TimedEvent<R>> {
    [At(now, Start(id))] + ([At(tGet, Fetch(id))] + (if admitted then [At(tSet, Store(id))] + [] else []))
  }

  lemma EnterAndLeave(phases: map<int, Phase>, id: int, p: Phase, q: Phase)
    requires id !in phases
    ensures phases[id := p][id := q] - {id} == phases
  {
  }

  /** After an admitted request that has run alone. */
  function AfterAdmitted<R>(s: State<R>, ip: string, now: int, tGet: int, tSet: int): State<R> {
    State(Recorded(AfterGet(s.items, LogKey(ip), tGet), ip, Fetched(s.items, ip, now, tGet) + [now], tSet),
          s.phases, s.log + [now], s.seen + [|s.log|], s.decisions + [true])
  }

  lemma AdmittedSteps<R>(s: State<R>, id: int, ip: string, now: int, tGet: int, tSet: int)
    requires id !in s.phases && now <= tGet && |Fetched(s.items, ip, now, tGet)| < MAX_REQUESTS
    ensures var lag := tGet - now;
      && Enabled(s, At(now, Start(id)), ip, lag)
      && var s1 := Advance(s, At(now, Start(id)), ip, lag);
      && Enabled(s1, At(tGet, Fetch(id)), ip, lag)
      && var s2 := Advance(s1, At(tGet, Fetch(id)), ip, lag);
      && Enabled(s2, At(tSet, Store(id)), ip, lag)
      && Advance(s2, At(tSet, Store(id)), ip, lag) == AfterAdmitted(s, ip, now, tGet, tSet)
  {
    EnterAndLeave(s.phases, id, Started(now, |s.log|), Allowed(now, |s.log|, Fetched(s.items, ip, now, tGet)));
  }

  lemma ThreeEvents<R>(
    s: State<R>, a: TimedEvent<R>, b: TimedEvent<R>, c: TimedEvent<R>, ip: string, lag: int, clock: int)
    requires clock <= a.now <= b.now <= c.now && Enabled(s, a, ip, lag)
    requires Enabled(Advance(s, a, ip, lag), b, ip, lag)
    requires Enabled(Advance(Advance(s, a, ip, lag), b, ip, lag), c, ip, lag)
    ensures ValidRun(s, [a] + ([b] + ([c] + [])), ip, lag, clock)
    ensures Run(s, [a] + ([b] + ([c] + [])), ip, lag, clock)
         == Advance(Advance(Advance(s, a, ip, lag), b, ip, lag), c, ip, lag)
  {
    var s1 := Advance(s, a, ip, lag);
    var s2 := Advance(s1, b, ip, lag);
    EventFirst(s2, c, [], ip, lag, b.now, 0);
    EventFirst(s1, b, [c] + [], ip, lag, a.now, 0);
    EventFirst(s, a, [b] + ([c] + []), ip, lag, clock, 0);
  }

  lemma AdmittedAlone<R>(s: State<R>, id: int, ip: string, now: int, tGet: int, tSet: int)
    requires id !in s.phases && now <= tGet <= tSet && |Fetched(s.items, ip, now, tGet)| < MAX_REQUESTS
    ensures var run := RequestEvents<R>(id, now, tGet, tSet, true);
      && ValidRun(s, run, ip, tGet - now, now)
      && Run(s, run, ip, tGet - now, now) == AfterAdmitted(s, ip, now, tGet, tSet)
  {
    AdmittedSteps(s, id, ip, now, tGet, tSet);
    ThreeEvents(s, At(now, Start(id)), At(tGet, Fetch(id)), At(tSet, Store(id)), ip, tGet - now, now);
  }

  lemma RefusedAlone<R>(s: State<R>, id: int, ip: string, now: int, tGet: int, tSet: int)
    requires id !in s.phases && now <= tGet && |Fetched(s.items, ip, now, tGet)| >= MAX_REQUESTS
    ensures var run := RequestEvents<R>(id, now, tGet, tSet, false);
      && ValidRun(s, run, ip, tGet - now, now)
      && Run(s, run, ip, tGet - now, now)
         == s.(items := AfterGet(s.items, LogKey(ip), tGet), decisions := s.decisions + [false])
  {
    var lag := tGet - now;
    var a: TimedEvent<R>, b: TimedEvent<R> := At(now, Start(id)), At(tGet, Fetch(id));
    var s1 := Advance(s, a, ip, lag);
    var s2 := Advance(s1, b, ip, lag);
    assert s2.phases == s.phases;
    EventFirst(s1, b, [], ip, lag, now, 0);
    EventFirst(s, a, [b] + [], ip, lag, now, 0);
  }

  /** LimitRate is the three steps of the run, one after the other. */
  lemma RequestIsThreeSteps<R>(s: State<R>, id: int, ip: string, now: int, tGet: int, tSet: int)
    requires id !in s.phases && now <= tGet <= tSet
    ensures var stamps := Fetched(s.items, ip, now, tGet);
      var admitted := |stamps| < MAX_REQUESTS;
      var run := RequestEvents<R>(id, now, tGet, tSet, admitted);
      && ValidRun(s, run, ip, tGet - now, now)
      && var after := Run(s, run, ip, tGet - now, now);
         && after.phases == s.phases
         && after.decisions == s.decisions + [admitted]
         && after.log == (if admitted then s.log + [now] else s.log)
         && after.items == (if admitted then Recorded(AfterGet(s.items, LogKey(ip), tGet), ip, stamps + [now], tSet)
                            else AfterGet(s.items, LogKey(ip), tGet))
  {
    if |Fetched(s.items, ip, now, tGet)| < MAX_REQUESTS {
      AdmittedAlone(s, id, ip, now, tGet, tSet);
    } else {
      RefusedAlone(s, id, ip, now, tGet, tSet);
    }
  }

  ghost predicate Sorted(s: seq<int>) {
    forall i, j :: 0 <= i <= j < |s| ==> s[i] <= s[j]
  }

  /** A whole window apart, or at least apart by more than the window less the clock lag. */
  predicate Apart(a: int, b: int, lag: int) {
    b - a >= WINDOW || b - a > WINDOW - lag
  }

  ghost predicate Spaced(log: seq<int>, lag: int) {
    forall i :: 0 <= i && i + MAX_REQUESTS < |log| ==> Apart(log[i], log[i + MAX_REQUESTS], lag)
  }

  /** kept is the end of the log, and everything before it is far enough from the instant at. */
  ghost predicate Remembers(kept: seq<int>, log: seq<int>, at: int, lag: int) {
    && |kept| <= |log|
    && kept == log[|log| - |kept|..]
    && forall i :: 0 <= i < |log| - |kept| ==> Apart(log[i], at, lag)
  }

  /** The entry remembers what matters and outlives the window of the last admission. */
  ghost predicate EntryInvariant<R>(item: Item<Payload<R>>, log: seq<int>, lag: int) {
    && log != []
    && item.value.Stamps?
    && 1 <= |item.value.stamps| <= MAX_REQUESTS
    && (item.expiration == 0 || item.expiration >= log[|log| - 1] + WINDOW)
    && Remembers(item.value.stamps, log, log[|log| - 1], lag)
  }

  predicate WindowPassed(log: seq<int>, clock: int) {
    log == [] || clock > log[|log| - 1] + WINDOW
  }

  /** Either the entry is there, or the window of the last admission has passed. */
  ghost predicate StoreInvariant<R>(
    items: map<string, Item<Payload<R>>>, log: seq<int>, ip: string, clock: int, lag: int)
  {
    if LogKey(ip) in items then EntryInvariant(items[LogKey(ip)], log, lag) else WindowPassed(log, clock)
  }

  /** Every admission was stored by the instant at. */
  predicate LogUpTo(log: seq<int>, at: int) {
    log != [] ==> log[|log| - 1] <= at
  }

  /** A request in flight that has seen the whole log remembers what matters; nothing is known of the
      list that another one has read, and that one can no longer be admitted without overlap. */
  ghost predicate PhaseInvariant(p: Phase, log: seq<int>, clock: int, lag: int) {
    && p.now <= clock
    && p.seen <= |log|
    && (p.seen == |log| ==> LogUpTo(log, p.now))
    && (p.seen == |log| && p.Allowed? ==> |p.stamps| < MAX_REQUESTS && Remembers(p.stamps, log, p.now, lag))
  }

  ghost predicate Invariant<R>(s: State<R>, ip: string, clock: int, lag: int) {
    && |s.seen| == |s.log|
    && Sorted(s.log)
    && Spaced(s.log, lag)
    && StoreInvariant(s.items, s.log, ip, clock, lag)
    && LogUpTo(s.log, clock)
    && forall id :: id in s.phases ==> PhaseInvariant(s.phases[id], s.log, clock, lag)
  }

  lemma {:induction false} RecentDropsOld(stamps: seq<int>, cutoff: int)
    requires forall i :: 0 <= i < |stamps| ==> stamps[i] <= cutoff
    ensures Recent(stamps, cutoff) == []
  {
    if stamps != [] {
      RecentDropsOld(stamps[..|stamps| - 1], cutoff);
    }
  }

  /** Filtering a sorted list cuts off its beginning. */
  lemma {:induction false} RecentIsSuffix(stamps: seq<int>, cutoff: int)
    requires Sorted(stamps)
    ensures var r := Recent(stamps, cutoff); var k := |stamps| - |r|;
      && r == stamps[k..]
      && (forall i :: 0 <= i < k ==> stamps[i] <= cutoff)
      && (forall i :: k <= i < |stamps| ==> stamps[i] > cutoff)
  {
    var n := |stamps| - 1;
    if n < 0 || stamps[n] <= cutoff {
      RecentDropsOld(stamps, cutoff);
    } else {
      var front := stamps[..n];
      RecentIsSuffix(front, cutoff);
      var k := n - |Recent(front, cutoff)|;
      assert stamps[k..] == front[k..] + [stamps[n]];
    }
  }

  /** Dropping from a list that remembers enough the instants outside the window at now. */
  lemma FilterRemembers(stamps: seq<int>, log: seq<int>, now: int, lag: int)
    requires Sorted(log) && log != [] && log[|log| - 1] <= now && lag >= 0
    requires Remembers(stamps, log, log[|log| - 1], lag)
    ensures Remembers(Recent(stamps, now - WINDOW), log, now, lag)
  {
    RecentIsSuffix(stamps, now - WINDOW);
    var kept := Recent(stamps, now - WINDOW);
    var k := |log| - |stamps|;
    forall i | 0 <= i < |log| - |kept| ensures Apart(log[i], now, lag) {
      if i < k {
        assert Apart(log[i], log[|log| - 1], lag);
      } else {
        assert stamps[i - k] == log[i];
      }
    }
    assert kept == log[|log| - |kept|..];
  }

  /** Once the window of the last admission has passed, nothing need be remembered. */
  lemma ForgetAll(log: seq<int>, now: int, t: int, lag: int)
    requires Sorted(log) && t <= now + lag
    requires log != [] ==> t > log[|log| - 1] + WINDOW
    ensures Remembers([], log, now, lag)
  {
    forall i | 0 <= i < |log| ensures Apart(log[i], now, lag) {
      assert log[i] <= log[|log| - 1];
    }
  }

  predicate Live<R>(items: map<string, Item<Payload<R>>>, key: string, t: int) {
    key in items && !Expired(items[key], t)
  }

  lemma LiveEntryRemembers<R>(
    items: map<string, Item<Payload<R>>>, log: seq<int>, now: int, t: int, ip: string, clock: int, lag: int)
    requires StoreInvariant(items, log, ip, clock, lag) && Sorted(log) && lag >= 0 && LogUpTo(log, now)
    requires Live(items, LogKey(ip), t)
    ensures Remembers(Fetched(items, ip, now, t), log, now, lag)
  {
    var stamps := items[LogKey(ip)].value.stamps;
    assert Fetched(items, ip, now, t) == Recent(stamps, now - WINDOW);
    FilterRemembers(stamps, log, now, lag);
  }

  lemma MissFetchesNothing<R>(items: map<string, Item<Payload<R>>>, ip: string, now: int, t: int)
    requires !Live(items, LogKey(ip), t)
    ensures Fetched(items, ip, now, t) == []
  {
  }

  /** Where the cache has no live entry, the window of the last admission has passed. */
  lemma MissIsLate<R>(items: map<string, Item<Payload<R>>>, log: seq<int>, t: int, ip: string, clock: int, lag: int)
    requires StoreInvariant(items, log, ip, clock, lag) && clock <= t
    requires !Live(items, LogKey(ip), t)
    ensures log != [] ==> t > log[|log| - 1] + WINDOW
  {
  }

  lemma FetchRemembers<R>(
    items: map<string, Item<Payload<R>>>, log: seq<int>, now: int, t: int, ip: string, clock: int, lag: int)
    requires StoreInvariant(items, log, ip, clock, lag) && Sorted(log) && lag >= 0 && LogUpTo(log, now)
    requires clock <= t <= now + lag
    ensures Remembers(Fetched(items, ip, now, t), log, now, lag)
  {
    if Live(items, LogKey(ip), t) {
      LiveEntryRemembers(items, log, now, t, ip, clock, lag);
    } else {
      MissFetchesNothing(items, ip, now, t);
      MissIsLate(items, log, t, ip, clock, lag);
      ForgetAll(log, now, t, lag);
    }
  }

  lemma RecordKeepsLog(stamps: seq<int>, log: seq<int>, now: int, lag: int)
    requires Sorted(log) && Spaced(log, lag) && (log != [] ==> log[|log| - 1] <= now)
    requires |stamps| < MAX_REQUESTS && Remembers(stamps, log, now, lag)
    ensures Sorted(log + [now]) && Spaced(log + [now], lag)
    ensures Remembers(stamps + [now], log + [now], now, lag)
  {
    var longer := log + [now];
    assert stamps + [now] == longer[|longer| - |stamps + [now]|..];
    forall i | 0 <= i && i + MAX_REQUESTS < |longer| ensures Apart(longer[i], longer[i + MAX_REQUESTS], lag) {
      if i + MAX_REQUESTS < |log| {
        assert Apart(log[i], log[i + MAX_REQUESTS], lag);
      } else {
        assert longer[i] == log[i];
      }
    }
    forall i, j | 0 <= i <= j < |longer| ensures longer[i] <= longer[j] {
      if i < |log| {
        assert log[i] <= log[|log| - 1];
      }
    }
  }

  lemma StepKeepsStore<R>(
    items: map<string, Item<Payload<R>>>, log: seq<int>, op: Op<Payload<R>>, ip: string, clock: int, now: int, lag: int)
    requires StoreInvariant(items, log, ip, clock, lag) && clock <= now
    requires Foreign(op, ip) || op == Get(LogKey(ip))
    ensures StoreInvariant(Step(items, Timed(now, op)), log, ip, now, lag)
  {
    var key := LogKey(ip);
    var after := Step(items, Timed(now, op));
    assert key in after ==> key in items && after[key] == items[key];
    assert key in items && key !in after ==> Expired(items[key], now);
  }

  lemma LaterPhases<R>(s: State<R>, ip: string, clock: int, lag: int, now: int)
    requires Invariant(s, ip, clock, lag) && clock <= now
    ensures forall id :: id in s.phases ==> PhaseInvariant(s.phases[id], s.log, now, lag)
  {
  }

  lemma FetchKeepsInvariant<R>(s: State<R>, e: TimedEvent<R>, ip: string, clock: int, lag: int)
    requires Invariant(s, ip, clock, lag) && clock <= e.now && Enabled(s, e, ip, lag) && lag >= 0 && e.event.Fetch?
    ensures Invariant(Advance(s, e, ip, lag), ip, e.now, lag)
  {
    var p := s.phases[e.event.id];
    LaterPhases(s, ip, clock, lag, e.now);
    StepKeepsStore(s.items, s.log, Get(LogKey(ip)), ip, clock, e.now, lag);
    if p.seen == |s.log| {
      FetchRemembers(s.items, s.log, p.now, e.now, ip, clock, lag);
    }
  }

  /** An admission that overlaps no earlier one has seen the whole log. */
  lemma HasSeenAll<R>(s: State<R>, e: TimedEvent<R>, ip: string, clock: int, lag: int)
    requires Invariant(s, ip, clock, lag) && Enabled(s, e, ip, lag) && e.event.Store?
    requires AdmittedOneByOne(Advance(s, e, ip, lag))
    ensures s.phases[e.event.id].seen == |s.log|
  {
    var n := |s.log|;
    if n > 0 {
      assert !Overlap(Advance(s, e, ip, lag), n - 1, n);
    }
  }

  /** The other requests in flight have not seen the admission that is being stored. */
  lemma OthersFallBehind(phases: map<int, Phase>, log: seq<int>, at: int, clock: int, now: int, lag: int)
    requires forall id :: id in phases ==> PhaseInvariant(phases[id], log, clock, lag)
    requires clock <= now
    ensures forall id :: id in phases ==> PhaseInvariant(phases[id], log + [at], now, lag)
  {
  }

  lemma RecordKeepsStore<R>(
    items: map<string, Item<Payload<R>>>, stamps: seq<int>, log: seq<int>, ip: string, at: int, now: int, lag: int)
    requires |stamps| < MAX_REQUESTS && at <= now && Remembers(stamps + [at], log + [at], at, lag)
    ensures StoreInvariant(Recorded(items, ip, stamps + [at], now), log + [at], ip, now, lag)
  {
  }

  lemma StoreKeepsInvariant<R>(s: State<R>, e: TimedEvent<R>, ip: string, clock: int, lag: int)
    requires Invariant(s, ip, clock, lag) && clock <= e.now && Enabled(s, e, ip, lag) && lag >= 0 && e.event.Store?
    requires AdmittedOneByOne(Advance(s, e, ip, lag))
    ensures Invariant(Advance(s, e, ip, lag), ip, e.now, lag)
  {
    var p := s.phases[e.event.id];
    HasSeenAll(s, e, ip, clock, lag);
    assert PhaseInvariant(p, s.log, clock, lag);
    RecordKeepsLog(p.stamps, s.log, p.now, lag);
    RecordKeepsStore(s.items, p.stamps, s.log, ip, p.now, e.now, lag);
    OthersFallBehind(s.phases, s.log, p.now, clock, e.now, lag);
  }

  lemma AdvanceKeepsInvariant<R>(s: State<R>, e: TimedEvent<R>, ip: string, clock: int, lag: int)
    requires Invariant(s, ip, clock, lag) && clock <= e.now && Enabled(s, e, ip, lag) && lag >= 0
    requires AdmittedOneByOne(Advance(s, e, ip, lag))
    ensures Invariant(Advance(s, e, ip, lag), ip, e.now, lag)
  {
    match e.event
    case Start(_) => LaterPhases(s, ip, clock, lag, e.now);
    case Fetch(_) => FetchKeepsInvariant(s, e, ip, clock, lag);
    case Store(_) => StoreKeepsInvariant(s, e, ip, clock, lag);
    case Other(op) =>
      LaterPhases(s, ip, clock, lag, e.now);
      StepKeepsStore(s.items, s.log, op, ip, clock, e.now, lag);
  }

  lemma {:induction false} HistoryGrows<R>(s: State<R>, run: seq<TimedEvent<R>>, ip: string, lag: int, clock: int)
    requires ValidRun(s, run, ip, lag, clock)
    ensures s.seen <= Run(s, run, ip, lag, clock).seen
    ensures AdmittedOneByOne(Run(s, run, ip, lag, clock)) ==> AdmittedOneByOne(s)
    decreases |run|
  {
    if run != [] {
      HistoryGrows(Advance(s, run[0], ip, lag), run[1..], ip, lag, run[0].now);
    }
    var end := Run(s, run, ip, lag, clock);
    if AdmittedOneByOne(end) {
      forall j: nat, k: nat ensures !Overlap(s, j, k) {
        assert !Overlap(end, j, k);
      }
    }
  }

  lemma {:induction false} RunKeepsInvariant<R>(s: State<R>, run: seq<TimedEvent<R>>, ip: string, lag: int, clock: int)
    returns (end: int)
    requires ValidRun(s, run, ip, lag, clock) && Invariant(s, ip, clock, lag) && lag >= 0
    requires AdmittedOneByOne(Run(s, run, ip, lag, clock))
    ensures end == (if run == [] then clock else run[|run| - 1].now)
    ensures Invariant(Run(s, run, ip, lag, clock), ip, end, lag)
    decreases |run|
  {
    end := clock;
    if run != [] {
      var next := Advance(s, run[0], ip, lag);
      HistoryGrows(next, run[1..], ip, lag, run[0].now);
      AdvanceKeepsInvariant(s, run[0], ip, clock, lag);
      end := RunKeepsInvariant(next, run[1..], ip, lag, run[0].now);
    }
  }

  /** Over every run in which no two admitted requests overlap, whatever the cache forgets and however
      many refused requests overlap them: any admission and the fifth one after it are a window apart,
      give or take the lag of the cache's clock reading. */
  lemma AdmissionsAreSpaced<R>(run: seq<TimedEvent<R>>, ip: string, lag: int, clock: int)
    requires lag >= 0 && ValidRun(Initial<R>(), run, ip, lag, clock)
    requires AdmittedOneByOne(Run(Initial<R>(), run, ip, lag, clock))
    ensures var log := Run(Initial<R>(), run, ip, lag, clock).log;
      && Sorted(log)
      && forall i :: 0 <= i && i + 5 < |log| ==>
           log[i + 5] - log[i] >= 10_000_000_000 || log[i + 5] - log[i] > 10_000_000_000 - lag
  {
    var end := RunKeepsInvariant(Initial<R>(), run, ip, lag, clock);
    var log := Run(Initial<R>(), run, ip, lag, clock).log;
    forall i | 0 <= i && i + 5 < |log|
      ensures log[i + 5] - log[i] >= WINDOW || log[i + 5] - log[i] > WINDOW - lag
    {
      assert Apart(log[i], log[i + MAX_REQUESTS], lag);
    }
  }

  // ----- the bound is exact

  function Zeros(n: nat): seq<int> {
    seq(n, _ => 0)
  }

  function UpTo(n: nat): seq<nat> {
    seq(n, i requires 0 <= i < n => i)
  }

  function BurstItems<R>(ip: string, n: nat): map<string, Item<Payload<R>>> {
    if n == 0 then map[] else map[LogKey(ip) := Item(Stamps(Zeros(n)), WINDOW)]
  }

  /** After n requests, one at a time, all at instant 0. */
  function AfterBurst<R>(ip: string, n: nat): State<R> {
    State(BurstItems(ip, n), map[], Zeros(n), UpTo(n), seq(n, _ => true))
  }

  lemma {:induction false} RecentKeepsAll(n: nat, cutoff: int)
    requires cutoff < 0
    ensures Recent(Zeros(n), cutoff) == Zeros(n)
  {
    if n > 0 {
      assert Zeros(n)[..n - 1] == Zeros(n - 1);
      RecentKeepsAll(n - 1, cutoff);
    }
  }

  lemma BurstFetched<R>(ip: string, n: nat, now: int)
    requires 0 <= now < WINDOW
    ensures Fetched(BurstItems<R>(ip, n), ip, now, now) == Zeros(n)
    ensures AfterGet(BurstItems<R>(ip, n), LogKey(ip), now) == BurstItems<R>(ip, n)
  {
    RecentKeepsAll(n, now - WINDOW);
  }

  lemma BurstGrows<R>(ip: string, n: nat)
    ensures Zeros(n) + [0] == Zeros(n + 1) && UpTo(n) + [n] == UpTo(n + 1)
    ensures seq(n, _ => true) + [true] == seq(n + 1, _ => true)
    ensures Recorded(BurstItems<R>(ip, n), ip, Zeros(n + 1), 0) == BurstItems<R>(ip, n + 1)
  {
  }

  /** One more request at instant 0. */
  lemma OneMore<R>(ip: string, n: nat, lag: int)
    requires n < MAX_REQUESTS && lag >= 0
    ensures var s := AfterBurst<R>(ip, n);
      && Enabled(s, At(0, Start(0)), ip, lag)
      && var s1 := Advance(s, At(0, Start(0)), ip, lag);
      && |s1.phases| == 1
      && Enabled(s1, At(0, Fetch(0)), ip, lag)
      && var s2 := Advance(s1, At(0, Fetch(0)), ip, lag);
      && |s2.phases| == 1
      && Enabled(s2, At(0, Store(0)), ip, lag)
      && Advance(s2, At(0, Store(0)), ip, lag) == AfterBurst<R>(ip, n + 1)
  {
    BurstFetched<R>(ip, n, 0);
    AdmittedSteps(AfterBurst<R>(ip, n), 0, ip, 0, 0, 0);
    BurstGrows<R>(ip, n);
    assert map[][0 := Started(0, n)] == map[0 := Started(0, n)];
    assert map[][0 := Started(0, n)][0 := Allowed(0, n, Zeros(n))] == map[0 := Allowed(0, n, Zeros(n))];
  }

  /** A run from there to a given state, with at most m requests in flight. */
  ghost predicate Leads<R>(ip: string, n: nat, run: seq<TimedEvent<R>>, lag: int, m: nat, end: State<R>) {
    && ValidRun(AfterBurst<R>(ip, n), run, ip, lag, 0)
    && InFlightAtMost(AfterBurst<R>(ip, n), run, ip, lag, 0, m)
    && Run(AfterBurst<R>(ip, n), run, ip, lag, 0) == end
  }

  /** That request in front of a run. */
  lemma BurstStep<R>(ip: string, n: nat, tail: seq<TimedEvent<R>>, lag: int, m: nat, end: State<R>)
    returns (run: seq<TimedEvent<R>>)
    requires n < MAX_REQUESTS && lag >= 0 && m >= 1 && Leads(ip, n + 1, tail, lag, m, end)
    ensures Leads(ip, n, run, lag, m, end)
  {
    OneMore<R>(ip, n, lag);
    var a: TimedEvent<R>, b: TimedEvent<R>, c: TimedEvent<R> := At(0, Start(0)), At(0, Fetch(0)), At(0, Store(0));
    var s := AfterBurst<R>(ip, n);
    var s1 := Advance(s, a, ip, lag);
    var s2 := Advance(s1, b, ip, lag);
    EventFirst(s2, c, tail, ip, lag, 0, m);
    EventFirst(s1, b, [c] + tail, ip, lag, 0, m);
    EventFirst(s, a, [b] + ([c] + tail), ip, lag, 0, m);
    run := [a] + ([b] + ([c] + tail));
  }

  lemma {:induction false} BurstSteps<R>(ip: string, n: nat, tail: seq<TimedEvent<R>>, lag: int, m: nat, end: State<R>)
    returns (run: seq<TimedEvent<R>>)
    requires n <= MAX_REQUESTS && lag >= 0 && m >= 1 && Leads(ip, n, tail, lag, m, end)
    ensures Leads(ip, 0, run, lag, m, end)
  {
    run := tail;
    if n > 0 {
      run := BurstStep(ip, n - 1, tail, lag, m, end);
      run := BurstSteps(ip, n - 1, run, lag, m, end);
    }
  }

  lemma NoBurst<R>(ip: string)
    ensures AfterBurst<R>(ip, 0) == Initial<R>()
  {
  }

  lemma BurstFirst<R>(ip: string, n: nat, tail: seq<TimedEvent<R>>, lag: int, m: nat, end: State<R>)
    returns (run: seq<TimedEvent<R>>)
    requires n <= MAX_REQUESTS && lag >= 0 && m >= 1 && Leads(ip, n, tail, lag, m, end)
    ensures ValidRun(Initial<R>(), run, ip, lag, 0) && InFlightAtMost(Initial<R>(), run, ip, lag, 0, m)
    ensures Run(Initial<R>(), run, ip, lag, 0) == end
  {
    run := BurstSteps(ip, n, tail, lag, m, end);
    NoBurst<R>(ip);
  }

  /** The sixth request, after a burst of five. */
  lemma SixthRequest<R>(ip: string, lag: int) returns (run: seq<TimedEvent<R>>)
    requires 1 <= lag <= WINDOW + 1
    ensures ValidRun(AfterBurst<R>(ip, 5), run, ip, lag, 0)
    ensures InFlightAtMost(AfterBurst<R>(ip, 5), run, ip, lag, 0, 1)
    ensures Run(AfterBurst<R>(ip, 5), run, ip, lag, 0).log == [0, 0, 0, 0, 0, WINDOW - lag + 1]
  {
    var s := AfterBurst<R>(ip, 5);
    var a: TimedEvent<R>, b: TimedEvent<R>, c: TimedEvent<R> :=
      At(WINDOW - lag + 1, Start(0)), At(WINDOW + 1, Fetch(0)), At(WINDOW + 1, Store(0));
    var s1 := Advance(s, a, ip, lag);
    assert s1.phases == map[0 := Started(WINDOW - lag + 1, 5)];
    var s2 := Advance(s1, b, ip, lag);
    assert s2.phases == map[0 := Allowed(WINDOW - lag + 1, 5, [])];
    var s3 := Advance(s2, c, ip, lag);
    assert s3.phases == map[];
    EventFirst(s2, c, [], ip, lag, WINDOW + 1, 1);
    EventFirst(s1, b, [c] + [], ip, lag, WINDOW - lag + 1, 1);
    EventFirst(s, a, [b] + ([c] + []), ip, lag, 0, 1);
    run := [a] + ([b] + ([c] + []));
    assert s3.log == Zeros(5) + [WINDOW - lag + 1];
  }

  /** For every lag of the cache's clock reading some run, one request at a time, admits a sixth
      request exactly lag - 1 short of the window: the bound of AdmissionsAreSpaced cannot be improved. */
  lemma SpacingIsTight<R>(ip: string, lag: int) returns (run: seq<TimedEvent<R>>)
    requires 1 <= lag <= 10_000_000_001
    ensures ValidRun(Initial<R>(), run, ip, lag, 0) && InFlightAtMost(Initial<R>(), run, ip, lag, 0, 1)
    ensures Run(Initial<R>(), run, ip, lag, 0).log == [0, 0, 0, 0, 0, 10_000_000_000 - lag + 1]
  {
    run := SixthRequest<R>(ip, lag);
    run := BurstFirst(ip, 5, run, lag, 1, Run(AfterBurst<R>(ip, 5), run, ip, lag, 0));
  }

  // ----- requests that overlap

  /** After a burst of four, a request of instant u that is admitted and about to write back. */
  function OneAllowed<R>(ip: string, u: int): State<R> {
    AfterBurst<R>(ip, 4).(phases := map[1 := Allowed(u, 4, Zeros(4))], decisions := seq(5, _ => true))
  }

  /** And with it another one, of instant v. */
  function BothAllowed<R>(ip: string, u: int, v: int): State<R> {
    AfterBurst<R>(ip, 4).(phases := map[1 := Allowed(u, 4, Zeros(4)), 2 := Allowed(v, 4, Zeros(4))],
                          decisions := seq(6, _ => true))
  }

  lemma FirstAllowed<R>(ip: string, lag: int, u: int)
    requires lag >= 0 && 0 <= u < WINDOW
    ensures var s := AfterBurst<R>(ip, 4);
      && Enabled(s, At(u, Start(1)), ip, lag)
      && var s1 := Advance(s, At(u, Start(1)), ip, lag);
      && |s1.phases| == 1
      && Enabled(s1, At(u, Fetch(1)), ip, lag)
      && Advance(s1, At(u, Fetch(1)), ip, lag) == OneAllowed<R>(ip, u)
  {
    var s := AfterBurst<R>(ip, 4);
    BurstFetched<R>(ip, 4, u);
    var s1 := Advance(s, At(u, Start(1)), ip, lag);
    assert s1.phases == map[1 := Started(u, 4)];
    var s2 := Advance(s1, At(u, Fetch(1)), ip, lag);
    assert s2.phases == map[1 := Allowed(u, 4, Zeros(4))];
    assert s2.decisions == seq(5, _ => true);
  }

  lemma SecondAllowed<R>(ip: string, lag: int, u: int, v: int)
    requires lag >= 0 && 0 <= v < WINDOW
    ensures var s := OneAllowed<R>(ip, u);
      && Enabled(s, At(v, Start(2)), ip, lag)
      && var s1 := Advance(s, At(v, Start(2)), ip, lag);
      && |s1.phases| == 2
      && Enabled(s1, At(v, Fetch(2)), ip, lag)
      && Advance(s1, At(v, Fetch(2)), ip, lag) == BothAllowed<R>(ip, u, v)
  {
    var s := OneAllowed<R>(ip, u);
    BurstFetched<R>(ip, 4, v);
    var s1 := Advance(s, At(v, Start(2)), ip, lag);
    assert s1.phases == map[1 := Allowed(u, 4, Zeros(4)), 2 := Started(v, 4)];
    assert s1.phases.Keys == {1, 2};
    var s2 := Advance(s1, At(v, Fetch(2)), ip, lag);
    assert s2.phases == BothAllowed<R>(ip, u, v).phases;
    assert s2.decisions == BothAllowed<R>(ip, u, v).decisions;
  }

  /** Each of them writes the list that it has read, with its own instant. */
  lemma BothStore<R>(ip: string, lag: int, u: int, v: int) returns (run: seq<TimedEvent<R>>)
    requires lag >= 0
    ensures ValidRun(BothAllowed<R>(ip, u, v), run, ip, lag, v)
    ensures InFlightAtMost(BothAllowed<R>(ip, u, v), run, ip, lag, v, 2)
    ensures var s := Run(BothAllowed<R>(ip, u, v), run, ip, lag, v);
      && s.log == [0, 0, 0, 0, u, v] && s.decisions == seq(6, _ => true)
      && s.items == map[LogKey(ip) := Item(Stamps([0, 0, 0, 0, v]), v + WINDOW)]
  {
    var s := BothAllowed<R>(ip, u, v);
    var a: TimedEvent<R>, b: TimedEvent<R> := At(v, Store(1)), At(v, Store(2));
    var s1 := Advance(s, a, ip, lag);
    assert s1.phases == map[2 := Allowed(v, 4, Zeros(4))];
    var s2 := Advance(s1, b, ip, lag);
    assert s2.phases == map[];
    EventFirst(s1, b, [], ip, lag, v, 2);
    EventFirst(s, a, [b] + [], ip, lag, v, 2);
    run := [a] + ([b] + []);
    assert s2.log == Zeros(4) + [u] + [v];
    assert Zeros(4) + [v] == [0, 0, 0, 0, v];
    assert s2.items == map[LogKey(ip) := Item(Stamps(Zeros(4) + [v]), v + WINDOW)];
  }

  /** The two of them in front of a run. */
  lemma PairFirst<R>(ip: string, lag: int, u: int, v: int, tail: seq<TimedEvent<R>>) returns (run: seq<TimedEvent<R>>)
    requires lag >= 0 && 0 <= u <= v < WINDOW
    requires ValidRun(BothAllowed<R>(ip, u, v), tail, ip, lag, v)
    requires InFlightAtMost(BothAllowed<R>(ip, u, v), tail, ip, lag, v, 2)
    ensures ValidRun(AfterBurst<R>(ip, 4), run, ip, lag, 0)
    ensures InFlightAtMost(AfterBurst<R>(ip, 4), run, ip, lag, 0, 2)
    ensures Run(AfterBurst<R>(ip, 4), run, ip, lag, 0) == Run(BothAllowed<R>(ip, u, v), tail, ip, lag, v)
  {
    FirstAllowed<R>(ip, lag, u);
    SecondAllowed<R>(ip, lag, u, v);
    var s := AfterBurst<R>(ip, 4);
    var a: TimedEvent<R>, b: TimedEvent<R>, c: TimedEvent<R>, d: TimedEvent<R> :=
      At(u, Start(1)), At(u, Fetch(1)), At(v, Start(2)), At(v, Fetch(2));
    var s1 := Advance(s, a, ip, lag);
    var s2 := Advance(s1, b, ip, lag);
    var s3 := Advance(s2, c, ip, lag);
    EventFirst(s3, d, tail, ip, lag, v, 2);
    EventFirst(s2, c, [d] + tail, ip, lag, u, 2);
    EventFirst(s1, b, [c] + ([d] + tail), ip, lag, u, 2);
    EventFirst(s, a, [b] + ([c] + ([d] + tail)), ip, lag, 0, 2);
    run := [a] + ([b] + ([c] + ([d] + tail)));
  }

  lemma {:induction false} RecentKeepsLater(stamps: seq<int>, cutoff: int)
    requires forall i :: 0 <= i < |stamps| ==> stamps[i] > cutoff
    ensures Recent(stamps, cutoff) == stamps
  {
    if stamps != [] {
      RecentKeepsLater(stamps[..|stamps| - 1], cutoff);
    }
  }

  lemma StoredAndLogged(v: int, u: int)
    requires 0 <= u <= v < WINDOW
    ensures Recent([0, 0, 0, 0, v], v - WINDOW) == [0, 0, 0, 0, v]
    ensures Recent([0, 0, 0, 0, u, v], v - WINDOW) == [0, 0, 0, 0, u, v]
  {
    RecentKeepsLater([0, 0, 0, 0, v], v - WINDOW);
    RecentKeepsLater([0, 0, 0, 0, u, v], v - WINDOW);
  }

  /** With two requests in flight the limit fails, whatever the lag: four admissions at instant 0 are
      followed by two requests, of any instants u and v in the window, that both fetch before either
      stores. Both are admitted, six admissions lie inside one window, and the list has forgotten u. */
  lemma OverlapExceedsLimit<R>(ip: string, lag: int, u: int, v: int) returns (run: seq<TimedEvent<R>>)
    requires lag >= 0 && 0 <= u <= v < WINDOW
    ensures ValidRun(Initial<R>(), run, ip, lag, 0) && InFlightAtMost(Initial<R>(), run, ip, lag, 0, 2)
    ensures var s := Run(Initial<R>(), run, ip, lag, 0);
      && s.decisions == seq(6, _ => true)
      && s.log == [0, 0, 0, 0, u, v] && s.log[5] - s.log[0] < WINDOW
      && Recent(s.log, v - WINDOW) == s.log
      && Fetched(s.items, ip, v, v) == [0, 0, 0, 0, v]
  {
    run := BothStore<R>(ip, lag, u, v);
    run := PairFirst(ip, lag, u, v, run);
    run := BurstFirst(ip, 4, run, lag, 2, Run(AfterBurst<R>(ip, 4), run, ip, lag, 0));
    StoredAndLogged(v, u);
  }

  // ----- how many requests may be in flight

  lemma OnlyKey<K, V>(m: map<K, V>, k: K)
    requires |m| <= 1 && k in m
    ensures m - {k} == map[]
  {
    assert m.Keys - {k} == {} by {
      assert |m.Keys - {k}| == |m.Keys| - 1;
    }
  }

  /** One request at a time: whatever is in flight has seen the whole log. */
  ghost predicate Serial<R>(s: State<R>) {
    && |s.seen| == |s.log|
    && (forall k :: 0 <= k < |s.seen| ==> s.seen[k] == k)
    && forall id :: id in s.phases ==> s.phases[id].seen == |s.log|
  }

  lemma {:induction false} OneInFlightIsSerial<R>(
    s: State<R>, run: seq<TimedEvent<R>>, ip: string, lag: int, clock: int)
    requires ValidRun(s, run, ip, lag, clock) && InFlightAtMost(s, run, ip, lag, clock, 1) && Serial(s)
    ensures Serial(Run(s, run, ip, lag, clock))
    decreases |run|
  {
    if run != [] {
      if run[0].event.Store? {
        OnlyKey(s.phases, run[0].event.id);
      }
      OneInFlightIsSerial(Advance(s, run[0], ip, lag), run[1..], ip, lag, run[0].now);
    }
  }

  lemma {:induction false} InFlightMonotone<R>(
    s: State<R>, run: seq<TimedEvent<R>>, ip: string, lag: int, clock: int, m: nat, n: nat)
    requires ValidRun(s, run, ip, lag, clock) && InFlightAtMost(s, run, ip, lag, clock, m) && m <= n
    ensures InFlightAtMost(s, run, ip, lag, clock, n)
    decreases |run|
  {
    if run != [] {
      InFlightMonotone(Advance(s, run[0], ip, lag), run[1..], ip, lag, run[0].now, m, n);
    }
  }

  /** Every run of the address with at most m requests in flight is spaced. */
  ghost predicate SafeUpTo<R(!new)>(m: nat, ip: string, lag: int) {
    forall run: seq<TimedEvent<R>>, clock: int ::
      ValidRun(Initial<R>(), run, ip, lag, clock) && InFlightAtMost(Initial<R>(), run, ip, lag, clock, m) ==>
        Spaced(Run(Initial<R>(), run, ip, lag, clock).log, lag)
  }

  lemma OneInFlightIsSpaced<R>(run: seq<TimedEvent<R>>, ip: string, lag: int, clock: int)
    requires lag >= 0 && ValidRun(Initial<R>(), run, ip, lag, clock)
    requires InFlightAtMost(Initial<R>(), run, ip, lag, clock, 1)
    ensures Spaced(Run(Initial<R>(), run, ip, lag, clock).log, lag)
  {
    OneInFlightIsSerial(Initial<R>(), run, ip, lag, clock);
    assert AdmittedOneByOne(Run(Initial<R>(), run, ip, lag, clock));
    var end := RunKeepsInvariant(Initial<R>(), run, ip, lag, clock);
  }

  /** The limiter keeps its bound on all runs with at most m requests of the address in flight if and
      only if m is at most one. (Beyond a lag of a whole window the bound says nothing.) */
  lemma SpacedIffOneInFlight<R(!new)>(m: nat, ip: string, lag: int)
    requires 0 <= lag <= WINDOW
    ensures SafeUpTo<R>(m, ip, lag) <==> m <= 1
  {
    if m <= 1 {
      forall run: seq<TimedEvent<R>>, clock: int
        | ValidRun(Initial<R>(), run, ip, lag, clock) && InFlightAtMost(Initial<R>(), run, ip, lag, clock, m)
        ensures Spaced(Run(Initial<R>(), run, ip, lag, clock).log, lag)
      {
        InFlightMonotone(Initial<R>(), run, ip, lag, clock, m, 1);
        OneInFlightIsSpaced(run, ip, lag, clock);
      }
    } else {
      var run := OverlapExceedsLimit<R>(ip, lag, 0, 0);
      InFlightMonotone(Initial<R>(), run, ip, lag, 0, 2, m);
      var log := Run(Initial<R>(), run, ip, lag, 0).log;
      assert !Apart(log[0], log[0 + MAX_REQUESTS], lag);
      assert !Spaced(log, lag);
    }
  }

  // ----- refinement of a limiter that forgets nothing

  datatype IdealPhase = IdealStarted(now: int) | IdealAllowed(now: int)

  /** The ideal limiter: the full log of admissions and nothing else. */
  datatype Ideal = Ideal(phases: map<int, IdealPhase>, log: seq<int>, decisions: seq<bool>)

  predicate IdealReady(m: Ideal, id: int) {
    id in m.phases && m.phases[id].IdealStarted?
  }

  function IdealAdvance<R>(m: Ideal, e: TimedEvent<R>): Ideal {
    match e.event
    case Start(id) => m.(phases := m.phases[id := IdealStarted(e.now)])
    case Fetch(id) =>
      if !IdealReady(m, id) then m
      else
        var now := m.phases[id].now;
        var admitted := |Recent(m.log, now - WINDOW)| < MAX_REQUESTS;
        m.(phases := if admitted then m.phases[id := IdealAllowed(now)] else m.phases - {id},
           decisions := m.decisions + [admitted])
    case Store(id) =>
      if id !in m.phases then m else m.(phases := m.phases - {id}, log := m.log + [m.phases[id].now])
    case Other(_) => m
  }

  function IdealRun<R>(m: Ideal, run: seq<TimedEvent<R>>): Ideal
    decreases |run|
  {
    if run == [] then m else IdealRun(IdealAdvance(m, run[0]), run[1..])
  }

  function ForgetList(p: Phase): IdealPhase {
    if p.Started? then IdealStarted(p.now) else IdealAllowed(p.now)
  }

  function ForgetLists(phases: map<int, Phase>): map<int, IdealPhase> {
    map id | id in phases :: ForgetList(phases[id])
  }

  function Forget<R>(s: State<R>): Ideal {
    Ideal(ForgetLists(s.phases), s.log, s.decisions)
  }

  lemma ForgetEnter(phases: map<int, Phase>, id: int, p: Phase)
    ensures ForgetLists(phases[id := p]) == ForgetLists(phases)[id := ForgetList(p)]
  {
  }

  lemma ForgetLeave(phases: map<int, Phase>, id: int)
    ensures ForgetLists(phases - {id}) == ForgetLists(phases) - {id}
  {
  }

  lemma {:induction false} RecentMembers(stamps: seq<int>, cutoff: int)
    ensures forall x :: x in Recent(stamps, cutoff) ==> x > cutoff
  {
    if stamps != [] {
      RecentMembers(stamps[..|stamps| - 1], cutoff);
    }
  }

  lemma RecentAreRecent<R>(items: map<string, Item<Payload<R>>>, ip: string, now: int, t: int)
    ensures forall x :: x in Fetched(items, ip, now, t) ==> x > now - WINDOW
  {
    match Lookup<Payload<R>>(items, LogKey(ip), t)
    case Some(Stamps(stamps)) => RecentMembers(stamps, now - WINDOW);
    case _ =>
  }

  /** The end of a sorted log that has all of the window and nothing else is the window. */
  lemma WindowIsUnique(kept: seq<int>, log: seq<int>, now: int)
    requires Sorted(log) && Remembers(kept, log, now, 0)
    requires forall x :: x in kept ==> x > now - WINDOW
    ensures kept == Recent(log, now - WINDOW)
  {
    RecentIsSuffix(log, now - WINDOW);
    var full := Recent(log, now - WINDOW);
    if kept != [] {
      var a := |log| - |kept|;
      assert log[a] == kept[0] && kept[0] in kept;
      assert a >= |log| - |full|;
    }
    if full != [] {
      var b := |log| - |full|;
      assert log[b] == full[0];
      assert !Apart(log[b], now, 0);
      assert b >= |log| - |kept|;
    }
  }

  /** With no lag the list a request works with is the part of the full log inside its window. */
  lemma FetchSeesWindow<R>(s: State<R>, id: int, t: int, ip: string, clock: int)
    requires Invariant(s, ip, clock, 0) && id in s.phases && clock <= t <= s.phases[id].now
    ensures Fetched(s.items, ip, s.phases[id].now, t) == Recent(s.log, s.phases[id].now - WINDOW)
  {
    var now := s.phases[id].now;
    assert PhaseInvariant(s.phases[id], s.log, clock, 0);
    FetchRemembers(s.items, s.log, now, t, ip, clock, 0);
    RecentAreRecent(s.items, ip, now, t);
    WindowIsUnique(Fetched(s.items, ip, now, t), s.log, now);
  }

  lemma FetchOfWindowRefines<R>(s: State<R>, e: TimedEvent<R>, ip: string)
    requires Enabled(s, e, ip, 0) && e.event.Fetch?
    requires var now := s.phases[e.event.id].now; Fetched(s.items, ip, now, e.now) == Recent(s.log, now - WINDOW)
    ensures Forget(Advance(s, e, ip, 0)) == IdealAdvance(Forget(s), e)
  {
    var id := e.event.id;
    var p := s.phases[id];
    ForgetEnter(s.phases, id, Allowed(p.now, p.seen, Fetched(s.items, ip, p.now, e.now)));
    ForgetLeave(s.phases, id);
  }

  lemma FetchRefinesIdeal<R>(s: State<R>, e: TimedEvent<R>, ip: string, clock: int)
    requires Invariant(s, ip, clock, 0) && clock <= e.now && Enabled(s, e, ip, 0) && e.event.Fetch?
    ensures Forget(Advance(s, e, ip, 0)) == IdealAdvance(Forget(s), e)
  {
    FetchSeesWindow(s, e.event.id, e.now, ip, clock);
    FetchOfWindowRefines(s, e, ip);
  }

  lemma AdvanceRefinesIdeal<R>(s: State<R>, e: TimedEvent<R>, ip: string, clock: int)
    requires Invariant(s, ip, clock, 0) && clock <= e.now && Enabled(s, e, ip, 0)
    ensures Forget(Advance(s, e, ip, 0)) == IdealAdvance(Forget(s), e)
  {
    match e.event
    case Start(id) => ForgetEnter(s.phases, id, Started(e.now, |s.log|));
    case Fetch(_) => FetchRefinesIdeal(s, e, ip, clock);
    case Store(id) => ForgetLeave(s.phases, id);
    case Other(_) =>
  }

  lemma {:induction false} RunRefinesIdeal<R>(s: State<R>, run: seq<TimedEvent<R>>, ip: string, clock: int)
    requires ValidRun(s, run, ip, 0, clock) && Invariant(s, ip, clock, 0)
    requires AdmittedOneByOne(Run(s, run, ip, 0, clock))
    ensures Forget(Run(s, run, ip, 0, clock)) == IdealRun(Forget(s), run)
    decreases |run|
  {
    if run != [] {
      var next := Advance(s, run[0], ip, 0);
      HistoryGrows(next, run[1..], ip, 0, run[0].now);
      AdvanceRefinesIdeal(s, run[0], ip, clock);
      AdvanceKeepsInvariant(s, run[0], ip, clock, 0);
      RunRefinesIdeal(next, run[1..], ip, run[0].now);
    }
  }

  /** When limiter and cache agree on the clock and no two admitted requests overlap, the limiter over
      the forgetting cache takes exactly the decisions of one that counts all earlier admissions inside
      the window; refused requests leave no trace, and the stored list is sorted and holds at most five
      instants. */
  lemma LimiterRefinesIdeal<R>(run: seq<TimedEvent<R>>, ip: string, clock: int)
    requires ValidRun(Initial<R>(), run, ip, 0, clock)
    requires AdmittedOneByOne(Run(Initial<R>(), run, ip, 0, clock))
    ensures var s := Run(Initial<R>(), run, ip, 0, clock);
      var ideal := IdealRun(Ideal(map[], [], []), run);
      && s.decisions == ideal.decisions
      && s.log == ideal.log
      && (LogKey(ip) in s.items ==> var stamps := s.items[LogKey(ip)].value;
            stamps.Stamps? && Sorted(stamps.stamps) && |stamps.stamps| <= 5 && |stamps.stamps| <= |s.log|
            && stamps.stamps == s.log[|s.log| - |stamps.stamps|..])
  {
    RunRefinesIdeal(Initial<R>(), run, ip, clock);
    assert Forget(Initial<R>()) == Ideal(map[], [], []);
    var end := RunKeepsInvariant(Initial<R>(), run, ip, 0, clock);
  }

  /** The earlier admissions that are less than 10 s older than an instant. */
  function LessThanTenSecondsOlder(log: seq<int>, now: int): set<int> {
    set i | 0 <= i < |log| && now - log[i] < 10_000_000_000
  }

  lemma {:induction false} RecentCount(log: seq<int>, now: int)
    ensures |Recent(log, now - WINDOW)| == |LessThanTenSecondsOlder(log, now)|
  {
    if log != [] {
      var n := |log| - 1;
      RecentCount(log[..n], now);
      assert LessThanTenSecondsOlder(log, now)
          == LessThanTenSecondsOlder(log[..n], now) + (if log[n] > now - WINDOW then {n} else {});
    }
  }

  lemma VerdictOnWindow<R>(s: State<R>, e: TimedEvent<R>, ip: string)
    requires Enabled(s, e, ip, 0) && e.event.Fetch?
    requires var now := s.phases[e.event.id].now; Fetched(s.items, ip, now, e.now) == Recent(s.log, now - WINDOW)
    ensures Advance(s, e, ip, 0).decisions
         == s.decisions + [|LessThanTenSecondsOlder(s.log, s.phases[e.event.id].now)| < 5]
  {
    RecentCount(s.log, s.phases[e.event.id].now);
  }

  lemma VerdictCounts<R>(s: State<R>, e: TimedEvent<R>, ip: string, clock: int)
    requires Invariant(s, ip, clock, 0) && clock <= e.now && Enabled(s, e, ip, 0) && e.event.Fetch?
    ensures Advance(s, e, ip, 0).decisions
         == s.decisions + [|LessThanTenSecondsOlder(s.log, s.phases[e.event.id].now)| < 5]
  {
    FetchSeesWindow(s, e.event.id, e.now, ip, clock);
    VerdictOnWindow(s, e, ip);
  }

  /** The verdicts in numbers, over every run on which limiter and cache agree on the clock and no two
      admitted requests overlap: the request that fetches next is admitted if and only if fewer than
      five admissions are less than 10 s older than its clock reading. */
  lemma VerdictsCountAdmissions<R>(run: seq<TimedEvent<R>>, e: TimedEvent<R>, ip: string, clock: int)
    requires ValidRun(Initial<R>(), run, ip, 0, clock)
    requires AdmittedOneByOne(Run(Initial<R>(), run, ip, 0, clock))
    requires Enabled(Run(Initial<R>(), run, ip, 0, clock), e, ip, 0) && e.event.Fetch?
    requires (if run == [] then clock else run[|run| - 1].now) <= e.now
    ensures var s := Run(Initial<R>(), run, ip, 0, clock);
      Advance(s, e, ip, 0).decisions
        == s.decisions + [|LessThanTenSecondsOlder(s.log, s.phases[e.event.id].now)| < 5]
  {
    var end := RunKeepsInvariant(Initial<R>(), run, ip, 0, clock);
    VerdictCounts(Run(Initial<R>(), run, ip, 0, clock), e, ip, end);
  }
}
