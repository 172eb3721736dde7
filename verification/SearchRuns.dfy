/** Runs of many searches over one cache (server/handlers.go, SearchSingle, and cache/cache.go). A
    search touches the cache twice, to look its key up and to keep a fresh response; between the two,
    other searches, the limiter and the janitor do what they like. */
module SearchRuns {
  import opened TtlCache
  import opened CacheKey
  import opened EngineRegistry
  import opened Ranking
  import opened SearchPipeline
  import opened Text
  import RateLimiter

  type CacheOp = Op<RateLimiter.Payload<SearchResponse>>

  /** A request, its plan and key, the registry as the search finds it, its surroundings, its reply. */
  datatype Search = Search(
    req: Request, plan: Plan, key: string, view: map<string, EngineInfo>, w: World, reply: Reply)

  /** Which searches are possible at all, and which keys are used for searches only. */
  datatype Rules = Rules(possible: Search -> bool, ours: string -> bool)

  /** A search asks the cache, and keeps its response when that is fresh and has results. Whatever else
      happens in the cache sets no page under the keys of searches. */
  datatype Event = Ask(id: int, s: Search) | Keep(id: int, s: Search) | Aside(now: int, op: CacheOp)

  /** The cache, and the searches that are about to keep their response. */
  datatype Shared = Shared(items: Items, waiting: map<int, Search>)

  function Instant(e: Event): int {
    match e
    case Ask(_, s) => s.w.tGet
    case Keep(_, s) => s.w.tSet
    case Aside(now, _) => now
  }

  predicate Keeps(s: Search) {
    s.reply.Fresh? && s.reply.response.results != []
  }

  ghost predicate Enabled(m: Shared, e: Event, rules: Rules) {
    match e
    case Ask(id, s) =>
      && id !in m.waiting
      && rules.possible(s) && rules.ours(s.key)
      && var page := CachedPage(m.items, s.key, s.w.tGet);
         if page.Some? then s.reply == Hit(page.value) else s.reply.Fresh?
    case Keep(id, s) => id in m.waiting && m.waiting[id] == s
    case Aside(_, op) => !(op.Set? && op.value.Page? && rules.ours(op.key))
  }

  function Kept(s: Search, ttl: int): Item<RateLimiter.Payload<SearchResponse>>
    requires Keeps(s)
  {
    Item(RateLimiter.Page(s.reply.response), Expiration(s.w.tSet, ttl))
  }

  /** A search that keeps nothing leaves the cache alone. */
  function After(m: Shared, e: Event, ttl: int): Shared {
    match e
    case Ask(id, s) =>
      Shared(AfterGet(m.items, s.key, s.w.tGet), if Keeps(s) then m.waiting[id := s] else m.waiting)
    case Keep(id, s) =>
      Shared(if Keeps(s) then m.items[s.key := Kept(s, ttl)] else m.items, m.waiting - {id})
    case Aside(now, op) => m.(items := Step(m.items, Timed(now, op)))
  }

  function CacheAt(trace: seq<Event>, n: nat, ttl: int): Shared
    requires n <= |trace|
  {
    if n == 0 then Shared(map[], map[]) else After(CacheAt(trace, n - 1, ttl), trace[n - 1], ttl)
  }

  ghost predicate ValidAt(trace: seq<Event>, n: nat, ttl: int, rules: Rules) {
    n < |trace| ==> Enabled(CacheAt(trace, n, ttl), trace[n], rules)
  }

  ghost predicate ValidTrace(trace: seq<Event>, ttl: int, rules: Rules) {
    forall n: nat :: ValidAt(trace, n, ttl, rules)
  }

  ghost predicate InOrder(trace: seq<Event>) {
    forall i, j :: 0 <= i <= j < |trace| ==> Instant(trace[i]) <= Instant(trace[j])
  }

  // ----- where a hit comes from

  predicate Writes(e: Event, key: string) {
    match e
    case Ask(_, _) => false
    case Keep(_, s) => s.key == key
    case Aside(_, op) => op.Clear? || ((op.Set? || op.Delete?) && op.key == key)
  }

  ghost predicate Untouched(trace: seq<Event>, key: string, m: nat, n: nat) {
    forall k :: m < k < n <= |trace| ==> !Writes(trace[k], key)
  }

  /** What is waiting to be kept is a fresh response with results. */
  ghost predicate WaitingIsFresh(m: Shared, rules: Rules) {
    forall id :: id in m.waiting ==> Keeps(m.waiting[id]) && rules.possible(m.waiting[id])
  }

  lemma StepKeepsWaiting(m: Shared, e: Event, ttl: int, rules: Rules)
    requires Enabled(m, e, rules) && WaitingIsFresh(m, rules)
    ensures WaitingIsFresh(After(m, e, ttl), rules)
  {
  }

  lemma {:induction false} AlwaysFresh(trace: seq<Event>, ttl: int, rules: Rules, n: nat)
    requires n <= |trace| && ValidTrace(trace, ttl, rules)
    ensures WaitingIsFresh(CacheAt(trace, n, ttl), rules)
  {
    if n > 0 {
      AlwaysFresh(trace, ttl, rules, n - 1);
      assert ValidAt(trace, n - 1, ttl, rules);
      StepKeepsWaiting(CacheAt(trace, n - 1, ttl), trace[n - 1], ttl, rules);
    }
  }

  lemma KeepIsFresh(trace: seq<Event>, ttl: int, rules: Rules, m: nat)
    requires m < |trace| && trace[m].Keep? && ValidTrace(trace, ttl, rules)
    ensures Keeps(trace[m].s) && rules.possible(trace[m].s)
  {
    AlwaysFresh(trace, ttl, rules, m);
    assert ValidAt(trace, m, ttl, rules);
  }

  ghost predicate HoldsPage(items: Items, key: string) {
    key in items && items[key].value.Page?
  }

  /** A page in the cache was kept by the last event that wrote its key. */
  lemma {:induction false} PageWasKept(trace: seq<Event>, ttl: int, rules: Rules, n: nat, key: string)
    returns (m: nat)
    requires n <= |trace| && ValidTrace(trace, ttl, rules)
    requires rules.ours(key) && HoldsPage(CacheAt(trace, n, ttl).items, key)
    ensures m < n && trace[m].Keep? && trace[m].s.key == key && Keeps(trace[m].s)
    ensures CacheAt(trace, n, ttl).items[key] == Kept(trace[m].s, ttl)
    ensures Untouched(trace, key, m, n)
  {
    var before := CacheAt(trace, n - 1, ttl);
    var e := trace[n - 1];
    assert ValidAt(trace, n - 1, ttl, rules);
    if e.Keep? && e.s.key == key {
      KeepIsFresh(trace, ttl, rules, n - 1);
      m := n - 1;
    } else {
      assert !Writes(e, key);
      assert HoldsPage(before.items, key);
      m := PageWasKept(trace, ttl, rules, n - 1, key);
    }
  }

  /** Not expired: no time to live, the expiration that means never, or not yet over. */
  predicate Lives(s: Search, ttl: int, now: int) {
    ttl <= 0 || s.w.tSet + ttl == 0 || now <= s.w.tSet + ttl
  }

  /** In every run, whatever searches, requests to the limiter, sweeps and other operations are
      interleaved: a hit is the fresh response with results that was last kept under the key, and it is
      served within its time to live. */
  lemma HitReplaysLastFresh(trace: seq<Event>, ttl: int, rules: Rules, n: nat) returns (m: nat)
    requires ValidTrace(trace, ttl, rules) && n < |trace| && trace[n].Ask? && trace[n].s.reply.Hit?
    ensures m < n && trace[m].Keep? && trace[m].s.key == trace[n].s.key && Untouched(trace, trace[n].s.key, m, n)
    ensures trace[m].s.reply == Reply.Fresh(trace[n].s.reply.response) && trace[n].s.reply.response.results != []
    ensures rules.possible(trace[m].s)
    ensures Lives(trace[m].s, ttl, trace[n].s.w.tGet)
  {
    assert ValidAt(trace, n, ttl, rules);
    m := PageWasKept(trace, ttl, rules, n, trace[n].s.key);
    KeepIsFresh(trace, ttl, rules, m);
  }

  /** While nothing writes the key and the entry has not expired, it stays. */
  lemma {:induction false} StaysKept(trace: seq<Event>, ttl: int, rules: Rules, m: nat, n: nat, now: int)
    requires ValidTrace(trace, ttl, rules) && m < n <= |trace| && trace[m].Keep? && Keeps(trace[m].s)
    requires Untouched(trace, trace[m].s.key, m, n) && Lives(trace[m].s, ttl, now)
    requires forall k :: m < k < n ==> Instant(trace[k]) <= now
    ensures var items, key := CacheAt(trace, n, ttl).items, trace[m].s.key;
      key in items && items[key] == Kept(trace[m].s, ttl)
    decreases n - m
  {
    if n - 1 > m {
      StaysKept(trace, ttl, rules, m, n - 1, now);
      assert !Writes(trace[n - 1], trace[m].s.key);
    }
  }

  /** On a clock that does not run backwards: after a response has been kept and until its key is
      written again, a search with that key gets it if it has not expired, and a fresh response
      otherwise, whatever else happens in between. */
  lemma NextRequestHits(trace: seq<Event>, ttl: int, rules: Rules, m: nat, n: nat)
    requires ValidTrace(trace, ttl, rules) && InOrder(trace)
    requires m < n < |trace| && trace[m].Keep? && trace[n].Ask? && trace[m].s.key == trace[n].s.key
    requires Untouched(trace, trace[m].s.key, m, n)
    ensures Keeps(trace[m].s)
    ensures if Lives(trace[m].s, ttl, trace[n].s.w.tGet) then trace[n].s.reply == Hit(trace[m].s.reply.response)
            else trace[n].s.reply.Fresh?
  {
    var s := trace[n].s;
    KeepIsFresh(trace, ttl, rules, m);
    assert ValidAt(trace, n, ttl, rules);
    if Lives(trace[m].s, ttl, s.w.tGet) {
      assert Instant(trace[n]) == s.w.tGet;
      StaysKept(trace, ttl, rules, m, n, s.w.tGet);
    } else if s.reply.Hit? {
      var k := HitReplaysLastFresh(trace, ttl, rules, n);
      assert k > m ==> Writes(trace[k], s.key);
      assert k < m ==> Writes(trace[m], s.key);
      assert false;
    }
  }

  lemma {:induction false} WaitingHasAsked(trace: seq<Event>, ttl: int, rules: Rules, n: nat, id: int)
    returns (k: nat)
    requires n <= |trace| && ValidTrace(trace, ttl, rules) && id in CacheAt(trace, n, ttl).waiting
    ensures k < n && trace[k] == Ask(id, CacheAt(trace, n, ttl).waiting[id])
  {
    var before := CacheAt(trace, n - 1, ttl);
    assert ValidAt(trace, n - 1, ttl, rules);
    if id in before.waiting {
      k := WaitingHasAsked(trace, ttl, rules, n - 1, id);
    } else {
      k := n - 1;
    }
  }

  // ----- the searches of the handler

  /** The names of the registered engines, the digest, the keys it yields for searches, and the time to
      live of cached responses. */
  datatype Server = Server(names: set<string>, digest: string -> string, ours: string -> bool, ttl: int)

  ghost predicate Asks(s: Search, server: Server) {
    && PlanOf(s.req, server.names) == Accepted(s.plan)
    && s.w.digest == server.digest
    && s.key == server.digest(RawKey(KeyOfPlan(s.plan)))
  }

  /** An accepted request under its key; a fresh reply comes from a fan-out. */
  ghost function Handled(server: Server): Rules {
    Rules(s => Asks(s, server) && (s.reply.Fresh? ==> FreshFor(s.reply.response, s.view, s.plan, s.w)), server.ours)
  }

  lemma RepliesFromCache(
    plan: Plan, key: string, before: Items, after: Items, view: map<string, EngineInfo>, ttl: int, w: World, r: Reply)
    requires Replies(plan, key, true, before, after, view, ttl, w, r)
    ensures var page := CachedPage(before, key, w.tGet);
      if page.Some? then r == Hit(page.value) && after == AfterGet(before, key, w.tGet)
      else r.Fresh? && FreshFor(r.response, view, plan, w) && after == AfterFresh(before, key, w, r.response, ttl)
  {
  }

  lemma AskThenKeep(m: Shared, id: int, s: Search, ttl: int, rules: Rules, after: Items)
    requires id !in m.waiting && rules.possible(s) && rules.ours(s.key)
    requires var page := CachedPage(m.items, s.key, s.w.tGet);
      if page.Some? then s.reply == Hit(page.value) && after == AfterGet(m.items, s.key, s.w.tGet)
      else s.reply.Fresh? && after == AfterFresh(m.items, s.key, s.w, s.reply.response, ttl)
    ensures Enabled(m, Ask(id, s), rules)
    ensures var asked := After(m, Ask(id, s), ttl);
      if Keeps(s) then
        Enabled(asked, Keep(id, s), rules) && After(asked, Keep(id, s), ttl) == Shared(after, m.waiting)
      else asked == Shared(after, m.waiting)
  {
    if Keeps(s) {
      assert m.waiting[id := s] - {id} == m.waiting;
    }
  }

  /** What SearchSingle does to the cache is these two events, one after the other. */
  lemma SearchIsAskThenKeep(m: Shared, id: int, s: Search, server: Server, after: Items)
    requires id !in m.waiting && Asks(s, server) && server.ours(s.key)
    requires Replies(s.plan, s.key, true, m.items, after, s.view, server.ttl, s.w, s.reply)
    ensures Enabled(m, Ask(id, s), Handled(server))
    ensures var asked := After(m, Ask(id, s), server.ttl);
      if Keeps(s) then
        && Enabled(asked, Keep(id, s), Handled(server))
        && After(asked, Keep(id, s), server.ttl) == Shared(after, m.waiting)
      else asked == Shared(after, m.waiting)
  {
    RepliesFromCache(s.plan, s.key, m.items, after, s.view, server.ttl, s.w, s.reply);
    var rules := Handled(server);
    assert rules.possible(s);
    AskThenKeep(m, id, s, server.ttl, rules, after);
  }

  /** Keys of searches are never keys of the limiter, so searches are foreign to every address. */
  lemma SearchesAreForeign(ip: string, op: CacheOp)
    requires (op.Get? || op.Set? || op.Delete?) && IsHex(op.key)
    ensures op.key != RateLimiter.LogKey(ip) && RateLimiter.Foreign(op, ip)
  {
    assert RateLimiter.LogKey(ip)[0] == 'r';
  }

  /** Among the requests up to n under the key of the one at n the digest has not collided. */
  ghost predicate NoCollision(trace: seq<Event>, n: nat)
    requires n < |trace| && trace[n].Ask?
  {
    forall k :: 0 <= k <= n && trace[k].Ask? && trace[k].s.key == trace[n].s.key ==>
      RawKey(KeyOfPlan(trace[k].s.plan)) == RawKey(KeyOfPlan(trace[n].s.plan))
  }

  /** None of them has a separator in its key, or none a bar. */
  ghost predicate AllSeparable(trace: seq<Event>, n: nat)
    requires n < |trace| && trace[n].Ask?
  {
    forall k :: 0 <= k <= n && trace[k].Ask? && trace[k].s.key == trace[n].s.key ==>
      Separable(KeyOfPlan(trace[k].s.plan))
  }

  ghost predicate AllBarFree(trace: seq<Event>, n: nat)
    requires n < |trace| && trace[n].Ask?
  {
    forall k :: 0 <= k <= n && trace[k].Ask? && trace[k].s.key == trace[n].s.key ==>
      BarFree(KeyOfPlan(trace[k].s.plan))
  }

  /** A hit, the write that it replays and the request that wrote it. */
  lemma HitHasAsked(trace: seq<Event>, server: Server, n: nat) returns (m: nat, k: nat)
    requires ValidTrace(trace, server.ttl, Handled(server))
    requires n < |trace| && trace[n].Ask? && trace[n].s.reply.Hit?
    ensures k < m < n && trace[m].Keep? && trace[k] == Ask(trace[m].id, trace[m].s) && trace[m].s.key == trace[n].s.key
    ensures trace[m].s.reply == Reply.Fresh(trace[n].s.reply.response)
    ensures Handled(server).possible(trace[m].s) && Handled(server).possible(trace[n].s)
  {
    m := HitReplaysLastFresh(trace, server.ttl, Handled(server), n);
    assert ValidAt(trace, m, server.ttl, Handled(server));
    assert ValidAt(trace, n, server.ttl, Handled(server));
    k := WaitingHasAsked(trace, server.ttl, Handled(server), m, trace[m].id);
  }

  /** In every run, a hit was a fresh response to a request for the same search, as long as the
      requests under its own key have no collision and no separators in it. */
  lemma HitAnswersSameSearch(trace: seq<Event>, server: Server, n: nat) returns (m: nat)
    requires ValidTrace(trace, server.ttl, Handled(server))
    requires n < |trace| && trace[n].Ask? && trace[n].s.reply.Hit?
    requires NoCollision(trace, n) && AllSeparable(trace, n)
    ensures m < n && trace[m].Keep? && Handled(server).possible(trace[m].s)
    ensures trace[m].s.reply == Reply.Fresh(trace[n].s.reply.response)
    ensures SameSearch(trace[m].s.plan, trace[n].s.plan)
  {
    var k: nat;
    m, k := HitHasAsked(trace, server, n);
    assert Separable(KeyOfPlan(trace[k].s.plan)) && Separable(KeyOfPlan(trace[n].s.plan));
    CacheHitIsSound(trace[m].s.req, trace[n].s.req, server.names);
  }

  /** In every run a reply, fresh or from the cache, shows no term that the query of its own request
      excludes, and is ranked, as long as the requests under its own key have no collision and no bars
      in it. */
  lemma RepliesHideExcludedTerms(trace: seq<Event>, server: Server, n: nat)
    requires ValidTrace(trace, server.ttl, Handled(server))
    requires n < |trace| && trace[n].Ask? && NoCollision(trace, n) && AllBarFree(trace, n)
    ensures trace[n].s.reply.Hit? || trace[n].s.reply.Fresh?
    ensures var results := trace[n].s.reply.response.results;
      && Ranked(results)
      && forall i, t :: 0 <= i < |results| && t in trace[n].s.plan.parsed.excludedTerms ==>
           !Contains(Lower(results[i].title), t) && !Contains(Lower(results[i].content), t)
  {
    assert ValidAt(trace, n, server.ttl, Handled(server));
    var s := trace[n].s;
    if s.reply.Hit? {
      var m, k := HitHasAsked(trace, server, n);
      assert BarFree(KeyOfPlan(trace[k].s.plan)) && BarFree(KeyOfPlan(s.plan));
      SameKeySameExclusions(trace[m].s.req, s.req, server.names);
      s := trace[m].s;
    }
    FreshShowsNoExcludedTerm(s.reply.response, s.view, s.req, server.names, s.w, s.plan);
  }
}
