/** The concurrent fan-out (engine/engine.go, ExecuteSearchConcurrently) as a machine whose steps the
    scheduler interleaves: a worker finishes its search, a worker sends into the bounded channel, the
    collector receives, the deadline fires. */
module FanOut {
  import opened Options
  import opened Seqs
  import opened Merging

  /** What an engine's Search returns, and how long it took. */
  datatype Outcome = Outcome(results: seq<EngineResult>, err: Option<string>, millis: int)

  /** One selected engine together with what its Search will return. */
  datatype Job = Job(name: string, outcome: Outcome)

  datatype Metric = Metric(engine: string, durationMs: int, count: nat, error: string)

  datatype Response = Response(results: seq<EngineResult>, metric: Metric)

  function ResponseOf(job: Job): Response {
    var o := job.outcome;
    Response(if o.err.Some? then [] else o.results,
             Metric(job.name, o.millis, |o.results|, if o.err.Some? then o.err.value else ""))
  }

  datatype Worker = Running | Finished(response: Response) | Sent

  /** The sender of a message is history; the program sees the response only. */
  datatype Message = Message(sender: nat, response: Response)

  /** The inbox, the messages received so far in order, is history too. */
  datatype Net = Net(
    workers: seq<Worker>, channel: seq<Message>, completed: nat, stopped: bool,
    results: seq<EngineResult>, metrics: seq<Metric>, inbox: seq<Message>)

  datatype Event = Finish(i: nat) | Send(i: nat) | Receive | Deadline

  function Initial(jobs: seq<Job>): Net {
    Net(seq(|jobs|, _ => Running), [], 0, false, [], [], [])
  }

  /** The collector's loop is over. */
  predicate Over(s: Net, jobs: seq<Job>) {
    s.stopped || s.completed >= |jobs|
  }

  /** A send blocks while the channel is full; its capacity is the number of engines. */
  predicate Enabled(s: Net, e: Event, jobs: seq<Job>) {
    match e
    case Finish(i) => i < |jobs| && i < |s.workers| && s.workers[i].Running?
    case Send(i) => i < |s.workers| && s.workers[i].Finished? && |s.channel| < |jobs|
    case Receive => !Over(s, jobs) && s.channel != []
    case Deadline => !Over(s, jobs)
  }

  function Step(s: Net, e: Event, jobs: seq<Job>): Net
    requires Enabled(s, e, jobs)
  {
    match e
    case Finish(i) => s.(workers := s.workers[i := Finished(ResponseOf(jobs[i]))])
    case Send(i) => s.(workers := s.workers[i := Sent], channel := s.channel + [Message(i, s.workers[i].response)])
    case Receive =>
      var m := s.channel[0];
      s.(channel := s.channel[1..], completed := s.completed + 1,
         results := s.results + m.response.results, metrics := s.metrics + [m.response.metric],
         inbox := s.inbox + [m])
    case Deadline => s.(stopped := true)
  }

  predicate ValidSchedule(s: Net, schedule: seq<Event>, jobs: seq<Job>)
    decreases |schedule|
  {
    schedule == [] || (Enabled(s, schedule[0], jobs) && ValidSchedule(Step(s, schedule[0], jobs), schedule[1..], jobs))
  }

  function Run(s: Net, schedule: seq<Event>, jobs: seq<Job>): Net
    requires ValidSchedule(s, schedule, jobs)
    decreases |schedule|
  {
    if schedule == [] then s else Run(Step(s, schedule[0], jobs), schedule[1..], jobs)
  }

  // ----- after the loop

  function EngineNames(metrics: seq<Metric>): seq<string> {
    Map((m: Metric) => m.engine, metrics)
  }

  function JobNames(jobs: seq<Job>): seq<string> {
    Map((j: Job) => j.name, jobs)
  }

  /** A metric for each engine whose name has not been seen among the collected metrics. */
  function TimeoutMetrics(names: seq<string>, done: seq<string>, ctxErr: string, millis: int): seq<Metric> {
    if names == [] then []
    else
      (if names[0] in done then [] else [Metric(names[0], millis, 0, ctxErr)])
        + TimeoutMetrics(names[1..], done, ctxErr, millis)
  }

  function FinalMetrics(s: Net, jobs: seq<Job>, ctxErr: string, millis: int): seq<Metric> {
    if s.completed < |jobs| then s.metrics + TimeoutMetrics(JobNames(jobs), EngineNames(s.metrics), ctxErr, millis)
    else s.metrics
  }

  lemma RunFrom(s: Net, schedule: seq<Event>, n: nat, jobs: seq<Job>)
    requires n < |schedule| && ValidSchedule(s, schedule[n..], jobs)
    ensures Enabled(s, schedule[n], jobs)
    ensures ValidSchedule(Step(s, schedule[n], jobs), schedule[n + 1..], jobs)
    ensures Run(s, schedule[n..], jobs) == Run(Step(s, schedule[n], jobs), schedule[n + 1..], jobs)
  {
    assert schedule[n..][0] == schedule[n] && schedule[n..][1..] == schedule[n + 1..];
  }

  /** The collector's loop among the workers, as the scheduler drives them. */
  method Collect(jobs: seq<Job>, schedule: seq<Event>)
    returns (allResults: seq<EngineResult>, metrics: seq<Metric>, completed: nat)
    requires ValidSchedule(Initial(jobs), schedule, jobs)
    ensures var s := Run(Initial(jobs), schedule, jobs);
      allResults == s.results && metrics == s.metrics && completed == s.completed
  {
    allResults, metrics, completed := [], [], 0;
    var workers := seq(|jobs|, _ => Running);
    var channel: seq<Message> := [];
    ghost var s := Initial(jobs);
    assert schedule[0..] == schedule;
    for n := 0 to |schedule|
      invariant workers == s.workers && channel == s.channel && completed == s.completed
      invariant allResults == s.results && metrics == s.metrics
      invariant ValidSchedule(s, schedule[n..], jobs)
      invariant Run(s, schedule[n..], jobs) == Run(Initial(jobs), schedule, jobs)
    {
      RunFrom(s, schedule, n, jobs);
      match schedule[n] {
        case Finish(i) =>
          workers := workers[i := Finished(ResponseOf(jobs[i]))];
        case Send(i) =>
          channel := channel + [Message(i, workers[i].response)];
          workers := workers[i := Sent];
        case Receive =>
          var m := channel[0];
          channel := channel[1..];
          completed := completed + 1;
          allResults := allResults + m.response.results;
          metrics := metrics + [m.response.metric];
        case Deadline =>
      }
      s := Step(s, schedule[n], jobs);
    }
    assert schedule[|schedule|..] == [];
  }

  lemma TimeoutsFrom(names: seq<string>, k: nat, done: seq<string>, ctxErr: string, millis: int)
    requires k < |names|
    ensures TimeoutMetrics(names[k..], done, ctxErr, millis)
         == (if names[k] in done then [] else [Metric(names[k], millis, 0, ctxErr)])
              + TimeoutMetrics(names[k + 1..], done, ctxErr, millis)
  {
    assert names[k..][0] == names[k] && names[k..][1..] == names[k + 1..];
  }

  method MissingEngines(names: seq<string>, done: seq<string>, ctxErr: string, millis: int) returns (late: seq<Metric>)
    ensures late == TimeoutMetrics(names, done, ctxErr, millis)
  {
    late := [];
    assert names[0..] == names;
    for k := 0 to |names|
      invariant late + TimeoutMetrics(names[k..], done, ctxErr, millis) == TimeoutMetrics(names, done, ctxErr, millis)
    {
      TimeoutsFrom(names, k, done, ctxErr, millis);
      if names[k] !in done {
        late := late + [Metric(names[k], millis, 0, ctxErr)];
      }
    }
  }

  /** The function as the scheduler drives it, up to the end of the collector's loop. */
  method ExecuteSearchConcurrently(jobs: seq<Job>, schedule: seq<Event>, ctxErr: string, millis: int)
    returns (allResults: seq<EngineResult>, metrics: seq<Metric>)
    requires ValidSchedule(Initial(jobs), schedule, jobs)
    requires Over(Run(Initial(jobs), schedule, jobs), jobs)
    ensures var s := Run(Initial(jobs), schedule, jobs);
      allResults == s.results && metrics == FinalMetrics(s, jobs, ctxErr, millis)
  {
    var completed;
    allResults, metrics, completed := Collect(jobs, schedule);
    if completed < |jobs| {
      var late := MissingEngines(JobNames(jobs), EngineNames(metrics), ctxErr, millis);
      metrics := metrics + late;
    }
  }

  // ----- what every step keeps

  function Senders(ms: seq<Message>): seq<nat> {
    Map((m: Message) => m.sender, ms)
  }

  function ResultsOf(m: Message): seq<EngineResult> {
    m.response.results
  }

  function MetricOf(m: Message): Metric {
    m.response.metric
  }

  ghost predicate Genuine(ms: seq<Message>, jobs: seq<Job>) {
    forall k :: 0 <= k < |ms| ==> ms[k].sender < |jobs| && ms[k].response == ResponseOf(jobs[ms[k].sender])
  }

  ghost predicate Invariant(s: Net, jobs: seq<Job>) {
    && |s.workers| == |jobs|
    && Genuine(s.inbox + s.channel, jobs)
    && Distinct(Senders(s.inbox + s.channel))
    && (forall i :: 0 <= i < |jobs| ==> (s.workers[i].Sent? <==> i in Senders(s.inbox + s.channel)))
    && (forall i :: 0 <= i < |jobs| && s.workers[i].Finished? ==> s.workers[i].response == ResponseOf(jobs[i]))
    && s.completed == |s.inbox|
    && s.results == Flatten(ResultsOf, s.inbox)
    && s.metrics == Map(MetricOf, s.inbox)
  }

  lemma StepKeepsInvariant(s: Net, e: Event, jobs: seq<Job>)
    requires Invariant(s, jobs) && Enabled(s, e, jobs)
    ensures Invariant(Step(s, e, jobs), jobs)
  {
    match e
    case Finish(i) =>
    case Send(i) =>
      var m := Message(i, s.workers[i].response);
      assert s.inbox + (s.channel + [m]) == (s.inbox + s.channel) + [m];
      assert Senders((s.inbox + s.channel) + [m]) == Senders(s.inbox + s.channel) + [i];
    case Receive =>
      var m := s.channel[0];
      assert (s.inbox + [m]) + s.channel[1..] == s.inbox + s.channel;
      FlattenConcat(ResultsOf, s.inbox, [m]);
      assert Flatten(ResultsOf, [m]) == m.response.results + [];
    case Deadline =>
  }

  lemma {:induction false} RunKeepsInvariant(s: Net, schedule: seq<Event>, jobs: seq<Job>)
    requires ValidSchedule(s, schedule, jobs) && Invariant(s, jobs)
    ensures Invariant(Run(s, schedule, jobs), jobs)
    decreases |schedule|
  {
    if schedule != [] {
      StepKeepsInvariant(s, schedule[0], jobs);
      RunKeepsInvariant(Step(s, schedule[0], jobs), schedule[1..], jobs);
    }
  }

  lemma InitialInvariant(jobs: seq<Job>)
    ensures Invariant(Initial(jobs), jobs)
  {
  }

  // ----- counting senders

  function IndexSet(s: seq<nat>): (r: set<nat>) {
    set i | i in s
  }

  lemma {:induction false} DistinctCardinality(s: seq<nat>)
    requires Distinct(s)
    ensures |IndexSet(s)| == |s|
  {
    if s == [] {
      assert IndexSet(s) == {};
    } else {
      DistinctCardinality(s[1..]);
      assert IndexSet(s) == IndexSet(s[1..]) + {s[0]};
    }
  }

  function Below(n: nat): (r: set<nat>)
    ensures forall i: nat :: i in r <==> i < n
    ensures |r| == n
  {
    if n == 0 then {} else Below(n - 1) + {n - 1}
  }

  lemma SubsetCardinality(a: set<nat>, b: set<nat>)
    requires a <= b
    ensures |a| <= |b| && (|a| == |b| ==> a == b)
  {
    assert |b - a| == |b| - |a|;
  }

  lemma SendersBelow(s: seq<nat>, n: nat)
    requires Distinct(s) && forall i :: i in s ==> i < n
    ensures |s| <= n
    ensures |s| == n ==> forall i :: 0 <= i < n ==> i in s
  {
    DistinctCardinality(s);
    SubsetCardinality(IndexSet(s), Below(n));
    if |s| == n {
      forall i | 0 <= i < n ensures i in s {
        assert i in Below(n);
      }
    }
  }

  lemma GenuineSenders(ms: seq<Message>, jobs: seq<Job>)
    requires Genuine(ms, jobs)
    ensures forall i :: i in Senders(ms) ==> i < |jobs|
  {
  }

  // ----- no send ever blocks, and the machine cannot get stuck

  /** On every schedule: the channel never holds more than its capacity, and a worker that has
      finished finds room in it at once. */
  lemma NoSendBlocks(jobs: seq<Job>, schedule: seq<Event>)
    requires ValidSchedule(Initial(jobs), schedule, jobs)
    ensures var s := Run(Initial(jobs), schedule, jobs);
      && |s.channel| <= |jobs| == |s.workers|
      && forall i :: 0 <= i < |jobs| && s.workers[i].Finished? ==> Enabled(s, Send(i), jobs)
  {
    InitialInvariant(jobs);
    RunKeepsInvariant(Initial(jobs), schedule, jobs);
    var s := Run(Initial(jobs), schedule, jobs);
    var senders := Senders(s.inbox + s.channel);
    GenuineSenders(s.inbox + s.channel, jobs);
    SendersBelow(senders, |jobs|);
    forall i | 0 <= i < |jobs| && s.workers[i].Finished? ensures Enabled(s, Send(i), jobs) {
      assert i !in senders;
    }
  }

  /** On every schedule: until the collector's loop is over, some worker or the collector can move. */
  lemma NeverStuck(jobs: seq<Job>, schedule: seq<Event>) returns (e: Event)
    requires ValidSchedule(Initial(jobs), schedule, jobs) && !Over(Run(Initial(jobs), schedule, jobs), jobs)
    ensures Enabled(Run(Initial(jobs), schedule, jobs), e, jobs) && e != Deadline
  {
    InitialInvariant(jobs);
    RunKeepsInvariant(Initial(jobs), schedule, jobs);
    NoSendBlocks(jobs, schedule);
    var s := Run(Initial(jobs), schedule, jobs);
    if s.channel != [] {
      return Receive;
    }
    assert s.inbox + s.channel == s.inbox;
    DistinctCardinality(Senders(s.inbox));
    if forall i :: 0 <= i < |jobs| ==> i in Senders(s.inbox) {
      SubsetCardinality(Below(|jobs|), IndexSet(Senders(s.inbox)));
    }
    var i :| 0 <= i < |jobs| && i !in Senders(s.inbox);
    e := if s.workers[i].Running? then Finish(i) else Send(i);
  }

  // ----- accounting

  function NotIn(done: seq<string>): string -> bool {
    (n: string) => n !in done
  }

  lemma {:induction false} TimeoutNames(names: seq<string>, done: seq<string>, ctxErr: string, millis: int)
    ensures EngineNames(TimeoutMetrics(names, done, ctxErr, millis)) == Filter(NotIn(done), names)
  {
    if names != [] {
      TimeoutNames(names[1..], done, ctxErr, millis);
    }
  }

  lemma InboxOnly(s: Net, jobs: seq<Job>)
    requires Invariant(s, jobs)
    ensures Genuine(s.inbox, jobs) && Distinct(Senders(s.inbox)) && |s.inbox| == |s.metrics|
    ensures forall i :: i in Senders(s.inbox) ==> i < |jobs|
    ensures forall k :: 0 <= k < |s.inbox| ==> s.metrics[k].engine == jobs[Senders(s.inbox)[k]].name
  {
    var all := s.inbox + s.channel;
    forall k | 0 <= k < |s.inbox|
      ensures s.inbox[k] == all[k] && Senders(s.inbox)[k] == Senders(all)[k]
    {
    }
  }

  /** The metric names the engine and has its time, the number of its results and its error, if any. */
  predicate Reports(m: Metric, job: Job) {
    && m.engine == job.name && m.durationMs == job.outcome.millis && m.count == |job.outcome.results|
    && (job.outcome.err == None ==> m.error == "")
    && (job.outcome.err.Some? ==> m.error == job.outcome.err.value)
  }

  /** Results are those of the responses received, in order; a failed engine contributes none. Each
      metric reports on the engine it was received from. */
  lemma ResultsAreReceived(jobs: seq<Job>, schedule: seq<Event>)
    requires ValidSchedule(Initial(jobs), schedule, jobs)
    ensures var s := Run(Initial(jobs), schedule, jobs);
      && Genuine(s.inbox, jobs) && Distinct(Senders(s.inbox))
      && s.results == Flatten(ResultsOf, s.inbox)
      && s.metrics == Map(MetricOf, s.inbox)
      && (forall k :: 0 <= k < |s.inbox| ==>
            ResultsOf(s.inbox[k]) == var o := jobs[s.inbox[k].sender].outcome; if o.err.Some? then [] else o.results)
      && |s.metrics| == |s.inbox|
      && forall k :: 0 <= k < |s.inbox| ==> Reports(s.metrics[k], jobs[s.inbox[k].sender])
  {
    InitialInvariant(jobs);
    RunKeepsInvariant(Initial(jobs), schedule, jobs);
    var s := Run(Initial(jobs), schedule, jobs);
    InboxOnly(s, jobs);
  }

  /** The names of the collected metrics, by sender. */
  predicate Collected(names: seq<string>, senders: seq<nat>, done: seq<string>) {
    && |done| == |senders|
    && (forall i :: i in senders ==> i < |names|)
    && Distinct(senders)
    && forall k :: 0 <= k < |done| ==> senders[k] < |names| && done[k] == names[senders[k]]
  }

  lemma InboxCollected(s: Net, jobs: seq<Job>)
    requires Invariant(s, jobs)
    ensures Collected(JobNames(jobs), Senders(s.inbox), EngineNames(s.metrics))
    ensures |Senders(s.inbox)| == s.completed <= |jobs|
  {
    InboxOnly(s, jobs);
    SendersBelow(Senders(s.inbox), |jobs|);
  }

  lemma CollectedDistinct(names: seq<string>, senders: seq<nat>, done: seq<string>)
    requires Collected(names, senders, done) && Distinct(names)
    ensures Distinct(done)
    ensures forall n :: n in done ==> n in names
    ensures |done| == |names| ==> forall n :: n in names ==> n in done
  {
    forall k, l | 0 <= k < l < |done| ensures done[k] != done[l] {
      assert senders[k] != senders[l];
    }
    SendersBelow(senders, |names|);
    if |done| == |names| {
      forall i | 0 <= i < |names| ensures names[i] in done {
        assert i in senders;
        var k :| 0 <= k < |senders| && senders[k] == i;
        assert done[k] == names[i];
      }
    }
  }

  lemma {:induction false} FilterDistinct(p: string -> bool, s: seq<string>)
    requires Distinct(s)
    ensures Distinct(Filter(p, s))
    ensures forall x :: x in Filter(p, s) <==> x in s && p(x)
  {
    if s != [] {
      FilterDistinct(p, s[1..]);
      assert forall x :: x in s <==> x == s[0] || x in s[1..];
    }
  }

  lemma FinalNames(s: Net, jobs: seq<Job>, ctxErr: string, millis: int)
    ensures var names, done := JobNames(jobs), EngineNames(s.metrics);
      EngineNames(FinalMetrics(s, jobs, ctxErr, millis))
        == if s.completed < |jobs| then done + Filter(NotIn(done), names) else done
  {
    var late := TimeoutMetrics(JobNames(jobs), EngineNames(s.metrics), ctxErr, millis);
    TimeoutNames(JobNames(jobs), EngineNames(s.metrics), ctxErr, millis);
    assert EngineNames(s.metrics + late) == EngineNames(s.metrics) + EngineNames(late);
  }

  lemma FillUp(names: seq<string>, done: seq<string>)
    requires Distinct(names) && Distinct(done) && forall n :: n in done ==> n in names
    ensures multiset(done + Filter(NotIn(done), names)) == multiset(names)
  {
    FilterDistinct(NotIn(done), names);
    DistinctConcat(done, Filter(NotIn(done), names));
    DistinctPermutation(done + Filter(NotIn(done), names), names);
  }

  /** With engines of different names, every engine gets exactly one metric, on every schedule and
      wherever the deadline falls. */
  lemma OneMetricPerEngine(jobs: seq<Job>, schedule: seq<Event>, ctxErr: string, millis: int)
    requires ValidSchedule(Initial(jobs), schedule, jobs) && Over(Run(Initial(jobs), schedule, jobs), jobs)
    requires Distinct(JobNames(jobs))
    ensures var metrics := FinalMetrics(Run(Initial(jobs), schedule, jobs), jobs, ctxErr, millis);
      multiset(EngineNames(metrics)) == multiset(JobNames(jobs))
  {
    InitialInvariant(jobs);
    RunKeepsInvariant(Initial(jobs), schedule, jobs);
    var s := Run(Initial(jobs), schedule, jobs);
    InboxCollected(s, jobs);
    FinalNames(s, jobs, ctxErr, millis);
    CollectedDistinct(JobNames(jobs), Senders(s.inbox), EngineNames(s.metrics));
    if s.completed < |jobs| {
      FillUp(JobNames(jobs), EngineNames(s.metrics));
    } else {
      DistinctPermutation(EngineNames(s.metrics), JobNames(jobs));
    }
  }

  /** The positions, below n, whose name is among the collected ones. */
  function Covered(names: seq<string>, done: seq<string>, n: nat): (r: set<nat>)
    requires n <= |names|
    ensures forall i: nat :: i in r <==> i < n && names[i] in done
  {
    if n == 0 then {} else Covered(names, done, n - 1) + (if names[n - 1] in done then {n - 1} else {})
  }

  lemma {:induction false} CoveredCount(names: seq<string>, done: seq<string>, n: nat)
    requires n <= |names|
    ensures |Covered(names, done, n)| + |Filter(NotIn(done), names[..n])| == n
  {
    if n > 0 {
      CoveredCount(names, done, n - 1);
      assert names[..n] == names[..n - 1] + [names[n - 1]];
      FilterConcat(NotIn(done), names[..n - 1], [names[n - 1]]);
      assert Filter(NotIn(done), [names[n - 1]]) == if names[n - 1] in done then [] else [names[n - 1]];
    }
  }

  lemma CollectedCovered(names: seq<string>, senders: seq<nat>, done: seq<string>)
    requires Collected(names, senders, done)
    ensures IndexSet(senders) <= Covered(names, done, |names|) && |IndexSet(senders)| == |done|
  {
    DistinctCardinality(senders);
    forall i | i in senders ensures i in Covered(names, done, |names|) {
      var k :| 0 <= k < |senders| && senders[k] == i;
      assert done[k] == names[i];
    }
  }

  lemma CoveredIffNoShadow(names: seq<string>, senders: seq<nat>, done: seq<string>)
    ensures Covered(names, done, |names|) <= IndexSet(senders) <==>
      forall i :: 0 <= i < |names| && i !in senders ==> names[i] !in done
  {
    var received, covered := IndexSet(senders), Covered(names, done, |names|);
    if covered <= received {
      forall i | 0 <= i < |names| && i !in senders ensures names[i] !in done {
        assert i !in received;
      }
    } else {
      var i :| i in covered && i !in received;
      assert i < |names| && i !in senders && names[i] in done;
    }
  }

  lemma CountIffNoShadow(names: seq<string>, senders: seq<nat>, done: seq<string>)
    requires Collected(names, senders, done)
    ensures |done| + |Filter(NotIn(done), names)| == |names| <==>
      forall i :: 0 <= i < |names| && i !in senders ==> names[i] !in done
  {
    CollectedCovered(names, senders, done);
    CoveredIffNoShadow(names, senders, done);
    var received, covered := IndexSet(senders), Covered(names, done, |names|);
    SubsetCardinality(received, covered);
    assert covered <= received <==> covered == received;
    CoveredCount(names, done, |names|);
    assert names[..|names|] == names;
  }

  /** With repeated names (the same override given twice) the count is right exactly when no engine
      that is missing shares its name with one that answered. */
  lemma MetricCountIffNoShadow(jobs: seq<Job>, schedule: seq<Event>, ctxErr: string, millis: int)
    requires ValidSchedule(Initial(jobs), schedule, jobs)
    ensures var s := Run(Initial(jobs), schedule, jobs);
      |FinalMetrics(s, jobs, ctxErr, millis)| == |jobs| <==>
        forall i :: 0 <= i < |jobs| && i !in Senders(s.inbox) ==> JobNames(jobs)[i] !in EngineNames(s.metrics)
  {
    InitialInvariant(jobs);
    RunKeepsInvariant(Initial(jobs), schedule, jobs);
    var s := Run(Initial(jobs), schedule, jobs);
    InboxCollected(s, jobs);
    var names, done := JobNames(jobs), EngineNames(s.metrics);
    CountIffNoShadow(names, Senders(s.inbox), done);
    FinalNames(s, jobs, ctxErr, millis);
    assert |FinalMetrics(s, jobs, ctxErr, millis)| == |EngineNames(FinalMetrics(s, jobs, ctxErr, millis))|;
    if s.completed == |jobs| {
      SendersBelow(Senders(s.inbox), |jobs|);
    }
  }

  lemma RunFirst(s: Net, e: Event, tail: seq<Event>, jobs: seq<Job>)
    requires Enabled(s, e, jobs) && ValidSchedule(Step(s, e, jobs), tail, jobs)
    ensures ValidSchedule(s, [e] + tail, jobs) && Run(s, [e] + tail, jobs) == Run(Step(s, e, jobs), tail, jobs)
  {
    assert ([e] + tail)[1..] == tail;
  }

  /** The schedule on which engine i answers and the deadline fires next. */
  function OneAnswer(i: nat): seq<Event> {
    [Finish(i)] + ([Send(i)] + ([Receive] + ([Deadline] + [])))
  }

  lemma OneAnswerRuns(jobs: seq<Job>, i: nat)
    requires i < |jobs| && |jobs| >= 2
    ensures ValidSchedule(Initial(jobs), OneAnswer(i), jobs)
    ensures var s := Run(Initial(jobs), OneAnswer(i), jobs);
      Over(s, jobs) && s.completed == 1 && EngineNames(s.metrics) == [jobs[i].name]
  {
    var s0 := Initial(jobs);
    var s1 := Step(s0, Finish(i), jobs);
    var s2 := Step(s1, Send(i), jobs);
    assert s2.channel == [Message(i, ResponseOf(jobs[i]))];
    var s3 := Step(s2, Receive, jobs);
    RunFirst(s3, Deadline, [], jobs);
    RunFirst(s2, Receive, [Deadline] + [], jobs);
    RunFirst(s1, Send(i), [Receive] + ([Deadline] + []), jobs);
    RunFirst(s0, Finish(i), [Send(i)] + ([Receive] + ([Deadline] + [])), jobs);
    assert s3.metrics == [ResponseOf(jobs[i]).metric];
  }

  lemma {:induction false} OthersCount(names: seq<string>, name: string)
    ensures |Filter(NotIn([name]), names)| == |names| - multiset(names)[name]
  {
    if names != [] {
      HeadTail(names);
      OthersCount(names[1..], name);
    }
  }

  /** When engine i alone answers before the deadline, the engines that share its name get no metric
      of their own. */
  lemma OneAnswerShadows(jobs: seq<Job>, i: nat, ctxErr: string, millis: int)
    requires i < |jobs| && |jobs| >= 2
    ensures ValidSchedule(Initial(jobs), OneAnswer(i), jobs)
    ensures |FinalMetrics(Run(Initial(jobs), OneAnswer(i), jobs), jobs, ctxErr, millis)|
         == |jobs| + 1 - multiset(JobNames(jobs))[jobs[i].name]
  {
    OneAnswerRuns(jobs, i);
    var s := Run(Initial(jobs), OneAnswer(i), jobs);
    FinalNames(s, jobs, ctxErr, millis);
    OthersCount(JobNames(jobs), jobs[i].name);
    assert |FinalMetrics(s, jobs, ctxErr, millis)| == |EngineNames(FinalMetrics(s, jobs, ctxErr, millis))|;
  }

  lemma RepeatedCount(names: seq<string>, i: nat, j: nat)
    requires i < j < |names| && names[i] == names[j]
    ensures multiset(names)[names[i]] >= 2
  {
    assert names == names[..j] + [names[j]] + names[j + 1..];
    assert names[..j][i] == names[i];
    assert multiset(names) == multiset(names[..j]) + multiset{names[j]} + multiset(names[j + 1..]);
    assert names[i] in multiset(names[..j]);
  }

  /** On every schedule, wherever the deadline falls, there are as many metrics as engines. */
  ghost predicate AlwaysOneEach(jobs: seq<Job>, ctxErr: string, millis: int) {
    forall schedule ::
      ValidSchedule(Initial(jobs), schedule, jobs) && Over(Run(Initial(jobs), schedule, jobs), jobs) ==>
        |FinalMetrics(Run(Initial(jobs), schedule, jobs), jobs, ctxErr, millis)| == |jobs|
  }

  /** That is so exactly when no engine is selected twice, as an override that is repeated does. */
  lemma OneEachIffNamesDiffer(jobs: seq<Job>, ctxErr: string, millis: int)
    ensures AlwaysOneEach(jobs, ctxErr, millis) <==> Distinct(JobNames(jobs))
  {
    var names := JobNames(jobs);
    if Distinct(names) {
      forall schedule
        | ValidSchedule(Initial(jobs), schedule, jobs) && Over(Run(Initial(jobs), schedule, jobs), jobs)
        ensures |FinalMetrics(Run(Initial(jobs), schedule, jobs), jobs, ctxErr, millis)| == |jobs|
      {
        OneMetricPerEngine(jobs, schedule, ctxErr, millis);
        SameLength(EngineNames(FinalMetrics(Run(Initial(jobs), schedule, jobs), jobs, ctxErr, millis)), names);
      }
    } else {
      var i, j :| 0 <= i < j < |names| && names[i] == names[j];
      OneAnswerRuns(jobs, i);
      OneAnswerShadows(jobs, i, ctxErr, millis);
      RepeatedCount(names, i, j);
    }
  }

  // ----- confluence

  lemma CompleteInbox(jobs: seq<Job>, schedule: seq<Event>) returns (inbox: seq<Message>)
    requires ValidSchedule(Initial(jobs), schedule, jobs)
    requires Run(Initial(jobs), schedule, jobs).completed == |jobs|
    ensures Run(Initial(jobs), schedule, jobs).results == Flatten(ResultsOf, inbox)
    ensures Distinct(inbox)
    ensures forall m :: m in inbox <==> m.sender < |jobs| && m.response == ResponseOf(jobs[m.sender])
  {
    InitialInvariant(jobs);
    RunKeepsInvariant(Initial(jobs), schedule, jobs);
    var s := Run(Initial(jobs), schedule, jobs);
    InboxOnly(s, jobs);
    inbox := s.inbox;
    GenuineSenders(inbox, jobs);
    SendersBelow(Senders(inbox), |jobs|);
    forall k, l | 0 <= k < l < |inbox| ensures inbox[k] != inbox[l] {
      assert Senders(inbox)[k] != Senders(inbox)[l];
    }
    forall m: Message | m.sender < |jobs| && m.response == ResponseOf(jobs[m.sender]) ensures m in inbox {
      assert m.sender in Senders(inbox);
      var k :| 0 <= k < |inbox| && Senders(inbox)[k] == m.sender;
      assert inbox[k] == m;
    }
  }

  /** Any two schedules on which every engine answers deliver the same results up to order. */
  lemma CompleteRunsDeliverTheSame(jobs: seq<Job>, schedule: seq<Event>, other: seq<Event>)
    requires ValidSchedule(Initial(jobs), schedule, jobs) && ValidSchedule(Initial(jobs), other, jobs)
    requires Run(Initial(jobs), schedule, jobs).completed == |jobs| == Run(Initial(jobs), other, jobs).completed
    ensures multiset(Run(Initial(jobs), schedule, jobs).results) == multiset(Run(Initial(jobs), other, jobs).results)
  {
    var a := CompleteInbox(jobs, schedule);
    var b := CompleteInbox(jobs, other);
    DistinctPermutation(a, b);
    FlattenPermutation(ResultsOf, a, b);
  }

  // ----- engines that did not answer

  lemma {:induction false} TimeoutsAreLate(names: seq<string>, done: seq<string>, ctxErr: string, millis: int)
    ensures forall m :: m in TimeoutMetrics(names, done, ctxErr, millis) ==>
      m.engine in names && m.engine !in done && m.durationMs == millis && m.count == 0 && m.error == ctxErr
  {
    if names != [] {
      TimeoutsAreLate(names[1..], done, ctxErr, millis);
    }
  }

  /** On every schedule: a metric that was not received is for an engine none of whose namesakes has
      answered, with no results, the elapsed time and the context's error. */
  lemma LateMetricsReportTimeouts(jobs: seq<Job>, schedule: seq<Event>, ctxErr: string, millis: int, k: nat)
    requires ValidSchedule(Initial(jobs), schedule, jobs)
    requires k < |FinalMetrics(Run(Initial(jobs), schedule, jobs), jobs, ctxErr, millis)|
    ensures var s := Run(Initial(jobs), schedule, jobs);
      var m := FinalMetrics(s, jobs, ctxErr, millis)[k];
      if k < |s.metrics| then m == s.metrics[k]
      else
        && m.engine in JobNames(jobs) && m.engine !in EngineNames(s.metrics)
        && m.durationMs == millis && m.count == 0 && m.error == ctxErr
  {
    var s := Run(Initial(jobs), schedule, jobs);
    var late := TimeoutMetrics(JobNames(jobs), EngineNames(s.metrics), ctxErr, millis);
    TimeoutsAreLate(JobNames(jobs), EngineNames(s.metrics), ctxErr, millis);
    if k >= |s.metrics| {
      assert late[k - |s.metrics|] in late;
    }
  }

  /** A send waits while the channel holds as many responses as there are engines. */
  lemma FullChannelBlocks(s: Net, e: Event, jobs: seq<Job>)
    requires Enabled(s, e, jobs) && |s.channel| <= |jobs|
    ensures |Step(s, e, jobs).channel| <= |jobs|
  {
  }

  lemma {:induction false} StoppedByDeadline(s: Net, schedule: seq<Event>, jobs: seq<Job>)
    requires ValidSchedule(s, schedule, jobs) && Deadline !in schedule && !s.stopped
    ensures !Run(s, schedule, jobs).stopped
    decreases |schedule|
  {
    if schedule != [] {
      StoppedByDeadline(Step(s, schedule[0], jobs), schedule[1..], jobs);
    }
  }

  /** Without a deadline the collector does not stop before every engine has answered; then it stops. */
  lemma WaitsForAll(jobs: seq<Job>, schedule: seq<Event>)
    requires ValidSchedule(Initial(jobs), schedule, jobs) && Deadline !in schedule
    ensures var s := Run(Initial(jobs), schedule, jobs);
      && (Over(s, jobs) <==> s.completed == |jobs|)
      && (Over(s, jobs) ==> forall i :: 0 <= i < |jobs| ==> i in Senders(s.inbox))
  {
    InitialInvariant(jobs);
    RunKeepsInvariant(Initial(jobs), schedule, jobs);
    StoppedByDeadline(Initial(jobs), schedule, jobs);
    var s := Run(Initial(jobs), schedule, jobs);
    InboxCollected(s, jobs);
    InboxOnly(s, jobs);
    SendersBelow(Senders(s.inbox), |jobs|);
  }
}
