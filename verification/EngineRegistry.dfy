/** The engine registry and its routing by category (engine/engine.go), with the suspension state that
    the drivers keep (engine/scraper.go). */
module EngineRegistry {
  import opened Seqs

  /** What routing can see of an engine at one moment. */
  datatype EngineInfo = EngineInfo(categories: seq<string>, disabled: bool, suspendedUntil: int, reason: string)

  predicate Suspended(e: EngineInfo, now: int) {
    now < e.suspendedUntil
  }

  predicate Matches(e: EngineInfo, categories: seq<string>) {
    exists cat :: cat in e.categories && cat in categories
  }

  /** The enabled engines that a search in these categories concerns. */
  predicate Concerned(view: map<string, EngineInfo>, categories: seq<string>, name: string) {
    name in view && !view[name].disabled && Matches(view[name], categories)
  }

  class Engine {
    const name: string
    const categories: seq<string>
    const disabled: bool
    var suspendedUntil: int
    var suspensionReason: string

    constructor (name: string, categories: seq<string>, disabled: bool)
      ensures this.name == name && this.categories == categories && this.disabled == disabled
    {
      this.name := name;
      this.categories := categories;
      this.disabled := disabled;
      suspendedUntil := 0;
      suspensionReason := "";
    }

    function Info(): EngineInfo
      reads this
    {
      EngineInfo(categories, disabled, suspendedUntil, suspensionReason)
    }

    /** A later Suspend overwrites an earlier one, even with a shorter duration. */
    method Suspend(duration: int, reason: string, now: int)
      modifies this
      ensures Info() == old(Info()).(suspendedUntil := now + duration, reason := reason)
      ensures forall t :: Suspended(Info(), t) <==> t < now + duration
    {
      suspendedUntil := now + duration;
      suspensionReason := reason;
    }

    method MatchesAny(wanted: seq<string>) returns (matches: bool)
      ensures matches == Matches(Info(), wanted)
    {
      matches := false;
      for i := 0 to |categories|
        invariant !matches && forall k :: 0 <= k < i ==> categories[k] !in wanted
      {
        if categories[i] in wanted {
          return true;
        }
      }
    }

    method SuspendedReason(now: int) returns (reason: string, isSuspended: bool)
      ensures isSuspended == Suspended(Info(), now)
      ensures reason == if isSuspended then Info().reason else ""
    {
      if now < suspendedUntil {
        return suspensionReason, true;
      }
      return "", false;
    }
  }

  function Names(engines: seq<Engine>): (r: seq<string>)
    ensures |r| == |engines|
    ensures forall i :: 0 <= i < |r| ==> r[i] == engines[i].name
  {
    seq(|engines|, i requires 0 <= i < |engines| => engines[i].name)
  }

  function FirstNames(pairs: seq<(string, string)>): (r: seq<string>)
    ensures |r| == |pairs|
    ensures forall i :: 0 <= i < |r| ==> r[i] == pairs[i].0
  {
    seq(|pairs|, i requires 0 <= i < |pairs| => pairs[i].0)
  }

  lemma AppendName(engines: seq<Engine>, e: Engine)
    ensures Names(engines + [e]) == Names(engines) + [e.name]
  {
  }

  lemma AppendFirstName(pairs: seq<(string, string)>, name: string, reason: string)
    ensures FirstNames(pairs + [(name, reason)]) == FirstNames(pairs) + [name]
  {
  }

  class Registry {
    var engines: map<string, Engine>

    ghost predicate Valid()
      reads this
    {
      forall n :: n in engines ==> engines[n].name == n
    }

    function View(): map<string, EngineInfo>
      reads this, engines.Values
    {
      map n | n in engines :: engines[n].Info()
    }

    constructor ()
      ensures Valid() && engines == map[]
    {
      engines := map[];
    }

    method Register(e: Engine)
      requires Valid()
      modifies this
      ensures Valid() && engines == old(engines)[e.name := e]
    {
      engines := engines[e.name := e];
    }

    predicate Exists(name: string)
      reads this
    {
      name in engines
    }

    /** Routing by category. Engines come in the arbitrary order of Go's map iteration; clock gives
        the reading at which each engine was asked whether it is suspended. Every enabled engine of
        the categories comes out exactly once, as active or as suspended, and no other does. */
    method GetActiveAndSuspendedEnginesForCategories(categories: seq<string>, clock: string -> int)
      returns (active: seq<Engine>, suspended: seq<(string, string)>)
      requires Valid()
      ensures Distinct(Names(active) + FirstNames(suspended))
      ensures forall e :: e in active ==> e.name in engines && engines[e.name] == e
      ensures forall n :: n in Names(active) <==>
        Concerned(View(), categories, n) && !Suspended(View()[n], clock(n))
      ensures forall n :: n in FirstNames(suspended) <==>
        Concerned(View(), categories, n) && Suspended(View()[n], clock(n))
      ensures forall p :: p in suspended ==> p.0 in engines && p.1 == View()[p.0].reason
    {
      active, suspended := [], [];
      var todo := engines.Keys;
      ghost var view := View();
      while todo != {}
        invariant todo <= engines.Keys
        invariant Distinct(Names(active)) && Distinct(FirstNames(suspended))
        invariant forall e :: e in active ==> e.name in engines && engines[e.name] == e
        invariant forall n :: n in Names(active) <==>
          n !in todo && Concerned(view, categories, n) && !Suspended(view[n], clock(n))
        invariant forall n :: n in FirstNames(suspended) <==>
          n !in todo && Concerned(view, categories, n) && Suspended(view[n], clock(n))
        invariant forall p :: p in suspended ==> p.0 in engines && p.1 == view[p.0].reason
        decreases |todo|
      {
        var name :| name in todo;
        todo := todo - {name};
        var eng := engines[name];
        if !eng.disabled {
          var matches := eng.MatchesAny(categories);
          if matches {
            var reason, isSuspended := eng.SuspendedReason(clock(name));
            if isSuspended {
              AppendFirstName(suspended, name, reason);
              suspended := suspended + [(eng.name, reason)];
            } else {
              AppendName(active, eng);
              active := active + [eng];
            }
          }
        }
      }
      DistinctConcat(Names(active), FirstNames(suspended));
    }
  }

  /** The engines that a search concerns: registered, not disabled, and with one of its categories. */
  lemma ConcernedMeaning(view: map<string, EngineInfo>, categories: seq<string>, name: string)
    ensures Concerned(view, categories, name) <==>
      && name in view && !view[name].disabled
      && exists i, j :: 0 <= i < |view[name].categories| && 0 <= j < |categories|
           && view[name].categories[i] == categories[j]
  {
    if Concerned(view, categories, name) {
      var cat :| cat in view[name].categories && cat in categories;
      var i :| 0 <= i < |view[name].categories| && view[name].categories[i] == cat;
      var j :| 0 <= j < |categories| && categories[j] == cat;
      assert view[name].categories[i] == categories[j];
    }
    if name in view {
      if i, j :| 0 <= i < |view[name].categories| && 0 <= j < |categories|
                 && view[name].categories[i] == categories[j] {
        assert categories[j] in view[name].categories && categories[j] in categories;
      }
    }
  }
}
