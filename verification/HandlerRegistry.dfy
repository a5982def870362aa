/** Registration of webhook handlers (manager.go:186-218, dispatch.go:95-106): a copy-on-write map
    behind an atomic pointer. Any number of registrars run their compare-and-swap loops at once, and
    dispatches read whatever snapshot is current. */
module HandlerRegistry {
  import opened Types

  /** Handlers are identified by a number. */
  type Handler = nat

  type HandlerMap = map<Text, seq<Handler>>

  function HandlersOf(m: HandlerMap, eventType: Text): seq<Handler> {
    if eventType in m then m[eventType] else []
  }

  /** The map with one handler appended to its event type. */
  function Extended(m: HandlerMap, eventType: Text, h: Handler): HandlerMap {
    m[eventType := HandlersOf(m, eventType) + [h]]
  }

  /** What a registrar builds before it tries to publish: a copy of every list, then the append. */
  method CopyAndAppend(current: HandlerMap, eventType: Text, h: Handler) returns (fresh': HandlerMap)
    ensures fresh' == Extended(current, eventType, h)
  {
    fresh' := map[];
    var rest := current.Keys;
    while rest != {}
      invariant rest <= current.Keys
      invariant fresh' == map k | k in current && k !in rest :: current[k]
      decreases |rest|
    {
      var k :| k in rest;
      rest := rest - {k};
      assert [] + current[k] == current[k];
      fresh' := fresh'[k := [] + current[k]];
    }
    assert fresh' == current;
    fresh' := fresh'[eventType := (if eventType in fresh' then fresh'[eventType] else []) + [h]];
  }

  // ---------------------------------------------------------------- registrars

  /** Before its load, holding the copy it made of version `seen`, or returned. */
  datatype Registrar =
    | Looping(eventType: Text, h: Handler)
    | Holding(eventType: Text, h: Handler, seen: nat, copy: HandlerMap)
    | Returned(eventType: Text, h: Handler)

  datatype Entry = Entry(registrar: nat, eventType: Text, h: Handler)

  /** Every map ever published, the last being current; pointers never repeat, so a version number is
      a pointer. `log` lists the successful swaps. */
  datatype Registry = Registry(versions: seq<HandlerMap>, registrars: seq<Registrar>, log: seq<Entry>)

  datatype Step = Call(eventType: Text, h: Handler) | Load(t: nat) | Swap(t: nat)

  predicate Enabled(g: Registry, s: Step) {
    && g.versions != []
    && match s
       case Call(_, _) => true
       case Load(t) => t < |g.registrars| && g.registrars[t].Looping?
       case Swap(t) => t < |g.registrars| && g.registrars[t].Holding?
  }

  predicate Succeeds(g: Registry, t: nat)
    requires t < |g.registrars| && g.registrars[t].Holding?
  {
    g.registrars[t].seen == |g.versions| - 1
  }

  function Apply(g: Registry, s: Step): Registry
    requires Enabled(g, s)
  {
    match s
    case Call(eventType, h) => g.(registrars := g.registrars + [Looping(eventType, h)])
    case Load(t) =>
      var r, v := g.registrars[t], |g.versions| - 1;
      g.(registrars := g.registrars[t := Holding(r.eventType, r.h, v, Extended(g.versions[v], r.eventType, r.h))])
    case Swap(t) =>
      var r := g.registrars[t];
      if Succeeds(g, t) then
        Registry(g.versions + [r.copy], g.registrars[t := Returned(r.eventType, r.h)],
                 g.log + [Entry(t, r.eventType, r.h)])
      else g.(registrars := g.registrars[t := Looping(r.eventType, r.h)])
  }

  const INITIAL := Registry([map[]], [], [])

  ghost predicate Possible(steps: seq<Step>)
    decreases |steps|, 0
  {
    steps == [] ||
      var before := steps[..|steps| - 1];
      Possible(before) && Enabled(Exec(before), steps[|steps| - 1])
  }

  ghost function Exec(steps: seq<Step>): Registry
    requires Possible(steps)
    decreases |steps|, 1
  {
    if steps == [] then INITIAL else Apply(Exec(steps[..|steps| - 1]), steps[|steps| - 1])
  }

  ghost predicate Reaches(steps: seq<Step>, g: Registry) {
    Possible(steps) && Exec(steps) == g
  }

  // ---------------------------------------------------------------- the invariant

  /** The handlers registered for a type by a run of successful swaps. */
  function Registered(log: seq<Entry>, eventType: Text): seq<Handler> {
    if log == [] then [] else
      var last := log[|log| - 1];
      Registered(log[..|log| - 1], eventType) + (if last.eventType == eventType then [last.h] else [])
  }

  ghost predicate VersionFollows(g: Registry, i: nat)
    requires i < |g.versions| && i <= |g.log|
  {
    forall eventType :: HandlersOf(g.versions[i], eventType) == Registered(g.log[..i], eventType)
  }

  ghost predicate VersionsFollow(g: Registry) {
    && |g.versions| == |g.log| + 1
    && (forall i: nat :: i < |g.versions| ==> VersionFollows(g, i))
  }

  ghost predicate CopiesFollow(g: Registry) {
    forall t :: 0 <= t < |g.registrars| && g.registrars[t].Holding? ==>
      var r := g.registrars[t];
      r.seen < |g.versions| && r.copy == Extended(g.versions[r.seen], r.eventType, r.h)
  }

  ghost predicate LogFollows(g: Registry) {
    && (forall i :: 0 <= i < |g.log| ==>
         && g.log[i].registrar < |g.registrars|
         && g.registrars[g.log[i].registrar] == Returned(g.log[i].eventType, g.log[i].h))
    && (forall i, j :: 0 <= i < j < |g.log| ==> g.log[i].registrar != g.log[j].registrar)
  }

  ghost predicate InLog(g: Registry, t: int) {
    exists i :: 0 <= i < |g.log| && g.log[i].registrar == t
  }

  ghost predicate ReturnedLogged(g: Registry) {
    forall t :: 0 <= t < |g.registrars| && g.registrars[t].Returned? ==> InLog(g, t)
  }

  ghost predicate Consistent(g: Registry) {
    VersionsFollow(g) && CopiesFollow(g) && LogFollows(g) && ReturnedLogged(g)
  }

  lemma ExtendedHandlers(m: HandlerMap, log: seq<Entry>, e: Entry)
    requires forall eventType :: HandlersOf(m, eventType) == Registered(log, eventType)
    ensures forall eventType :: HandlersOf(Extended(m, e.eventType, e.h), eventType) == Registered(log + [e], eventType)
  {
    assert (log + [e])[..|log|] == log;
    forall eventType ensures HandlersOf(Extended(m, e.eventType, e.h), eventType) == Registered(log + [e], eventType) {
      assert HandlersOf(m, eventType) == Registered(log, eventType);
      assert HandlersOf(m, eventType) + [] == HandlersOf(m, eventType);
    }
  }

  lemma OlderVersions(g: Registry, g': Registry, i: nat)
    requires i < |g.versions| <= |g'.versions| && i <= |g.log| <= |g'.log| && VersionFollows(g, i)
    requires g'.versions[i] == g.versions[i] && g'.log[..i] == g.log[..i]
    ensures VersionFollows(g', i)
  {
  }

  lemma NewVersion(g: Registry, g': Registry, e: Entry)
    requires |g.versions| == |g.log| + 1 && VersionFollows(g, |g.log|) && g'.log == g.log + [e]
    requires g'.versions == g.versions + [Extended(g.versions[|g.log|], e.eventType, e.h)]
    ensures VersionFollows(g', |g.log| + 1)
  {
    assert g.log[..|g.log|] == g.log && g'.log[..|g.log| + 1] == g.log + [e];
    ExtendedHandlers(g.versions[|g.log|], g.log, e);
  }

  lemma VersionsGrow(g: Registry, g': Registry, e: Entry)
    requires VersionsFollow(g) && g'.log == g.log + [e]
    requires g'.versions == g.versions + [Extended(g.versions[|g.log|], e.eventType, e.h)]
    ensures VersionsFollow(g')
  {
    forall i: nat | i < |g.versions| ensures VersionFollows(g', i) {
      assert VersionFollows(g, i);
      OlderVersions(g, g', i);
    }
    assert VersionFollows(g, |g.log|);
    NewVersion(g, g', e);
  }

  lemma VersionsStep(g: Registry, s: Step)
    requires VersionsFollow(g) && CopiesFollow(g) && Enabled(g, s)
    ensures VersionsFollow(Apply(g, s))
  {
    var g' := Apply(g, s);
    if s.Swap? && Succeeds(g, s.t) {
      VersionsGrow(g, g', Entry(s.t, g.registrars[s.t].eventType, g.registrars[s.t].h));
    } else {
      forall i: nat | i < |g.versions| ensures VersionFollows(g', i) {
        assert VersionFollows(g, i);
      }
    }
  }

  lemma LogStep(g: Registry, s: Step)
    requires LogFollows(g) && Enabled(g, s)
    ensures LogFollows(Apply(g, s))
  {
  }

  lemma ReturnedStep(g: Registry, s: Step)
    requires ReturnedLogged(g) && Enabled(g, s)
    ensures ReturnedLogged(Apply(g, s))
  {
    var g' := Apply(g, s);
    forall t | 0 <= t < |g'.registrars| && g'.registrars[t].Returned? ensures InLog(g', t) {
      if t < |g.registrars| && g.registrars[t].Returned? {
        var i :| 0 <= i < |g.log| && g.log[i].registrar == t;
        assert g'.log[i].registrar == t;
      } else {
        assert g'.log[|g.log|].registrar == t;
      }
    }
  }

  lemma {:induction false} ConsistentRun(steps: seq<Step>, g: Registry)
    requires Reaches(steps, g)
    ensures Consistent(g)
  {
    if steps != [] {
      var before, s := Exec(steps[..|steps| - 1]), steps[|steps| - 1];
      ConsistentRun(steps[..|steps| - 1], before);
      VersionsStep(before, s);
      LogStep(before, s);
      ReturnedStep(before, s);
    }
  }

  // ---------------------------------------------------------------- what it means

  /** Main result: in every interleaving a registration that has returned took effect exactly once, one
      that has not returned not at all, and the current map lists, type by type, the handlers in the
      order of the successful swaps. */
  lemma {:induction false} RegisteredOnce(steps: seq<Step>, g: Registry, t: nat)
    requires Reaches(steps, g) && t < |g.registrars|
    ensures g.registrars[t].Returned? <==>
              exists i :: 0 <= i < |g.log| && g.log[i] == Entry(t, g.registrars[t].eventType, g.registrars[t].h)
    ensures forall i, j :: 0 <= i < |g.log| && 0 <= j < |g.log| && g.log[i].registrar == t && g.log[j].registrar == t
              ==> i == j
    ensures forall eventType :: HandlersOf(g.versions[|g.versions| - 1], eventType) == Registered(g.log, eventType)
  {
    ConsistentRun(steps, g);
    assert g.log[..|g.log|] == g.log && VersionFollows(g, |g.log|);
    if g.registrars[t].Returned? {
      assert InLog(g, t);
      var i :| 0 <= i < |g.log| && g.log[i].registrar == t;
      assert g.log[i] == Entry(t, g.registrars[t].eventType, g.registrars[t].h);
    }
  }

  lemma {:induction false} RegisteredPrefix(log: seq<Entry>, i: nat, eventType: Text)
    requires i <= |log|
    ensures Registered(log[..i], eventType) <= Registered(log, eventType)
  {
    if i < |log| {
      RegisteredPrefix(log[..|log| - 1], i, eventType);
      assert log[..|log| - 1][..i] == log[..i];
    } else {
      assert log[..i] == log;
    }
  }

  /** Main result: whatever snapshot a dispatch reads, its handlers for a type are the first handlers of
      every later snapshot; nothing registered is ever dropped or reordered. */
  lemma {:induction false} SnapshotsGrow(steps: seq<Step>, g: Registry, i: nat, j: nat, eventType: Text)
    requires Reaches(steps, g) && i <= j < |g.versions|
    ensures HandlersOf(g.versions[i], eventType) <= HandlersOf(g.versions[j], eventType)
  {
    ConsistentRun(steps, g);
    assert g.log[..j][..i] == g.log[..i] && VersionFollows(g, i) && VersionFollows(g, j);
    RegisteredPrefix(g.log[..j], i, eventType);
  }

  /** Main result: a swap fails only if another registrar succeeded since the load. */
  lemma {:induction false} FailureMeansProgress(steps: seq<Step>, g: Registry, t: nat)
    requires Reaches(steps, g) && t < |g.registrars| && g.registrars[t].Holding? && !Succeeds(g, t)
    ensures var seen := g.registrars[t].seen; seen < |g.log| && g.log[seen].registrar != t
  {
    ConsistentRun(steps, g);
  }

  // ---------------------------------------------------------------- termination

  /** Steps to a successful swap if nobody interferes. */
  function Rank(g: Registry, r: Registrar): nat {
    match r
    case Looping(_, _) => 2
    case Holding(_, _, seen, _) => if seen == |g.versions| - 1 then 1 else 3
    case Returned(_, _) => 0
  }

  function TotalRank(g: Registry, rs: seq<Registrar>): nat {
    if rs == [] then 0 else TotalRank(g, rs[..|rs| - 1]) + Rank(g, rs[|rs| - 1])
  }

  function Open(rs: seq<Registrar>): nat {
    if rs == [] then 0 else Open(rs[..|rs| - 1]) + (if rs[|rs| - 1].Returned? then 0 else 1)
  }

  lemma {:induction false} UpdateCounts(g: Registry, rs: seq<Registrar>, t: nat, r: Registrar)
    requires t < |rs|
    ensures TotalRank(g, rs[t := r]) == TotalRank(g, rs) - Rank(g, rs[t]) + Rank(g, r)
    ensures Open(rs[t := r]) == Open(rs) - (if rs[t].Returned? then 0 else 1) + (if r.Returned? then 0 else 1)
  {
    var n := |rs| - 1;
    if t < n {
      UpdateCounts(g, rs[..n], t, r);
      assert rs[t := r][..n] == rs[..n][t := r];
    } else {
      assert rs[t := r][..n] == rs[..n];
    }
  }

  lemma {:induction false} SameRanks(g: Registry, g': Registry, rs: seq<Registrar>)
    requires |g.versions| == |g'.versions|
    ensures TotalRank(g, rs) == TotalRank(g', rs)
  {
    if rs != [] {
      SameRanks(g, g', rs[..|rs| - 1]);
    }
  }

  /** Every step of a started registration either finishes it or brings the group closer to the next
      success: the loops cannot retry forever. */
  lemma LoopsEnd(g: Registry, s: Step)
    requires Enabled(g, s) && !s.Call?
    ensures var g' := Apply(g, s);
            || Open(g'.registrars) < Open(g.registrars)
            || (Open(g'.registrars) == Open(g.registrars) && TotalRank(g', g'.registrars) < TotalRank(g, g.registrars))
  {
    var g' := Apply(g, s);
    UpdateCounts(g, g.registrars, s.t, g'.registrars[s.t]);
    if |g'.versions| == |g.versions| {
      SameRanks(g, g', g'.registrars);
    }
  }
}
