/** What linearizability means for a concurrent run of the sharded store: the calls fit into one order,
    compatible with real time, in which the single-lock store would have given every answer. */
module ShardedHistory {
  import opened Types
  import opened SubscriptionIndex
  import opened SubscriptionStores
  import opened ShardedInterleaving

  /** A lookup as its caller sees it; the sharded store reports a dangling entry as a missing record. */
  function Seen(r: Lookup): Option<Subscription> {
    match r
    case Found(sub) => Some(sub)
    case _ => None
  }

  /** What the single-lock store answers. */
  ghost function AnswerOf(F: StoreState, call: Call): Answer {
    match call
    case Write(op) => Wrote(ReplyTo(F, op))
    case GetById(id) => Looked(Get(F.subs, id))
    case FindByProvider(pid) => Looked(Seen(ByProvider(F, pid)))
    case FindActive(subscriber) => Looked(Seen(ActiveOf(F, subscriber)))
    case ListAll(f) => Listed(Listing(F.subs, F.subs.Keys, f))
  }

  function Applied(F: StoreState, call: Call): StoreState {
    if call.Write? then Next(F, call.op) else F
  }

  /** The single-lock store after some calls, one after the other. */
  function After(threads: seq<Thread>, order: seq<nat>): StoreState {
    if order == [] then EMPTY
    else
      var F, t := After(threads, order[..|order| - 1]), order[|order| - 1];
      if t < |threads| then Applied(F, threads[t].call) else F
  }

  /** The answer call `t` should have got in state `F`, if it has returned. */
  ghost predicate AnswerFits(F: StoreState, threads: seq<Thread>, t: nat) {
    t < |threads| && threads[t].Finished? ==> threads[t].answer == AnswerOf(F, threads[t].call)
  }

  /** It answers as the concurrent calls were answered, those that have returned. */
  ghost predicate Answered(threads: seq<Thread>, order: seq<nat>) {
    order != [] ==>
      && Answered(threads, order[..|order| - 1])
      && AnswerFits(After(threads, order[..|order| - 1]), threads, order[|order| - 1])
  }

  ghost predicate ReturnedBy(x: Execution, k: int, t: nat) {
    0 <= k < |x.states| && t < |x.states[k].threads| && x.states[k].threads[t].Finished?
  }

  ghost predicate UnstartedAt(x: Execution, k: int, t: nat) {
    0 <= k < |x.states| && t >= |x.states[k].threads|
  }

  /** Call `t` had returned at some moment at which call `u` had not started. */
  ghost predicate Precedes(x: Execution, t: nat, u: nat) {
    exists k :: ReturnedBy(x, k, t) && UnstartedAt(x, k, u)
  }

  predicate Distinguished(order: seq<nat>) {
    forall i, j :: 0 <= i < j < |order| ==> order[i] != order[j]
  }

  /** Each call of the order occurs once, and every returned one does; of all calls, or of the writes. */
  ghost predicate Covers(threads: seq<Thread>, order: seq<nat>, all: bool) {
    && Distinguished(order)
    && (forall i :: 0 <= i < |order| ==> order[i] < |threads| && (all || IsWrite(threads[order[i]])))
    && (forall t: nat :: t < |threads| && threads[t].Finished? && (all || IsWrite(threads[t])) ==> t in order)
  }

  ghost predicate InTime(x: Execution, order: seq<nat>) {
    forall i, j :: 0 <= i < j < |order| ==> !Precedes(x, order[j], order[i])
  }

  /** The calls of a run at its end. */
  function Calls(x: Execution): seq<Thread> {
    if x.states == [] then [] else x.states[|x.states| - 1].threads
  }

  /** The order explains the run: of all its calls, or of its writes alone. A call that has not returned
      may be left out, or have taken effect already. */
  ghost predicate Linearizes(x: Execution, order: seq<nat>, all: bool) {
    Covers(Calls(x), order, all) && Answered(Calls(x), order) && InTime(x, order)
  }

  /** Main result, for every interleaving. A write that has returned takes effect before every write that
      starts later. */
  lemma {:induction false} RealTime(x: Execution, k: nat, n: nat, i: nat, j: nat)
    requires IsRun(x) && k <= n < |x.states| && i < |x.states[n].log| && j < |x.states[n].log|
    requires ReturnedBy(x, k, x.states[n].log[i].thread) && UnstartedAt(x, k, x.states[n].log[j].thread)
    ensures i < j
  {
    var s, s' := x.states[k], x.states[n];
    SaneRun(x, k);
    SaneRun(x, n);
    Grows(x, k, n);
    var t := s'.log[i].thread;
    assert s.threads[t] == s'.threads[t] == Finished(Write(s'.log[i].op), Wrote(s'.log[i].reply));
    var m :| 0 <= m < |s.log| && s.log[m].thread == t;
    assert s'.log[m] == s.log[m];
  }
}
