/** Linearizability of the concurrent sharded store. The writes always fit into one order; a read fits into it
    at an instant at which its answer was the right one. */
module ShardedCalls {
  import opened Types
  import opened SubscriptionIndex
  import opened ShardedInterleaving
  import opened ShardedLinearizability
  import opened ShardedHistory

  // ---------------------------------------------------------------- an instant for every read

  /** The instant at which each read is to take place. */
  type Instants = nat -> nat

  predicate IsReturnedRead(threads: seq<Thread>, t: nat) {
    t < |threads| && threads[t].Finished? && !IsWrite(threads[t])
  }

  /** Call `t` was running at instant `k`. */
  ghost predicate Runs(x: Execution, k: nat, t: nat) {
    k < |x.states| && t < |x.states[k].threads| && x.states[k].threads[t].Running?
  }

  /** Each returned read takes place while it runs. */
  ghost predicate Within(x: Execution, at: Instants) {
    forall t: nat :: IsReturnedRead(Calls(x), t) ==> Runs(x, at(t), t)
  }

  /** The answer was right at instant `k`. */
  ghost predicate RightAt(x: Execution, k: nat, th: Thread) {
    k < |x.states| && th.Finished? && th.answer == AnswerOf(Replay(x.states[k]), th.call)
  }

  // ---------------------------------------------------------------- the order

  predicate IsPicked(threads: seq<Thread>, at: Instants, all: bool, k: nat, t: nat) {
    all && IsReturnedRead(threads, t) && at(t) == k
  }

  /** The order with the reads among the first `n` calls appended that take place at instant `k`, if reads are to
      be ordered. */
  function WithReads(order: seq<nat>, threads: seq<Thread>, at: Instants, all: bool, k: nat, n: nat): seq<nat> {
    if n == 0 then order
    else
      var rest := WithReads(order, threads, at, all, k, n - 1);
      if IsPicked(threads, at, all, k, n - 1) then rest + [n - 1] else rest
  }

  predicate HasWritten(s: System, t: nat) {
    t < |s.threads| && s.threads[t].Finished? && IsWrite(s.threads[t])
  }

  /** The order with the write appended that returns in the step, if one does. */
  function WithWrite(order: seq<nat>, e: Event, s': System): seq<nat> {
    if e.Advance? && HasWritten(s', e.thread) then order + [e.thread] else order
  }

  /** Instant by instant: the reads that take place then, and the write that returns in the step. */
  ghost function OrderTo(x: Execution, at: Instants, all: bool, k: nat): seq<nat> {
    if k == 0 || k >= |x.states| || k > |x.events| then []
    else
      var order := WithReads(OrderTo(x, at, all, k - 1), Calls(x), at, all, k - 1, |Calls(x)|);
      WithWrite(order, x.events[k - 1], x.states[k])
  }

  lemma {:induction false} ReadsPlaced(order: seq<nat>, threads: seq<Thread>, at: Instants, all: bool, k: nat, n: nat)
    requires Distinguished(order) && forall t: nat :: IsPicked(threads, at, all, k, t) ==> t !in order
    ensures var more := WithReads(order, threads, at, all, k, n);
            && order <= more && Distinguished(more)
            && forall t: nat :: t in more <==> t in order || (t < n && IsPicked(threads, at, all, k, t))
  {
    if n > 0 {
      ReadsPlaced(order, threads, at, all, k, n - 1);
    }
  }

  /** The calls placed before instant `k`, once each. */
  ghost predicate Places(x: Execution, at: Instants, all: bool, k: nat, order: seq<nat>) {
    && k < |x.states| && Distinguished(order)
    && forall t: nat ::
         t in order <==> (all && IsReturnedRead(Calls(x), t) && at(t) < k) || HasWritten(x.states[k], t)
  }

  lemma WrittenStep(s: System, e: Event, s': System)
    requires Stepped(s, e, s')
    ensures forall t: nat :: HasWritten(s', t) <==>
              HasWritten(s, t) || (e.Advance? && t == e.thread && HasWritten(s', e.thread))
    ensures e.Advance? ==> !HasWritten(s, e.thread)
  {
  }

  /** The calls placed up to instant `k`, reads included, before its step. */
  lemma {:induction false} PlacesReads(x: Execution, at: Instants, all: bool, k: nat, order: seq<nat>)
    requires IsRun(x) && k < |x.states| && Places(x, at, all, k, order)
    ensures var mid := WithReads(order, Calls(x), at, all, k, |Calls(x)|);
            && order <= mid && Distinguished(mid)
            && forall t: nat ::
                 t in mid <==> (all && IsReturnedRead(Calls(x), t) && at(t) <= k) || HasWritten(x.states[k], t)
  {
    Grows(x, k, |x.events|);
    ReadsPlaced(order, Calls(x), at, all, k, |Calls(x)|);
  }

  lemma {:induction false} PlacesStep(x: Execution, at: Instants, all: bool, k: nat, order: seq<nat>)
    requires IsRun(x) && k < |x.events| && Places(x, at, all, k, order)
    ensures var more := WithWrite(WithReads(order, Calls(x), at, all, k, |Calls(x)|), x.events[k], x.states[k + 1]);
            Places(x, at, all, k + 1, more) && order <= more
  {
    SaneRun(x, k);
    Grows(x, k + 1, |x.events|);
    PlacesReads(x, at, all, k, order);
    WrittenStep(x.states[k], x.events[k], x.states[k + 1]);
    assert forall t: nat :: HasWritten(x.states[k + 1], t) ==> !IsReturnedRead(Calls(x), t);
  }

  lemma {:induction false} OrderPlaces(x: Execution, at: Instants, all: bool, k: nat, n: nat)
    requires IsRun(x) && k <= n < |x.states|
    ensures Places(x, at, all, n, OrderTo(x, at, all, n)) && OrderTo(x, at, all, k) <= OrderTo(x, at, all, n)
  {
    if n > 0 {
      OrderPlaces(x, at, all, if k < n then k else n - 1, n - 1);
      PlacesStep(x, at, all, n - 1, OrderTo(x, at, all, n - 1));
    }
  }

  // ---------------------------------------------------------------- it covers the run and respects time

  /** A call of the order returned by instant `k` was placed before, and what is placed before has started. */
  lemma {:induction false} PlacedInTime(x: Execution, at: Instants, all: bool, k: nat, t: nat)
    requires IsRun(x) && (all ==> Within(x, at)) && k < |x.states|
    requires Places(x, at, all, |x.events|, OrderTo(x, at, all, |x.events|))
    ensures ReturnedBy(x, k, t) && t in OrderTo(x, at, all, |x.events|) ==> t in OrderTo(x, at, all, k)
    ensures t in OrderTo(x, at, all, k) ==> !UnstartedAt(x, k, t)
  {
    OrderPlaces(x, at, all, k, k);
    Grows(x, k, |x.events|);
    if all && IsReturnedRead(Calls(x), t) {
      assert Runs(x, at(t), t);
      if at(t) < k {
        Grows(x, at(t), k);
      } else {
        Grows(x, k, at(t));
      }
    }
  }

  lemma PrefixFirst(order: seq<nat>, early: seq<nat>, i: nat, j: nat)
    requires early <= order && Distinguished(order) && i < j < |order| && order[j] in early
    ensures order[i] in early
  {
    var p :| 0 <= p < |early| && early[p] == order[j];
    assert order[p] == order[j];
    assert early[i] == order[i];
  }

  lemma {:induction false} OrderInTime(x: Execution, at: Instants, all: bool)
    requires IsRun(x) && (all ==> Within(x, at))
    ensures InTime(x, OrderTo(x, at, all, |x.events|)) && Covers(Calls(x), OrderTo(x, at, all, |x.events|), all)
  {
    var order := OrderTo(x, at, all, |x.events|);
    OrderPlaces(x, at, all, 0, |x.events|);
    forall i | 0 <= i < |order| ensures order[i] < |Calls(x)| && (all || IsWrite(Calls(x)[order[i]])) {
      assert order[i] in order;
    }
    forall t: nat | all && IsReturnedRead(Calls(x), t) ensures at(t) < |x.events| {
      assert Runs(x, at(t), t);
    }
    forall i, j, k: nat | 0 <= i < j < |order| && ReturnedBy(x, k, order[j]) ensures !UnstartedAt(x, k, order[i]) {
      PlacedInTime(x, at, all, k, order[j]);
      OrderPlaces(x, at, all, k, |x.events|);
      PrefixFirst(order, OrderTo(x, at, all, k), i, j);
      PlacedInTime(x, at, all, k, order[i]);
    }
  }

  // ---------------------------------------------------------------- what each call answers

  /** The order leads to `F`, and its answers are right if and only if `right`. */
  ghost predicate Leads(threads: seq<Thread>, order: seq<nat>, F: StoreState, right: bool) {
    After(threads, order) == F && Answered(threads, order) == right
  }

  lemma {:induction false} OneMore(threads: seq<Thread>, order: seq<nat>, t: nat, F: StoreState, right: bool)
    requires Leads(threads, order, F, right) && t < |threads|
    ensures Leads(threads, order + [t], Applied(F, threads[t].call), right && AnswerFits(F, threads, t))
  {
    var more := order + [t];
    assert more[..|more| - 1] == order && more[|more| - 1] == t;
  }

  /** The first `n` calls that take place at instant `k` fit there. */
  ghost predicate PicksFit(threads: seq<Thread>, at: Instants, all: bool, k: nat, n: nat, F: StoreState) {
    forall t: nat :: t < n && IsPicked(threads, at, all, k, t) ==> AnswerFits(F, threads, t)
  }

  lemma {:induction false} ReadsMore(order: seq<nat>, threads: seq<Thread>, at: Instants, all: bool, k: nat, n: nat,
                                     F: StoreState, right: bool)
    requires Leads(threads, order, F, right) && n <= |threads|
    ensures Leads(threads, WithReads(order, threads, at, all, k, n), F, right && PicksFit(threads, at, all, k, n, F))
  {
    if n > 0 {
      ReadsMore(order, threads, at, all, k, n - 1, F, right);
      if IsPicked(threads, at, all, k, n - 1) {
        OneMore(threads, WithReads(order, threads, at, all, k, n - 1), n - 1, F,
                right && PicksFit(threads, at, all, k, n - 1, F));
      }
    }
  }

  /** A write that returns in the step takes effect in `F` with the answer it got; no other step takes effect. */
  ghost predicate Effects(F: StoreState, e: Event, s': System, F': StoreState) {
    if e.Advance? && HasWritten(s', e.thread) then
      F' == Applied(F, s'.threads[e.thread].call) && AnswerFits(F, s'.threads, e.thread)
    else F' == F
  }

  lemma {:induction false} StepReplays(x: Execution, k: nat)
    requires IsRun(x) && Disciplined(x) && k < |x.events|
    ensures Effects(Replay(x.states[k]), x.events[k], x.states[k + 1], Replay(x.states[k + 1]))
    ensures ThreadsKept(x.states[k + 1].threads, Calls(x))
  {
    var s, e, s' := x.states[k], x.events[k], x.states[k + 1];
    SaneRun(x, k);
    LinearRun(x, k + 1);
    Grows(x, k + 1, |x.events|);
    if e.Advance? && HasWritten(s', e.thread) {
      ReplayGrows(s, s', s'.log[|s.log|]);
      assert ExplainedAt(s'.log, |s.log|) && s'.log[..|s.log|] == s.log;
    }
  }

  lemma {:induction false} WriteMore(order: seq<nat>, threads: seq<Thread>, e: Event, s': System, F: StoreState,
                                     F': StoreState, right: bool)
    requires Leads(threads, order, F, right) && Effects(F, e, s', F') && ThreadsKept(s'.threads, threads)
    ensures Leads(threads, WithWrite(order, e, s'), F', right)
  {
    if e.Advance? && HasWritten(s', e.thread) {
      OneMore(threads, order, e.thread, F, right);
    }
  }

  /** Each read placed so far was right at its instant. */
  ghost predicate RightBefore(x: Execution, at: Instants, k: nat) {
    forall t: nat :: IsReturnedRead(Calls(x), t) && at(t) < k ==> RightAt(x, at(t), Calls(x)[t])
  }

  /** The reads of one instant. */
  lemma {:induction false} ReadsExplain(x: Execution, at: Instants, all: bool, k: nat, order: seq<nat>)
    requires k < |x.states| && Leads(Calls(x), order, Replay(x.states[k]), all ==> RightBefore(x, at, k))
    ensures Leads(Calls(x), WithReads(order, Calls(x), at, all, k, |Calls(x)|), Replay(x.states[k]),
                  all ==> RightBefore(x, at, k + 1))
  {
    ReadsMore(order, Calls(x), at, all, k, |Calls(x)|, Replay(x.states[k]), all ==> RightBefore(x, at, k));
    assert forall t: nat :: IsPicked(Calls(x), at, all, k, t) ==>
             (AnswerFits(Replay(x.states[k]), Calls(x), t) <==> RightAt(x, k, Calls(x)[t]));
  }

  /** And the write that returns in the step. */
  lemma {:induction false} ExplainsStep(x: Execution, at: Instants, all: bool, k: nat, order: seq<nat>)
    requires IsRun(x) && Disciplined(x) && k < |x.events|
    requires Leads(Calls(x), order, Replay(x.states[k]), all ==> RightBefore(x, at, k))
    ensures Leads(Calls(x), WithWrite(WithReads(order, Calls(x), at, all, k, |Calls(x)|), x.events[k], x.states[k + 1]),
                  Replay(x.states[k + 1]), all ==> RightBefore(x, at, k + 1))
  {
    ReadsExplain(x, at, all, k, order);
    StepReplays(x, k);
    WriteMore(WithReads(order, Calls(x), at, all, k, |Calls(x)|), Calls(x), x.events[k], x.states[k + 1],
              Replay(x.states[k]), Replay(x.states[k + 1]), all ==> RightBefore(x, at, k + 1));
  }

  lemma {:induction false} OrderExplainsNext(x: Execution, at: Instants, all: bool, k: nat)
    requires IsRun(x) && Disciplined(x) && k < |x.events|
    requires Leads(Calls(x), OrderTo(x, at, all, k), Replay(x.states[k]), all ==> RightBefore(x, at, k))
    ensures Leads(Calls(x), OrderTo(x, at, all, k + 1), Replay(x.states[k + 1]), all ==> RightBefore(x, at, k + 1))
  {
    ExplainsStep(x, at, all, k, OrderTo(x, at, all, k));
  }

  lemma {:induction false} OrderExplains(x: Execution, at: Instants, all: bool, k: nat)
    requires IsRun(x) && Disciplined(x) && k < |x.states|
    ensures Leads(Calls(x), OrderTo(x, at, all, k), Replay(x.states[k]), all ==> RightBefore(x, at, k))
  {
    if k == 0 {
      assert Ops(x.states[0].log) == [];
    } else {
      OrderExplains(x, at, all, k - 1);
      OrderExplainsNext(x, at, all, k - 1);
    }
  }

  // ---------------------------------------------------------------- whole runs

  /** Main result. Give every returned read an instant at which it was running. The calls in the order of their
      instants, a write's being its return, explain the run, if and only if every read was right at its own. */
  lemma {:induction false} CallsLinearize(x: Execution, at: Instants, order: seq<nat>)
    requires IsRun(x) && Disciplined(x) && Within(x, at) && order == OrderTo(x, at, true, |x.events|)
    ensures Linearizes(x, order, true)
       <==> forall t: nat :: IsReturnedRead(Calls(x), t) ==> RightAt(x, at(t), Calls(x)[t])
  {
    OrderInTime(x, at, true);
    OrderExplains(x, at, true, |x.events|);
    forall t: nat | IsReturnedRead(Calls(x), t) ensures at(t) < |x.events| {
      assert Runs(x, at(t), t);
    }
  }

  /** Main result. With at most one write per record in flight the writes of every interleaving are
      linearizable to the single-lock store: there is an order that respects real time, gives every reply the
      callers got, and leads to the store after the logged writes. */
  lemma {:induction false} Linearizable(x: Execution) returns (order: seq<nat>)
    requires IsRun(x) && Disciplined(x)
    ensures Linearizes(x, order, false)
    ensures After(Calls(x), order) == Replay(x.states[|x.events|])
  {
    var at := (t: nat) => 0 as nat;
    OrderInTime(x, at, false);
    OrderExplains(x, at, false, |x.events|);
    order := OrderTo(x, at, false, |x.events|);
  }

  /** At some instant while the call ran its answer was right. */
  ghost predicate RightSometime(x: Execution, t: nat) {
    t < |Calls(x)| && exists k: nat :: Runs(x, k, t) && RightAt(x, k, Calls(x)[t])
  }

  ghost function InstantOf(x: Execution, t: nat): nat {
    if RightSometime(x, t) then
      var k: nat :| Runs(x, k, t) && RightAt(x, k, Calls(x)[t]);
      k
    else 0
  }

  /** Main result. So a run is linearizable, reads included, if every read that returned was right at some instant
      while it ran. */
  lemma {:induction false} RunLinearizes(x: Execution) returns (order: seq<nat>)
    requires IsRun(x) && Disciplined(x)
    requires forall t: nat :: IsReturnedRead(Calls(x), t) ==> RightSometime(x, t)
    ensures Linearizes(x, order, true)
  {
    var at := (t: nat) => InstantOf(x, t);
    assert Within(x, at);
    order := OrderTo(x, at, true, |x.events|);
    CallsLinearize(x, at, order);
  }
}
