/** Safety of the concurrent sharded store: at most one active record per subscriber in every state,
    whoever uses which provider id. */
module ShardedSafety {
  import opened Types
  import opened SubscriptionIndex
  import opened ShardedStores
  import opened ShardedInterleaving
  import opened ShardedLinearizability

  // ---------------------------------------------------------------- guards of the writes in flight

  predicate InFlight(s: System, t: int) {
    0 <= t < |s.threads| && s.threads[t].Running? && IsWrite(s.threads[t])
  }

  /** A property of the single-lock store, a guard for its writes, and when a write leaves another's guard alone. */
  type Property = StoreState -> bool
  type Guard = (StoreState, Op) -> bool
  type Apartness = (StoreState, Op, Op) -> bool

  ghost predicate Keeps(I: Property, R: Guard, F: StoreState, op: Op) {
    KeyedById(F.subs) && I(F) && R(F, op) ==> I(Next(F, op))
  }

  ghost predicate Frames(R: Guard, A: Apartness, F: StoreState, op: Op, other: Op) {
    R(F, other) && Target(op) != Target(other) && A(F, op, other) ==> R(Next(F, op), other)
  }

  ghost predicate ApartAt(x: Execution, A: Apartness, k: int, t: int, u: int) {
    0 <= k < |x.states| && InFlight(x.states[k], t) && InFlight(x.states[k], u) && t != u ==>
      A(Replay(x.states[k]), x.states[k].threads[t].call.op, x.states[k].threads[u].call.op)
  }

  ghost predicate GuardedAt(x: Execution, R: Guard, k: int) {
    0 <= k < |x.events| && k < |x.states| && x.events[k].Start? && x.events[k].call.Write? ==>
      R(Replay(x.states[k]), x.events[k].call.op)
  }

  /** The guard keeps the property, and writes that are apart leave each other's guards alone. */
  ghost predicate Sufficient(x: Execution, I: Property, R: Guard, A: Apartness) {
    && I(EMPTY)
    && (forall F, op :: Keeps(I, R, F, op))
    && (forall F, op, other :: Frames(R, A, F, op, other))
    && (forall k, t, u :: ApartAt(x, A, k, t, u))
    && (forall k :: GuardedAt(x, R, k))
  }

  /** The effect of one write. */
  lemma {:induction false} EffectGuards(x: Execution, I: Property, R: Guard, A: Apartness, k: nat, t: nat)
    requires IsRun(x) && Disciplined(x) && k < |x.states| && Sufficient(x, I, R, A) && InFlight(x.states[k], t)
    requires I(Replay(x.states[k]))
    requires forall u :: InFlight(x.states[k], u) ==> R(Replay(x.states[k]), x.states[k].threads[u].call.op)
    ensures var s, F' := x.states[k], Next(Replay(x.states[k]), x.states[k].threads[t].call.op);
            I(F') && forall u :: InFlight(s, u) && u != t ==> R(F', s.threads[u].call.op)
  {
    var s, F, op := x.states[k], Replay(x.states[k]), x.states[k].threads[t].call.op;
    LinearRun(x, k);
    assert Keeps(I, R, F, op);
    forall u | InFlight(s, u) && u != t ensures R(Next(F, op), s.threads[u].call.op) {
      assert Writing(s, t, Target(op)) && Writing(s, u, Target(s.threads[u].call.op));
      assert ApartAt(x, A, k, t, u) && Frames(R, A, F, op, s.threads[u].call.op);
    }
  }

  /** Guards met when writes start are met when they take effect. */
  lemma {:induction false} GuardsHold(x: Execution, I: Property, R: Guard, A: Apartness, k: nat)
    requires IsRun(x) && Disciplined(x) && k < |x.states| && Sufficient(x, I, R, A)
    ensures I(Replay(x.states[k]))
    ensures forall t :: InFlight(x.states[k], t) ==> R(Replay(x.states[k]), x.states[k].threads[t].call.op)
  {
    if k == 0 {
      assert Ops(x.states[0].log) == [];
    } else {
      var s, e, s' := x.states[k - 1], x.events[k - 1], x.states[k];
      GuardsHold(x, I, R, A, k - 1);
      SaneRun(x, k - 1);
      assert GuardedAt(x, R, k - 1);
      if s'.log != s.log {
        ReplayGrows(s, s', s'.log[|s.log|]);
        EffectGuards(x, I, R, A, k - 1, e.thread);
      }
    }
  }

  /** With no write of the record in flight its shard holds what the order of effects holds. */
  lemma StoredIs(hash: Hash, s: System, id: Id)
    requires Linear(hash, s) && forall t :: !Writing(s, t, id)
    ensures Stored(hash, s, id) == Get(Replay(s).subs, id)
  {
    assert SubFollows(hash, s, Replay(s), id);
  }

  // ---------------------------------------------------------------- the discipline of the callers

  /** What a caller looks at before it writes: the record as stored. */
  predicate GentleCall(was: Option<Subscription>, op: Op) {
    match op
    case Save(sub) => was.Some? && IsActive(was.value) && IsActive(sub) ==> was.value.subscriberId == sub.subscriberId
    case Delete(_) => true
    case Create(_) => was.None?
  }

  predicate CarefulCall(was: Option<Subscription>, op: Op) {
    match op
    case Save(sub) =>
      IsActive(sub) ==> was.Some? && IsActive(was.value) && was.value.subscriberId == sub.subscriberId
    case Delete(_) => true
    case Create(_) => was.None?
  }

  ghost predicate GentleAt(x: Execution, k: int) {
    0 <= k < |x.events| && k < |x.states| && x.events[k].Start? && x.events[k].call.Write? ==>
      GentleCall(Stored(x.hash, x.states[k], Target(x.events[k].call.op)), x.events[k].call.op)
  }

  ghost predicate CarefulAt(x: Execution, k: int) {
    0 <= k < |x.events| && k < |x.states| && x.events[k].Start? && x.events[k].call.Write? ==>
      CarefulCall(Stored(x.hash, x.states[k], Target(x.events[k].call.op)), x.events[k].call.op)
  }

  /** One write per record in flight, creates bring new ids, and an active record stays with its subscriber. */
  ghost predicate GentleRun(x: Execution) {
    Disciplined(x) && forall k :: GentleAt(x, k)
  }

  /** And no save makes a record active. */
  ghost predicate CarefulRun(x: Execution) {
    Disciplined(x) && forall k :: CarefulAt(x, k)
  }

  predicate Gentle(F: StoreState, op: Op) {
    GentleCall(Get(F.subs, Target(op)), op)
  }

  predicate Ready(F: StoreState, op: Op) {
    CarefulCall(Get(F.subs, Target(op)), op)
  }

  /** A ready write keeps the active index exact, whatever the provider index looks like. */
  lemma ReadyKeepsActive(F: StoreState, op: Op)
    requires KeyedById(F.subs) && ActiveExact(F) && Ready(F, op)
    ensures ActiveExact(Next(F, op))
  {
    var F', id := Next(F, op), Target(op);
    forall s, k ensures Get(F'.activeBy, s) == Some(k) <==> HasActive(F'.subs, s, k) {
      assert Get(F.activeBy, s) == Some(k) <==> HasActive(F.subs, s, k);
      assert Get(F.activeBy, s) == Some(id) <==> HasActive(F.subs, s, id);
    }
  }

  /** When saves make no record active the active index of the order of effects is exact throughout. */
  lemma {:induction false} SafeRun(x: Execution, k: nat)
    requires IsRun(x) && CarefulRun(x) && k < |x.states|
    ensures ActiveExact(Replay(x.states[k]))
    ensures forall t :: InFlight(x.states[k], t) ==> Ready(Replay(x.states[k]), x.states[k].threads[t].call.op)
  {
    var I, R := (F: StoreState) => ActiveExact(F), (F: StoreState, op: Op) => Ready(F, op);
    var A := (_: StoreState, _: Op, _: Op) => true;
    forall F, op ensures Keeps(I, R, F, op) {
      if KeyedById(F.subs) && I(F) && R(F, op) {
        ReadyKeepsActive(F, op);
      }
    }
    forall m ensures GuardedAt(x, R, m) {
      StartsAs(x, m);
      assert CarefulAt(x, m);
    }
    GuardsHold(x, I, R, A, k);
  }

  /** With active records staying with their subscribers its index entries are sound throughout. */
  lemma {:induction false} SoundRun(x: Execution, k: nat)
    requires IsRun(x) && GentleRun(x) && k < |x.states|
    ensures Sound(Replay(x.states[k]))
  {
    var I, R := (F: StoreState) => Sound(F), (F: StoreState, op: Op) => Gentle(F, op);
    var A := (_: StoreState, _: Op, _: Op) => true;
    forall F, op ensures Keeps(I, R, F, op) {
      if I(F) && R(F, op) {
        SoundStep(F, op);
      }
    }
    forall m ensures GuardedAt(x, R, m) {
      StartsAs(x, m);
      assert GentleAt(x, m);
    }
    GuardsHold(x, I, R, A, k);
  }

  /** The record a caller sees stored when its write starts is the one of the order of effects. */
  lemma {:induction false} StartsAs(x: Execution, k: int)
    requires IsRun(x) && Disciplined(x)
    ensures 0 <= k < |x.events| && x.events[k].Start? && x.events[k].call.Write? ==>
              var id := Target(x.events[k].call.op);
              Stored(x.hash, x.states[k], id) == Get(Replay(x.states[k]).subs, id)
  {
    if 0 <= k < |x.events| && x.events[k].Start? && x.events[k].call.Write? {
      assert AdmittedAt(x, k);
      LinearRun(x, k);
      StoredIs(x.hash, x.states[k], Target(x.events[k].call.op));
    }
  }

  // ---------------------------------------------------------------- what it means

  /** The subscriber for whom the shards hold the record as active, finished writes or not. */
  function StoredActiveFor(hash: Hash, s: System, id: Id): Option<Text> {
    match Stored(hash, s, id)
    case Some(sub) => if IsActive(sub) then Some(sub.subscriberId) else None
    case None => None
  }

  /** A stored active record is either active in the order of effects too, or being created by a call
      that still holds the active-index lock and found no other. */
  lemma {:induction false} StoredActive(x: Execution, k: nat, id: Id) returns (t: int)
    requires IsRun(x) && CarefulRun(x) && k < |x.states| && StoredActiveFor(x.hash, x.states[k], id).Some?
    ensures var s, who := x.states[k], StoredActiveFor(x.hash, x.states[k], id).value;
            || HasActive(Replay(s).subs, who, id)
            || (Writing(s, t, id) && KeepsActive(s.threads[t]) && who !in Replay(s).activeBy)
  {
    var s := x.states[k];
    t := 0;
    LinearRun(x, k);
    SafeRun(x, k);
    assert SubFollows(x.hash, s, Replay(s), id);
    if u :| ShardAhead(s, u, id) {
      t := u;
      assert InFlight(s, t) && Shaped(x.hash, s.threads[t]);
    }
  }

  /** Main result: in every state of every interleaving a subscriber has at most one active or
      trialing record across all shards, finished writes or not. */
  lemma {:induction false} AtMostOneActive(x: Execution, k: nat, a: Id, b: Id)
    requires IsRun(x) && CarefulRun(x) && k < |x.states|
    requires StoredActiveFor(x.hash, x.states[k], a).Some?
    requires StoredActiveFor(x.hash, x.states[k], a) == StoredActiveFor(x.hash, x.states[k], b)
    ensures a == b
  {
    var s, who := x.states[k], StoredActiveFor(x.hash, x.states[k], a).value;
    var F := Replay(s);
    SafeRun(x, k);
    SaneRun(x, k);
    var t := StoredActive(x, k, a);
    var u := StoredActive(x, k, b);
    assert HasActive(F.subs, who, a) ==> Get(F.activeBy, who) == Some(a);
    assert HasActive(F.subs, who, b) ==> Get(F.activeBy, who) == Some(b);
    if !HasActive(F.subs, who, a) && !HasActive(F.subs, who, b) {
      assert Holds(s.threads[t], ActiveMu) && Holds(s.threads[u], ActiveMu);
      MutualExclusion(x.hash, s, t, u, ActiveMu);
    }
  }

  /** Main result: whenever no write is in flight the active index satisfies its documented equivalence
      over all shards. */
  lemma {:induction false} QuiescentActive(x: Execution, k: nat)
    requires IsRun(x) && CarefulRun(x) && k < |x.states| && NoWrites(x.states[k])
    ensures Placed(x.hash, x.states[k].shards)
    ensures ActiveExact(StoreState(Union(x.hash, x.states[k].shards), x.states[k].byProvider, x.states[k].activeBy))
  {
    SafeRun(x, k);
    AtRest(x, k);
  }
}
