/** The provider index of the concurrent sharded store. It is written under its own lock, before the write
    takes effect, so two writes in flight must not touch the same provider id as well; then it follows the
    order of effects too, and both documented equivalences hold at rest. */
module ShardedProviders {
  import opened Types
  import opened SubscriptionIndex
  import opened ShardedStores
  import opened ShardedInterleaving
  import opened ShardedLinearizability
  import opened ShardedSafety

  // ---------------------------------------------------------------- the discipline of the callers

  predicate Names(sub: Option<Subscription>, p: Text) {
    p != [] && sub.Some? && sub.value.providerId == p
  }

  /** A write replacing `was` changes the entry of the provider id. */
  predicate Touches(was: Option<Subscription>, op: Op, p: Text) {
    (!op.Delete? && Names(Some(op.sub), p)) || (!op.Create? && Names(was, p))
  }

  /** The record a write in flight replaces. */
  function Replaced(hash: Hash, s: System, th: Thread): Option<Subscription> {
    if !IsWrite(th) then None else if ShardDone(th) then th.was else Stored(hash, s, Target(th.call.op))
  }

  /** No write in flight touches a provider id that this one touches. */
  ghost predicate AdmitsApart(hash: Hash, s: System, call: Call) {
    call.Write? ==>
      forall t, p :: InFlight(s, t) && Touches(Replaced(hash, s, s.threads[t]), s.threads[t].call.op, p) ==>
                       !Touches(Stored(hash, s, Target(call.op)), call.op, p)
  }

  ghost predicate StartsApart(x: Execution, k: int) {
    0 <= k < |x.events| && k < |x.states| && x.events[k].Start? ==> AdmitsApart(x.hash, x.states[k], x.events[k].call)
  }

  ghost predicate ApartRun(x: Execution) {
    forall k :: StartsApart(x, k)
  }

  // ---------------------------------------------------------------- the invariant

  /** The write has changed the provider index but has not taken effect yet. */
  predicate PidDone(th: Thread) {
    && th.Running? && IsWrite(th)
    && if th.call.op.Create? then th.phase.Commit? else th.phase in {WantActive, InActive}
  }

  predicate TouchesIn(s: System, F: StoreState, t: int, p: Text) {
    InFlight(s, t) && Touches(Get(F.subs, Target(s.threads[t].call.op)), s.threads[t].call.op, p)
  }

  ghost predicate Apart(s: System, F: StoreState) {
    forall t, u, p :: TouchesIn(s, F, t, p) && TouchesIn(s, F, u, p) ==> t == u
  }

  predicate Ahead(s: System, F: StoreState, t: int, p: Text) {
    TouchesIn(s, F, t, p) && PidDone(s.threads[t])
  }

  /** What the write makes of the index of `F`. */
  function Made(F: StoreState, op: Op): map<Text, Id> {
    ProviderAfter(F.byProvider, op, Get(F.subs, Target(op)))
  }

  /** Provider id by provider id, the index is that of `F` but for the writes that are ahead. */
  ghost predicate PidFollows(s: System, F: StoreState, p: Text) {
    && ((forall t :: !Ahead(s, F, t, p)) ==> Get(s.byProvider, p) == Get(F.byProvider, p))
    && (forall t :: Ahead(s, F, t, p) ==> Get(s.byProvider, p) == Get(Made(F, s.threads[t].call.op), p))
  }

  ghost predicate PidsFollow(s: System, F: StoreState) {
    Apart(s, F) && forall p :: PidFollows(s, F, p)
  }

  /** The update of the index at one key depends on that key alone, and leaves it alone if the write does not
      touch it. */
  lemma ProviderAt(a: map<Text, Id>, b: map<Text, Id>, op: Op, was: Option<Subscription>, p: Text)
    ensures Get(a, p) == Get(b, p) ==> Get(ProviderAfter(a, op, was), p) == Get(ProviderAfter(b, op, was), p)
    ensures !Touches(was, op, p) ==> Get(ProviderAfter(a, op, was), p) == Get(a, p)
  {
  }

  // ---------------------------------------------------------------- steps

  /** Steps that leave the index alone and no write further or less far with it. */
  lemma PidsSame(s: System, F: StoreState, s': System)
    requires PidsFollow(s, F) && s'.byProvider == s.byProvider && |s'.threads| == |s.threads|
    requires forall t, p :: TouchesIn(s', F, t, p) ==> TouchesIn(s, F, t, p) && s'.threads[t].call == s.threads[t].call
    requires forall t, p :: Ahead(s', F, t, p) == Ahead(s, F, t, p)
    ensures PidsFollow(s', F)
  {
    forall p ensures PidFollows(s', F, p) {
      assert PidFollows(s, F, p);
    }
  }

  /** Thread `t` changes the index. */
  lemma PidsMove(s: System, F: StoreState, t: nat, s': System)
    requires PidsFollow(s, F) && Moves(s, t, s') && !PidDone(s.threads[t]) && PidDone(s'.threads[t])
    requires s'.byProvider ==
             ProviderAfter(s.byProvider, s.threads[t].call.op, Get(F.subs, Target(s.threads[t].call.op)))
    ensures PidsFollow(s', F)
  {
    var op, was := s.threads[t].call.op, Get(F.subs, Target(s.threads[t].call.op));
    assert forall u, p :: TouchesIn(s', F, u, p) == TouchesIn(s, F, u, p);
    forall p ensures PidFollows(s', F, p) {
      assert PidFollows(s, F, p);
      assert Ahead(s', F, t, p) == TouchesIn(s, F, t, p) && !Ahead(s, F, t, p);
      assert forall u :: u != t ==> Ahead(s', F, u, p) == Ahead(s, F, u, p);
      ProviderAt(s.byProvider, F.byProvider, op, was, p);
    }
  }

  /** Thread `t` takes effect and returns. */
  lemma PidsReturn(s: System, F: StoreState, t: nat, s': System)
    requires PidsFollow(s, F) && Distinct(s) && Moves(s, t, s') && s'.byProvider == s.byProvider
    requires PidDone(s.threads[t]) && s'.threads[t].Finished? && ReplyTo(F, s.threads[t].call.op) == Done
    ensures PidsFollow(s', Next(F, s.threads[t].call.op))
  {
    var op, F' := s.threads[t].call.op, Next(F, s.threads[t].call.op);
    forall u | InFlight(s, u) && u != t
      ensures Get(F'.subs, Target(s.threads[u].call.op)) == Get(F.subs, Target(s.threads[u].call.op))
    {
      assert Writing(s, t, Target(op)) && Writing(s, u, Target(s.threads[u].call.op));
    }
    assert forall u, p :: TouchesIn(s', F', u, p) == (u != t && TouchesIn(s, F, u, p));
    forall p ensures PidFollows(s', F', p) {
      PidReturns(s, F, t, s', p);
    }
  }

  /** Provider id by provider id. */
  lemma PidReturns(s: System, F: StoreState, t: nat, s': System, p: Text)
    requires Apart(s, F) && PidFollows(s, F, p) && Moves(s, t, s') && s'.byProvider == s.byProvider
    requires PidDone(s.threads[t]) && s'.threads[t].Finished? && ReplyTo(F, s.threads[t].call.op) == Done
    requires forall u :: InFlight(s, u) && u != t ==>
               Get(Next(F, s.threads[t].call.op).subs, Target(s.threads[u].call.op)) ==
                   Get(F.subs, Target(s.threads[u].call.op))
    ensures PidFollows(s', Next(F, s.threads[t].call.op), p)
  {
    var op, F' := s.threads[t].call.op, Next(F, s.threads[t].call.op);
    assert forall u :: Ahead(s', F', u, p) == (u != t && Ahead(s, F, u, p));
    ProviderAt(F.byProvider, F.byProvider, op, Get(F.subs, Target(op)), p);
    forall u | Ahead(s', F', u, p) ensures Get(s'.byProvider, p) == Get(Made(F', s.threads[u].call.op), p) {
      assert !TouchesIn(s, F, t, p);
      ProviderAt(F.byProvider, F'.byProvider, s.threads[u].call.op, Get(F.subs, Target(s.threads[u].call.op)), p);
    }
    assert Ahead(s, F, t, p) == TouchesIn(s, F, t, p);
  }

  /** What a caller sees of a write in flight is what the order of effects says. */
  lemma ReplacedIs(hash: Hash, s: System, t: nat)
    requires Linear(hash, s) && InFlight(s, t)
    ensures Replaced(hash, s, s.threads[t]) == Get(Replay(s).subs, Target(s.threads[t].call.op))
  {
    var id := Target(s.threads[t].call.op);
    assert Writing(s, t, id) && SubFollows(hash, s, Replay(s), id);
    assert forall u :: ShardAhead(s, u, id) ==> u == t;
  }

  lemma PidsStart(hash: Hash, s: System, F: StoreState, call: Call)
    requires Linear(hash, s) && F == Replay(s) && PidsFollow(s, F) && Admits(s, call) && AdmitsApart(hash, s, call)
    ensures PidsFollow(Apply(hash, s, Start(call)), F)
  {
    var s', n := Apply(hash, s, Start(call)), |s.threads|;
    assert forall t, p :: t != n ==> TouchesIn(s', F, t, p) == TouchesIn(s, F, t, p);
    if call.Write? {
      StoredIs(hash, s, Target(call.op));
      forall t, p | TouchesIn(s, F, t, p) ensures !TouchesIn(s', F, n, p) {
        ReplacedIs(hash, s, t);
      }
    }
    forall p ensures PidFollows(s', F, p) {
      assert PidFollows(s, F, p);
      assert forall t :: Ahead(s', F, t, p) == Ahead(s, F, t, p);
    }
  }

  lemma PidsRegion(hash: Hash, s: System, t: nat, s': System)
    requires Linear(hash, s) && PidsFollow(s, Replay(s)) && InFlight(s, t) && Wants(s.threads[t]).None?
    requires s.threads[t].slot < |s.shards| && s' == WriteRegion(s, t) && Moves(s, t, s') && !AtLastUpdate(s.threads[t])
    ensures PidsFollow(s', Replay(s))
  {
    if s.threads[t].phase.InPid? {
      ReplacedIs(hash, s, t);
      PidsMove(s, Replay(s), t, s');
    } else {
      assert Shaped(hash, s.threads[t]);
      PidsSame(s, Replay(s), s');
    }
  }

  lemma PidsWrite(hash: Hash, s: System, t: nat, s': System)
    requires Linear(hash, s) && PidsFollow(s, Replay(s)) && InFlight(s, t) && Wants(s.threads[t]).None?
    requires s.threads[t].slot < |s.shards| && s' == WriteRegion(s, t) && Stepped(s, Advance(t), s')
    ensures PidsFollow(s', Replay(s'))
  {
    assert Shaped(hash, s.threads[t]);
    if s'.threads[t].Finished? {
      ReplayGrows(s, s', s'.log[|s.log|]);
    }
    if AtLastUpdate(s.threads[t]) {
      EffectAccepted(hash, s, Replay(s), t);
      PidsReturn(s, Replay(s), t, s');
    } else {
      PidsRegion(hash, s, t, s');
      RegionPasses(hash, s, Replay(s), t, s');
    }
  }

  lemma PidsQuiet(hash: Hash, s: System, F: StoreState, t: nat, s': System)
    requires PidsFollow(s, F) && Moves(s, t, s') && (Wants(s.threads[t]).None? ==> !IsWrite(s.threads[t]))
    requires Wants(s.threads[t]).None? ==> s.threads[t].slot < |s.shards|
    requires s' == if Wants(s.threads[t]).Some? then Acquire(s, t) else ReadRegion(hash, s, t)
    ensures PidsFollow(s', F)
  {
    PidsSame(s, F, s');
  }

  lemma PidsStep(hash: Hash, s: System, e: Event, s': System)
    requires Linear(hash, s) && PidsFollow(s, Replay(s)) && Enabled(s, e) && s' == Apply(hash, s, e)
    requires Stepped(s, e, s')
    requires e.Start? ==> Admits(s, e.call) && AdmitsApart(hash, s, e.call)
    ensures PidsFollow(s', Replay(s'))
  {
    if e.Start? {
      PidsStart(hash, s, Replay(s), e.call);
    } else if Wants(s.threads[e.thread]).None? && IsWrite(s.threads[e.thread]) {
      PidsWrite(hash, s, e.thread, s');
    } else {
      PidsQuiet(hash, s, Replay(s), e.thread, s');
    }
  }

  lemma {:induction false} PidsNext(x: Execution, k: nat)
    requires IsRun(x) && Disciplined(x) && ApartRun(x) && k < |x.events|
    requires PidsFollow(x.states[k], Replay(x.states[k]))
    ensures PidsFollow(x.states[k + 1], Replay(x.states[k + 1]))
  {
    LinearRun(x, k);
    SaneRun(x, k);
    assert Happens(x, k) && AdmittedAt(x, k) && StartsApart(x, k);
    PidsStep(x.hash, x.states[k], x.events[k], x.states[k + 1]);
  }

  /** With one write in flight per record and per provider id the provider index differs from that of the order
      of effects only at provider ids of writes between their regions. */
  lemma {:induction false} PidsRun(x: Execution, k: nat)
    requires IsRun(x) && Disciplined(x) && ApartRun(x) && k < |x.states|
    ensures PidsFollow(x.states[k], Replay(x.states[k]))
  {
    if k == 0 {
      assert Ops(x.states[0].log) == [];
      forall p ensures PidFollows(x.states[0], EMPTY, p) {
      }
    } else {
      PidsRun(x, k - 1);
      PidsNext(x, k - 1);
    }
  }

  // ---------------------------------------------------------------- what it means

  /** Main result. With at most one write per record and per provider id in flight, the whole store at rest
      is the single-lock store after the logged order. */
  lemma {:induction false} WholeAtRest(x: Execution, k: nat)
    requires IsRun(x) && Disciplined(x) && ApartRun(x) && k < |x.states| && NoWrites(x.states[k])
    ensures var s := x.states[k];
            && Placed(x.hash, s.shards)
            && StoreState(Union(x.hash, s.shards), s.byProvider, s.activeBy) == Replay(s)
  {
    var s, F := x.states[k], Replay(x.states[k]);
    AtRest(x, k);
    PidsRun(x, k);
    forall p ensures Get(s.byProvider, p) == Get(F.byProvider, p) {
      assert PidFollows(s, F, p);
      assert forall t :: !Ahead(s, F, t, p);
    }
    SameByGet(s.byProvider, F.byProvider);
  }

  /** Every write that has changed the index at `p` and not yet taken effect leaves the entry as it was;
      in particular if there is no such write. */
  ghost predicate EntrySettled(s: System, F: StoreState, p: Text) {
    forall t :: Ahead(s, F, t, p) ==> Get(Made(F, s.threads[t].call.op), p) == Get(F.byProvider, p)
  }

  // ---------------------------------------------------------------- the equivalence

  /** No other stored record carries the provider id. */
  ghost predicate UnsharedAt(x: Execution, k: int) {
    0 <= k < |x.events| && k < |x.states| && x.events[k].Start? && x.events[k].call.Write? ==>
      var op := x.events[k].call.op;
      !op.Delete? ==>
        forall id :: Names(Stored(x.hash, x.states[k], id), op.sub.providerId) ==> id == op.sub.id
  }

  ghost predicate UnsharedRun(x: Execution) {
    forall k :: UnsharedAt(x, k)
  }

  predicate Sole(F: StoreState, op: Op) {
    !op.Delete? ==> forall id :: id in F.subs && Names(Some(F.subs[id]), op.sub.providerId) ==> id == op.sub.id
  }

  /** The two writes touch different provider ids. */
  ghost predicate OpsApart(F: StoreState, op: Op, other: Op) {
    forall p :: Touches(Get(F.subs, Target(op)), op, p) ==> !Touches(Get(F.subs, Target(other)), other, p)
  }

  lemma SoleKeepsExact(F: StoreState, op: Op)
    requires Exact(F) && Ready(F, op) && Sole(F, op)
    ensures Exact(Next(F, op))
  {
    if !op.Delete? && op.sub.providerId in F.byProvider {
      assert Get(F.byProvider, op.sub.providerId) == Some(F.byProvider[op.sub.providerId]);
      assert HasProvider(F.subs, op.sub.providerId, F.byProvider[op.sub.providerId]);
    }
    if op.Save? && IsActive(op.sub) {
      assert HasActive(F.subs, op.sub.subscriberId, op.sub.id);
      assert Get(F.activeBy, op.sub.subscriberId) == Some(op.sub.id);
    }
    ExactStep(F, op);
  }

  /** A write that starts while no stored record shares its provider id meets its guard in the order of
      effects. */
  lemma {:induction false} StartsSole(x: Execution, k: int)
    requires IsRun(x) && CarefulRun(x) && ApartRun(x) && UnsharedRun(x)
    ensures 0 <= k < |x.events| && x.events[k].Start? && x.events[k].call.Write? ==>
              Sole(Replay(x.states[k]), x.events[k].call.op)
  {
    if 0 <= k < |x.events| && x.events[k].Start? && x.events[k].call.Write? && !x.events[k].call.op.Delete? {
      var s, op, F := x.states[k], x.events[k].call.op, Replay(x.states[k]);
      LinearRun(x, k);
      SafeRun(x, k);
      assert StartsApart(x, k) && UnsharedAt(x, k);
      forall id | id in F.subs && Names(Some(F.subs[id]), op.sub.providerId) ensures id == op.sub.id {
        assert SubFollows(x.hash, s, F, id);
        if t :| ShardAhead(s, t, id) {
          ReplacedIs(x.hash, s, t);
          assert InFlight(s, t) && Touches(Get(F.subs, id), s.threads[t].call.op, op.sub.providerId);
          assert Touches(Stored(x.hash, s, Target(op)), op, op.sub.providerId);
          assert false;
        }
      }
    }
  }

  lemma {:induction false} ExactRun(x: Execution, k: nat)
    requires IsRun(x) && CarefulRun(x) && ApartRun(x) && UnsharedRun(x) && k < |x.states|
    ensures Exact(Replay(x.states[k]))
  {
    var I, R := (F: StoreState) => Exact(F), (F: StoreState, op: Op) => Ready(F, op) && Sole(F, op);
    var A := (F: StoreState, op: Op, other: Op) => OpsApart(F, op, other);
    forall F, op ensures Keeps(I, R, F, op) {
      if I(F) && R(F, op) {
        SoleKeepsExact(F, op);
      }
    }
    forall F, op, other ensures Frames(R, A, F, op, other) {
      if R(F, other) && A(F, op, other) && !op.Delete? && !other.Delete? && Names(Some(op.sub), other.sub.providerId) {
        assert Touches(Get(F.subs, Target(op)), op, other.sub.providerId);
      }
    }
    forall m, t, u ensures ApartAt(x, A, m, t, u) {
      if 0 <= m < |x.states| && InFlight(x.states[m], t) && InFlight(x.states[m], u) && t != u {
        PidsRun(x, m);
        var s, F := x.states[m], Replay(x.states[m]);
        forall p | Touches(Get(F.subs, Target(s.threads[t].call.op)), s.threads[t].call.op, p)
          ensures !Touches(Get(F.subs, Target(s.threads[u].call.op)), s.threads[u].call.op, p)
        {
          assert TouchesIn(s, F, t, p) && !TouchesIn(s, F, u, p);
        }
      }
    }
    forall m ensures GuardedAt(x, R, m) {
      StartsAs(x, m);
      StartsSole(x, m);
      assert CarefulAt(x, m);
    }
    GuardsHold(x, I, R, A, k);
  }

  /** Main result: if no write brings a provider id another stored record carries, then whenever no write is in
      flight every record sits in its shard and both indexes satisfy the documented equivalences over all
      shards. */
  lemma {:induction false} QuiescentExact(x: Execution, k: nat)
    requires IsRun(x) && CarefulRun(x) && ApartRun(x) && UnsharedRun(x) && k < |x.states| && NoWrites(x.states[k])
    ensures var s := x.states[k];
            Placed(x.hash, s.shards) && Exact(StoreState(Union(x.hash, s.shards), s.byProvider, s.activeBy))
  {
    ExactRun(x, k);
    WholeAtRest(x, k);
  }
}
