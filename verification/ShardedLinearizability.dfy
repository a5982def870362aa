/** The concurrent sharded store simulates the single-lock store: as long as at most one write per
    subscription id is in flight, the writes act as if executed one after the other in the order of
    their last index update. */
module ShardedLinearizability {
  import opened Types
  import opened SubscriptionIndex
  import opened SubscriptionStores
  import opened ShardedStores
  import opened ShardedInterleaving

  // ---------------------------------------------------------------- the discipline of the callers

  /** Thread `t` is a write of record `id` that has not returned. */
  predicate Writing(s: System, t: int, id: Id) {
    && 0 <= t < |s.threads| && s.threads[t].Running? && IsWrite(s.threads[t])
    && Target(s.threads[t].call.op) == id
  }

  /** No other write of the record is in flight. */
  ghost predicate Admits(s: System, call: Call) {
    call.Write? ==> forall t :: !Writing(s, t, Target(call.op))
  }

  ghost predicate AdmittedAt(x: Execution, k: int) {
    0 <= k < |x.events| && k < |x.states| && x.events[k].Start? ==> Admits(x.states[k], x.events[k].call)
  }

  ghost predicate Disciplined(x: Execution) {
    forall k :: AdmittedAt(x, k)
  }

  // ---------------------------------------------------------------- the invariant

  /** What the shards hold under an id. */
  function Stored(hash: Hash, s: System, id: Id): Option<Subscription> {
    if |s.shards| == NUM_SHARDS then Get(s.shards[Slot(hash, id)], id) else None
  }

  /** The write has changed its shard but has not taken effect yet. */
  predicate ShardDone(th: Thread) {
    && th.Running? && IsWrite(th)
    && if th.call.op.Create? then th.phase in {WantPid, InPid, Commit}
       else th.phase in {WantPid, InPid, WantActive, InActive}
  }

  predicate ShardAhead(s: System, t: int, id: Id) {
    Writing(s, t, id) && ShardDone(s.threads[t])
  }

  /** At most one write per record is in flight. */
  ghost predicate Distinct(s: System) {
    forall t, u, id :: Writing(s, t, id) && Writing(s, u, id) ==> t == u
  }

  /** Record by record, the shards hold what `F` holds but for the write that is ahead of it. */
  ghost predicate SubFollows(hash: Hash, s: System, F: StoreState, id: Id) {
    && ((forall t :: !ShardAhead(s, t, id)) ==> Stored(hash, s, id) == Get(F.subs, id))
    && (forall t :: ShardAhead(s, t, id) ==>
         && s.threads[t].was == Get(F.subs, id)
         && (s.threads[t].call.op.Delete? ==> id in F.subs)
         && Stored(hash, s, id) == Becomes(s.threads[t].call.op))
  }

  /** The active index never runs ahead, and a create's check stays good until it commits. */
  ghost predicate ActiveFollows(s: System, F: StoreState) {
    && s.activeBy == F.activeBy
    && (forall t :: 0 <= t < |s.threads| && KeepsActive(s.threads[t]) ==>
         s.threads[t].call.op.sub.subscriberId !in s.activeBy)
  }

  /** `F` is the single-lock store after the writes that have taken effect. The provider index is left
      out: nothing here depends on it. */
  ghost predicate Follows(hash: Hash, s: System, F: StoreState) {
    Distinct(s) && KeyedById(F.subs) && ActiveFollows(s, F) && forall id :: SubFollows(hash, s, F, id)
  }

  // ---------------------------------------------------------------- steps

  /** Thread `t` goes on with the same call. */
  predicate Moves(s: System, t: nat, s': System) {
    && t < |s.threads| && s.threads[t].Running? && |s'.threads| == |s.threads|
    && s'.threads == s.threads[t := s'.threads[t]] && s'.threads[t].call == s.threads[t].call
  }

  /** Steps that leave the shards, the active index and the order of effects alone. */
  lemma SameFollows(hash: Hash, s: System, F: StoreState, t: nat, s': System)
    requires Follows(hash, s, F) && Moves(s, t, s') && s'.shards == s.shards && s'.activeBy == s.activeBy
    requires ShardDone(s'.threads[t]) == ShardDone(s.threads[t])
    requires ShardDone(s.threads[t]) ==> s'.threads[t].was == s.threads[t].was
    requires KeepsActive(s'.threads[t]) && !KeepsActive(s.threads[t]) ==>
               s.threads[t].call.op.sub.subscriberId !in s.activeBy
    ensures Follows(hash, s', F)
  {
    assert forall u, id :: Writing(s', u, id) ==> Writing(s, u, id);
    forall id ensures SubFollows(hash, s', F, id) {
      assert SubFollows(hash, s, F, id);
      assert forall u :: ShardAhead(s', u, id) == ShardAhead(s, u, id);
    }
  }

  /** A write changes its shard. */
  lemma ShardFollows(hash: Hash, s: System, F: StoreState, t: nat, s': System)
    requires |s.shards| == NUM_SHARDS && Follows(hash, s, F) && Moves(s, t, s') && IsWrite(s.threads[t])
    requires !ShardDone(s.threads[t]) && ShardDone(s'.threads[t]) && s'.activeBy == s.activeBy
    requires KeepsActive(s'.threads[t]) == KeepsActive(s.threads[t])
    requires var op, id := s.threads[t].call.op, Target(s.threads[t].call.op);
             && s'.shards == s.shards[Slot(hash, id) := SubsAfter(s.shards[Slot(hash, id)], op)]
             && s'.threads[t].was == Stored(hash, s, id) && (op.Delete? ==> Stored(hash, s, id).Some?)
    ensures Follows(hash, s', F)
  {
    var id0 := Target(s.threads[t].call.op);
    assert Writing(s, t, id0);
    assert forall u, id :: Writing(s', u, id) == Writing(s, u, id);
    forall id ensures SubFollows(hash, s', F, id) {
      assert SubFollows(hash, s, F, id);
      if id == id0 {
        assert forall u :: !ShardAhead(s, u, id);
        assert ShardAhead(s', t, id);
      } else {
        assert forall u :: ShardAhead(s', u, id) == ShardAhead(s, u, id);
        assert Stored(hash, s', id) == Stored(hash, s, id);
      }
    }
  }

  /** A write in its last region. */
  predicate AtLastUpdate(th: Thread) {
    th.Running? && IsWrite(th) && (th.phase.Commit? || (th.phase.InActive? && !th.call.op.Create?))
  }

  /** The abstract store accepts the write, and what it replaces is what the write found. */
  lemma EffectAccepted(hash: Hash, s: System, F: StoreState, t: nat)
    requires Follows(hash, s, F) && t < |s.threads| && AtLastUpdate(s.threads[t]) && Shaped(hash, s.threads[t])
    ensures ReplyTo(F, s.threads[t].call.op) == Done
    ensures s.threads[t].was == Get(F.subs, Target(s.threads[t].call.op))
  {
    var id := Target(s.threads[t].call.op);
    assert ShardAhead(s, t, id) && SubFollows(hash, s, F, id);
  }

  /** The last index update of a write is the moment it takes effect. */
  lemma EffectStep(hash: Hash, s: System, F: StoreState, t: nat, s': System)
    requires WellFormed(hash, s) && Follows(hash, s, F) && t < |s.threads| && AtLastUpdate(s.threads[t])
    requires Moves(s, t, s') && s'.threads[t].Finished? && s'.shards == s.shards
    requires s'.activeBy == ActiveAfter(s.activeBy, s.threads[t].call.op, s.threads[t].was)
    ensures Follows(hash, s', Next(F, s.threads[t].call.op))
  {
    var op, F' := s.threads[t].call.op, Next(F, s.threads[t].call.op);
    assert Shaped(hash, s.threads[t]) && Writing(s, t, Target(op));
    EffectAccepted(hash, s, F, t);
    assert forall u, id :: Writing(s', u, id) ==> Writing(s, u, id);
    forall id ensures SubFollows(hash, s', F', id) {
      assert SubFollows(hash, s, F, id);
      if id == Target(op) {
        assert ShardAhead(s, t, id);
        assert forall u :: Writing(s, u, id) ==> u == t;
      } else {
        assert forall u :: ShardAhead(s', u, id) == ShardAhead(s, u, id);
      }
    }
    forall u | 0 <= u < |s.threads| && KeepsActive(s.threads[u]) ensures u == t {
      assert Holds(s.threads[t], ActiveMu) && Holds(s.threads[u], ActiveMu);
      MutualExclusion(hash, s, t, u, ActiveMu);
    }
  }

  lemma StartStep(hash: Hash, s: System, F: StoreState, call: Call)
    requires Follows(hash, s, F) && Admits(s, call)
    ensures Follows(hash, Apply(hash, s, Start(call)), F)
  {
    var s' := Apply(hash, s, Start(call));
    assert forall t, id :: t != |s.threads| ==> Writing(s', t, id) == Writing(s, t, id);
    forall id ensures SubFollows(hash, s', F, id) {
      assert SubFollows(hash, s, F, id);
      assert forall t :: ShardAhead(s', t, id) == ShardAhead(s, t, id);
    }
  }

  // ---------------------------------------------------------------- every step

  /** Every logged reply is that of the single-lock store at that place in the order. */
  ghost predicate Explained(log: seq<Entry>) {
    forall i :: 0 <= i < |log| ==> ExplainedAt(log, i)
  }

  ghost predicate ExplainedAt(log: seq<Entry>, i: int) {
    0 <= i < |log| && log[i].reply == ReplyTo(Run(EMPTY, Ops(log[..i])), log[i].op)
  }

  ghost predicate Linear(hash: Hash, s: System) {
    Sane(hash, s) && Follows(hash, s, Replay(s)) && Explained(s.log)
  }

  lemma ExplainedMore(log: seq<Entry>, e: Entry)
    requires Explained(log) && e.reply == ReplyTo(Run(EMPTY, Ops(log)), e.op)
    ensures Explained(log + [e])
  {
    forall i | 0 <= i < |log + [e]| ensures ExplainedAt(log + [e], i) {
      assert i < |log| ==> ExplainedAt(log, i);
      assert (log + [e])[..i] == log[..i];
    }
    assert (log + [e])[..|log|] == log;
  }

  /** The regions of a write but the last leave the order of effects alone: the write goes on, or is refused as
      the abstract store refuses it. */
  ghost predicate Passes(hash: Hash, s: System, F: StoreState, t: nat, s': System)
    requires t < |s.threads| && t < |s'.threads| && s.threads[t].call.Write?
  {
    && Follows(hash, s', F)
    && (s'.threads[t].Finished? ==>
         ReplyTo(F, s.threads[t].call.op) != Done && s'.threads[t].answer == Wrote(ReplyTo(F, s.threads[t].call.op)))
  }

  lemma ShardPasses(hash: Hash, s: System, F: StoreState, t: nat, s': System)
    requires |s.shards| == NUM_SHARDS && Follows(hash, s, F) && t < |s.threads| && s.threads[t].Running?
    requires IsWrite(s.threads[t]) && s.threads[t].phase.InShard? && Shaped(hash, s.threads[t])
    requires s' == WriteRegion(s, t) && Moves(s, t, s')
    ensures Passes(hash, s, F, t, s')
  {
    var id := Target(s.threads[t].call.op);
    assert Writing(s, t, id) && SubFollows(hash, s, F, id);
    assert forall u :: !ShardAhead(s, u, id);
    if s'.threads[t].Running? {
      ShardFollows(hash, s, F, t, s');
    } else {
      SameFollows(hash, s, F, t, s');
    }
  }

  lemma RegionPasses(hash: Hash, s: System, F: StoreState, t: nat, s': System)
    requires WellFormed(hash, s) && Follows(hash, s, F) && t < |s.threads| && s.threads[t].Running?
    requires IsWrite(s.threads[t]) && Wants(s.threads[t]).None? && !AtLastUpdate(s.threads[t])
    requires s' == WriteRegion(s, t) && Moves(s, t, s')
    ensures Passes(hash, s, F, t, s')
  {
    assert Shaped(hash, s.threads[t]);
    if s.threads[t].phase.InShard? {
      ShardPasses(hash, s, F, t, s');
    } else {
      SameFollows(hash, s, F, t, s');
    }
  }

  lemma WriteFollows(hash: Hash, s: System, F: StoreState, t: nat)
    requires WellFormed(hash, s) && Follows(hash, s, F) && t < |s.threads| && s.threads[t].Running?
    requires IsWrite(s.threads[t]) && Wants(s.threads[t]).None? && Moves(s, t, WriteRegion(s, t))
    ensures var s' := WriteRegion(s, t);
            if s'.threads[t].Finished? then
              && Follows(hash, s', Next(F, s.threads[t].call.op))
              && s'.threads[t].answer == Wrote(ReplyTo(F, s.threads[t].call.op))
            else Follows(hash, s', F)
  {
    if AtLastUpdate(s.threads[t]) {
      assert Shaped(hash, s.threads[t]);
      EffectAccepted(hash, s, F, t);
      EffectStep(hash, s, F, t, WriteRegion(s, t));
    } else {
      RegionPasses(hash, s, F, t, WriteRegion(s, t));
    }
  }

  lemma WriteLinear(hash: Hash, s: System, t: nat, s': System)
    requires Linear(hash, s) && t < |s.threads| && s.threads[t].Running? && IsWrite(s.threads[t])
    requires Wants(s.threads[t]).None? && s.threads[t].slot < |s.shards| && s' == WriteRegion(s, t)
    requires Sane(hash, s') && Stepped(s, Advance(t), s')
    ensures Linear(hash, s')
  {
    WriteFollows(hash, s, Replay(s), t);
    if s'.threads[t].Finished? {
      ReplayGrows(s, s', s'.log[|s.log|]);
      ExplainedMore(s.log, s'.log[|s.log|]);
    }
  }

  lemma AcquireLinear(hash: Hash, s: System, t: nat, s': System)
    requires Linear(hash, s) && Sane(hash, s') && Moves(s, t, s') && Wants(s.threads[t]).Some? && s' == Acquire(s, t)
    ensures Linear(hash, s')
  {
    SameFollows(hash, s, Replay(s), t, s');
  }

  lemma ReadLinear(hash: Hash, s: System, t: nat, s': System)
    requires Linear(hash, s) && Sane(hash, s') && Moves(s, t, s') && s'.log == s.log && !IsWrite(s.threads[t])
    requires s.threads[t].slot < |s.shards| && s' == ReadRegion(hash, s, t)
    ensures Linear(hash, s')
  {
    SameFollows(hash, s, Replay(s), t, s');
  }

  lemma LinearStep(hash: Hash, s: System, e: Event)
    requires Linear(hash, s) && Enabled(s, e)
    requires e.Start? ==> Admits(s, e.call)
    ensures Linear(hash, Apply(hash, s, e))
  {
    var s', F := Apply(hash, s, e), Replay(s);
    SaneStep(hash, s, e);
    match e
    case Start(call) => StartStep(hash, s, F, call);
    case Advance(t) =>
      if Wants(s.threads[t]).None? && IsWrite(s.threads[t]) {
        WriteLinear(hash, s, t, s');
      } else {
        if Wants(s.threads[t]).Some? {
          AcquireLinear(hash, s, t, s');
        } else {
          ReadLinear(hash, s, t, s');
        }
      }
  }

  lemma {:induction false} LinearRun(x: Execution, k: nat)
    requires IsRun(x) && Disciplined(x) && k < |x.states|
    ensures Linear(x.hash, x.states[k])
  {
    SaneRun(x, k);
    if k == 0 {
      assert Ops(x.states[0].log) == [];
      forall id ensures SubFollows(x.hash, x.states[0], EMPTY, id) {
      }
    } else {
      LinearRun(x, k - 1);
      assert Happens(x, k - 1) && AdmittedAt(x, k - 1);
      LinearStep(x.hash, x.states[k - 1], x.events[k - 1]);
    }
  }

  // ---------------------------------------------------------------- at rest

  /** No write is in flight; reads may be. */
  predicate NoWrites(s: System) {
    forall t :: 0 <= t < |s.threads| && IsWrite(s.threads[t]) ==> s.threads[t].Finished?
  }

  /** Main result. Every record sits in the shard its hash selects, whatever calls are made. With one write per
      record in flight the active index is at all times that of the single-lock store after the logged order, and
      whenever no write is in flight the shards together are its primary map. */
  lemma {:induction false} AtRest(x: Execution, k: nat)
    requires IsRun(x) && k < |x.states|
    ensures Placed(x.hash, x.states[k].shards)
    ensures Disciplined(x) ==> x.states[k].activeBy == Replay(x.states[k]).activeBy
    ensures Disciplined(x) && NoWrites(x.states[k]) ==>
              Union(x.hash, x.states[k].shards) == Replay(x.states[k]).subs
  {
    var s := x.states[k];
    SaneRun(x, k);
    if Disciplined(x) {
      LinearRun(x, k);
      if NoWrites(s) {
        forall id ensures Get(Union(x.hash, s.shards), id) == Get(Replay(s).subs, id) {
          UnionAt(x.hash, s.shards, id);
          assert SubFollows(x.hash, s, Replay(s), id);
        }
        SameByGet(Union(x.hash, s.shards), Replay(s).subs);
      }
    }
  }
}
