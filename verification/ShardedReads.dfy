/** What reads of the concurrent sharded store return. Each looks at the store at one or more instants;
    proved is what it saw, and exactly when that fits the order in which the writes take effect. */
module ShardedReads {
  import opened Types
  import opened SubscriptionIndex
  import opened ShardedStores
  import opened ShardedInterleaving
  import opened ShardedLinearizability
  import opened ShardedHistory
  import opened ShardedCalls
  import opened ShardedSafety
  import opened ShardedProviders

  // ---------------------------------------------------------------- what a call has looked at

  /** At instant `k` call `t` is in a region of the phase, and takes its step then. */
  ghost predicate Looks(x: Execution, k: nat, t: nat, phase: Phase) {
    && k < |x.events| && k < |x.states| && x.events[k] == Advance(t) && t < |x.states[k].threads|
    && x.states[k].threads[t].Running? && x.states[k].threads[t].phase == phase
  }

  /** Call `t` has answered with what its shard held when it looked, at instant `k`. */
  ghost predicate SawRecord(x: Execution, k: nat, t: nat, th: Thread) {
    && Looks(x, k, t, InShard)
    && x.states[k].threads[t].call == th.call
    && th == Finished(th.call, Looked(Stored(x.hash, x.states[k], x.states[k].threads[t].key)))
  }

  predicate IsLookup(call: Call) {
    call.FindActive? || call.FindByProvider?
  }

  /** The entry the lookup looks for. */
  function Indexed(s: System, call: Call): Option<Id> {
    match call
    case FindActive(subscriber) => Get(s.activeBy, subscriber)
    case FindByProvider(pid) => Get(s.byProvider, pid)
    case _ => None
  }

  function IndexPhase(call: Call): Phase {
    if call.FindActive? then InActive else InPid
  }

  ghost predicate SawIndex(x: Execution, k: nat, t: nat, call: Call, found: Option<Id>) {
    && Looks(x, k, t, IndexPhase(call)) && x.states[k].threads[t].call == call
    && Indexed(x.states[k], call) == found
  }

  /** What a returned lookup saw: no entry at instant `i`, or an entry at `i` and the record under that id
      at the later instant `j`. */
  ghost predicate SawThrough(x: Execution, i: nat, j: nat, t: nat, th: Thread) {
    || (i == j && SawIndex(x, i, t, th.call, None) && th == Finished(th.call, Looked(None)))
    || (i < j && SawRecord(x, j, t, th) && SawIndex(x, i, t, th.call, Some(x.states[j].threads[t].key)))
  }

  /** On its way to a shard, with the id an index gave. */
  predicate OnTheWay(th: Thread) {
    th.Running? && IsLookup(th.call) && th.phase in {WantShard, InShard}
  }

  /** What a read is and what it answers goes back to what it looked at. */
  ghost predicate Remembers(x: Execution, n: nat, t: nat, th: Thread) {
    && (OnTheWay(th) ==> exists i: nat :: i < n && SawIndex(x, i, t, th.call, Some(th.key)))
    && (th.Finished? && th.call.GetById? ==>
         exists k: nat :: SawRecord(x, k, t, th) && x.states[k].threads[t].key == th.call.id)
    && (th.Finished? && IsLookup(th.call) ==> exists i: nat, j: nat :: SawThrough(x, i, j, t, th))
  }

  /** How a read other than a listing gets from one state to the next. */
  predicate ReadsOn(hash: Hash, s: System, th: Thread, th': Thread) {
    && th.Running? && th'.call == th.call
    && if th'.Running? then
         OnTheWay(th') ==>
           || (OnTheWay(th) && th.key == th'.key)
           || (th.phase == IndexPhase(th.call) && Indexed(s, th.call) == Some(th'.key))
       else
         || (th.phase.InShard? && th' == Finished(th.call, Looked(Stored(hash, s, th.key)))
             && (th.call.GetById? ==> th.key == th.call.id))
         || (IsLookup(th.call) && th.phase == IndexPhase(th.call) && Indexed(s, th.call) == None
             && th' == Finished(th.call, Looked(None)))
  }

  lemma ReadStep(hash: Hash, s: System, t: nat)
    requires WellFormed(hash, s) && Enabled(s, Advance(t))
    requires s.threads[t].call.GetById? || IsLookup(s.threads[t].call)
    ensures |Apply(hash, s, Advance(t)).threads| == |s.threads|
    ensures ReadsOn(hash, s, s.threads[t], Apply(hash, s, Advance(t)).threads[t])
  {
    assert Shaped(hash, s.threads[t]);
  }

  lemma ReadRemembers(x: Execution, k: nat, t: nat, th: Thread, th': Thread)
    requires k + 1 < |x.states| && k < |x.events| && x.events[k] == Advance(t) && t < |x.states[k].threads|
    requires x.states[k].threads[t] == th && Remembers(x, k, t, th) && ReadsOn(x.hash, x.states[k], th, th')
    ensures Remembers(x, k + 1, t, th')
  {
    if th'.Finished? && th.phase.InShard? {
      assert SawRecord(x, k, t, th');
      if IsLookup(th.call) {
        var i: nat :| i < k && SawIndex(x, i, t, th.call, Some(th.key));
        assert SawThrough(x, i, k, t, th');
      }
    } else if th'.Finished? {
      assert SawThrough(x, k, k, t, th');
    } else if OnTheWay(th') && !OnTheWay(th) {
      assert SawIndex(x, k, t, th'.call, Some(th'.key));
    }
  }

  lemma {:induction false} ReadsRemember(x: Execution, n: nat, t: nat)
    requires IsRun(x) && n < |x.states| && t < |x.states[n].threads|
    ensures Remembers(x, n, t, x.states[n].threads[t])
  {
    if n > 0 {
      var s, e, th' := x.states[n - 1], x.events[n - 1], x.states[n].threads[t];
      SaneRun(x, n - 1);
      assert Happens(x, n - 1);
      if t < |s.threads| {
        ReadsRemember(x, n - 1, t);
        if e == Advance(t) && (th'.call.GetById? || IsLookup(th'.call)) {
          ReadStep(x.hash, s, t);
          ReadRemembers(x, n - 1, t, s.threads[t], th');
        }
      }
    }
  }

  // ---------------------------------------------------------------- one record

  /** Every write of the record that has changed its shard and not yet taken effect leaves the record as
      it was; in particular if there is no such write. */
  ghost predicate RecordSettled(s: System, id: Id) {
    forall t :: ShardAhead(s, t, id) ==> s.threads[t].was == Becomes(s.threads[t].call.op)
  }

  /** The answer is what a write in flight has made of the record. */
  ghost predicate AboutToBe(s: System, id: Id, answer: Answer) {
    exists t :: ShardAhead(s, t, id) && answer == Looked(Becomes(s.threads[t].call.op))
  }

  /** A shard holds what the order of effects holds exactly if the record is settled, and otherwise what
      a write in flight is about to make of it. */
  lemma StoredFits(hash: Hash, s: System, id: Id)
    requires Linear(hash, s)
    ensures Stored(hash, s, id) == Get(Replay(s).subs, id) <==> RecordSettled(s, id)
    ensures Stored(hash, s, id) == Get(Replay(s).subs, id) || AboutToBe(s, id, Looked(Stored(hash, s, id)))
    ensures Stored(hash, s, id).Some? ==> Stored(hash, s, id).value.id == id
  {
    assert SubFollows(hash, s, Replay(s), id);
  }

  /** Main result. A read by id looks at one instant, and its answer is the one of the single-lock store
      after the writes that have taken effect by then exactly if no write in flight has already changed
      the record. Failing that it is what such a write is about to make of the record. */
  lemma {:induction false} GetByIdExactly(x: Execution, n: nat, t: nat) returns (k: nat)
    requires IsRun(x) && Disciplined(x) && n < |x.states| && t < |x.states[n].threads|
    requires x.states[n].threads[t].Finished? && x.states[n].threads[t].call.GetById?
    ensures SawRecord(x, k, t, x.states[n].threads[t])
    ensures var th, s := x.states[n].threads[t], x.states[k];
            && (th.answer == AnswerOf(Replay(s), th.call) <==> RecordSettled(s, th.call.id))
            && (th.answer == AnswerOf(Replay(s), th.call) || AboutToBe(s, th.call.id, th.answer))
  {
    var th := x.states[n].threads[t];
    ReadsRemember(x, n, t);
    k :| SawRecord(x, k, t, th) && x.states[k].threads[t].key == th.call.id;
    LinearRun(x, k);
    StoredFits(x.hash, x.states[k], th.call.id);
  }

  predicate OnlyById(threads: seq<Thread>) {
    forall t :: 0 <= t < |threads| ==> threads[t].call.Write? || threads[t].call.GetById?
  }

  /** When a read by id looked. */
  ghost function LookOf(x: Execution, t: nat): nat {
    if t < |Calls(x)| && exists k: nat :: SawRecord(x, k, t, Calls(x)[t]) then
      var k: nat :| SawRecord(x, k, t, Calls(x)[t]);
      k
    else 0
  }

  /** Main result. With reads by id only: in the order of their looks, the calls explain the run if and only if no
      read met a record that a write in flight had already changed. */
  lemma {:induction false} ByIdLinearize(x: Execution) returns (order: seq<nat>)
    requires IsRun(x) && Disciplined(x) && OnlyById(Calls(x))
    ensures forall t: nat :: IsReturnedRead(Calls(x), t) ==> SawRecord(x, LookOf(x, t), t, Calls(x)[t])
    ensures order == OrderTo(x, (t: nat) => LookOf(x, t), true, |x.events|)
    ensures Linearizes(x, order, true)
       <==> forall t: nat :: IsReturnedRead(Calls(x), t) ==> RecordSettled(x.states[LookOf(x, t)], Calls(x)[t].call.id)
  {
    var at := (t: nat) => LookOf(x, t);
    forall t: nat | IsReturnedRead(Calls(x), t)
      ensures SawRecord(x, at(t), t, Calls(x)[t]) && Runs(x, at(t), t)
      ensures RightAt(x, at(t), Calls(x)[t]) <==> RecordSettled(x.states[at(t)], Calls(x)[t].call.id)
    {
      var k := GetByIdExactly(x, |x.events|, t);
      LinearRun(x, at(t));
      assert Shaped(x.hash, x.states[at(t)].threads[t]);
      StoredFits(x.hash, x.states[at(t)], Calls(x)[t].call.id);
    }
    order := OrderTo(x, at, true, |x.events|);
    CallsLinearize(x, at, order);
  }

  // ---------------------------------------------------------------- through an index

  /** The entry is there and leads to the record `seen`, or there is neither. */
  predicate StillLeads(entry: Option<Id>, id: Id, fits: bool, seen: Option<Subscription>) {
    (entry == Some(id) && fits) || (entry.None? && seen.None?)
  }

  /** A record seen under `id` is what the index leads to exactly in these cases. */
  lemma FollowExactly(F: StoreState, index: map<Text, Id>, key: Text, id: Id, seen: Option<Subscription>)
    requires Sound(F) && index in {F.activeBy, F.byProvider} && (seen.Some? ==> seen.value.id == id)
    ensures Seen(Follow(F.subs, index, key)) == seen <==> StillLeads(Get(index, key), id, seen == Get(F.subs, id), seen)
  {
  }

  /** Main result. Looking up the active record of a subscriber reads the index at one instant and the
      record at a later one. Without an entry the answer fits that instant. With one, the record was
      active for the subscriber then; the answer fits the second instant exactly if the entry is still
      there and the record settled, or both are gone. */
  lemma {:induction false} FindActiveExactly(x: Execution, n: nat, t: nat) returns (i: nat, j: nat)
    requires IsRun(x) && GentleRun(x) && n < |x.states| && t < |x.states[n].threads|
    requires x.states[n].threads[t].Finished? && x.states[n].threads[t].call.FindActive?
    ensures SawThrough(x, i, j, t, x.states[n].threads[t])
    ensures var th, s, s' := x.states[n].threads[t], x.states[i], x.states[j];
            var who := th.call.subscriber;
            if Get(s.activeBy, who).None? then
              th.answer == Looked(None) == AnswerOf(Replay(s), th.call)
            else
              var id := s.activeBy[who];
              && HasActive(Replay(s).subs, who, id)
              && th.answer == Looked(Stored(x.hash, s', id))
              && (th.answer == AnswerOf(Replay(s'), th.call) <==>
                    StillLeads(Get(s'.activeBy, who), id, RecordSettled(s', id), Stored(x.hash, s', id)))
  {
    var th := x.states[n].threads[t];
    ReadsRemember(x, n, t);
    i, j :| SawThrough(x, i, j, t, th);
    LinearRun(x, i);
    LinearRun(x, j);
    SoundRun(x, i);
    SoundRun(x, j);
    if Get(x.states[i].activeBy, th.call.subscriber).Some? {
      var id, s', F := x.states[i].activeBy[th.call.subscriber], x.states[j], Replay(x.states[j]);
      StoredFits(x.hash, s', id);
      FollowExactly(F, F.activeBy, th.call.subscriber, id, Stored(x.hash, s', id));
    }
  }

  lemma EntryFits(s: System, F: StoreState, p: Text)
    requires PidsFollow(s, F)
    ensures Get(s.byProvider, p) == Get(F.byProvider, p) <==> EntrySettled(s, F, p)
  {
    assert PidFollows(s, F, p);
  }

  /** Main result. The same for a lookup by provider id, whose index may run ahead of the order of effects:
      what it saw there fits the first instant exactly if the entry was settled. */
  lemma {:induction false} FindByProviderExactly(x: Execution, n: nat, t: nat) returns (i: nat, j: nat)
    requires IsRun(x) && GentleRun(x) && ApartRun(x) && n < |x.states| && t < |x.states[n].threads|
    requires x.states[n].threads[t].Finished? && x.states[n].threads[t].call.FindByProvider?
    ensures SawThrough(x, i, j, t, x.states[n].threads[t])
    ensures var th, p, s, s' := x.states[n].threads[t], x.states[n].threads[t].call.pid, x.states[i], x.states[j];
            if Get(s.byProvider, p).None? then
              && th.answer == Looked(None)
              && (th.answer == AnswerOf(Replay(s), th.call) <==> EntrySettled(s, Replay(s), p))
            else
              var id := s.byProvider[p];
              && (EntrySettled(s, Replay(s), p) ==> HasProvider(Replay(s).subs, p, id))
              && th.answer == Looked(Stored(x.hash, s', id))
              && (th.answer == AnswerOf(Replay(s'), th.call) <==>
                    StillLeads(Get(Replay(s').byProvider, p), id, RecordSettled(s', id), Stored(x.hash, s', id)))
  {
    var th := x.states[n].threads[t];
    ReadsRemember(x, n, t);
    i, j :| SawThrough(x, i, j, t, th);
    var p := th.call.pid;
    LinearRun(x, j);
    SoundRun(x, i);
    SoundRun(x, j);
    PidsRun(x, i);
    EntryFits(x.states[i], Replay(x.states[i]), p);
    if Get(x.states[i].byProvider, p).Some? {
      var id, s', F := x.states[i].byProvider[p], x.states[j], Replay(x.states[j]);
      StoredFits(x.hash, s', id);
      FollowExactly(F, F.byProvider, p, id, Stored(x.hash, s', id));
    }
  }
}
