/** What a listing of the concurrent sharded store returns. It scans one shard after the other, and other
    calls run in between; each record is in or out by what its own shard held when it was scanned. All of this
    holds in every interleaving. */
module ShardedListings {
  import opened Types
  import opened SubscriptionIndex
  import opened SubscriptionStores
  import opened ShardedStores
  import opened ShardedInterleaving
  import opened ShardedLinearizability
  import opened ShardedHistory
  import opened ShardedCalls
  import opened ShardedReads

  // ---------------------------------------------------------------- what a call has seen

  ghost predicate ScannedSlot(x: Execution, k: nat, t: nat, slot: nat) {
    Looks(x, k, t, InShard) && x.states[k].threads[t].slot == slot
  }

  /** At instant `k` call `t` scanned the shard of the record's id and found the record there. */
  ghost predicate Scanned(x: Execution, k: nat, t: nat, sub: Subscription) {
    ScannedSlot(x, k, t, Slot(x.hash, sub.id)) && Stored(x.hash, x.states[k], sub.id) == Some(sub)
  }

  ghost predicate HasSeen(x: Execution, n: nat, t: nat, sub: Subscription) {
    exists k: nat :: k < n && Scanned(x, k, t, sub)
  }

  ghost predicate HasScanned(x: Execution, n: nat, t: nat, slot: nat) {
    exists k: nat :: k < n && ScannedSlot(x, k, t, slot)
  }

  /** What a listing has collected, and how many shards it has scanned. */
  function Collected(th: Thread): set<Subscription> {
    match th
    case Running(_, _, _, _, _, out) => out
    case Finished(_, answer) => if answer.Listed? then answer.subs else {}
  }

  function Done(th: Thread): nat {
    if th.Running? then th.slot else NUM_SHARDS
  }

  /** It has collected exactly the matching records seen, and scanned the shards up to one, each once. */
  ghost predicate Gathered(x: Execution, n: nat, t: nat, th: Thread) {
    th.call.ListAll? ==>
      && (th.Finished? ==> th.answer.Listed?)
      && (forall sub :: sub in Collected(th) <==> Matches(th.call.f, sub) && HasSeen(x, n, t, sub))
      && (forall slot: nat :: slot < Done(th) <==> HasScanned(x, n, t, slot))
      && (forall i: nat, j: nat, slot: nat ::
           i < n && j < n && ScannedSlot(x, i, t, slot) && ScannedSlot(x, j, t, slot) ==> i == j)
  }

  /** What one shard contributes. */
  lemma ListingIs(hash: Hash, s: System, f: Filter, slot: nat, sub: Subscription)
    requires Sane(hash, s) && slot < NUM_SHARDS
    ensures sub in Listing(s.shards[slot], s.shards[slot].Keys, f) <==>
              Matches(f, sub) && Slot(hash, sub.id) == slot && Stored(hash, s, sub.id) == Some(sub)
  {
    if sub in Listing(s.shards[slot], s.shards[slot].Keys, f) {
      var id :| id in s.shards[slot] && s.shards[slot][id] == sub;
      assert Slot(hash, id) == slot && sub.id == id;
    }
    if Matches(f, sub) && Slot(hash, sub.id) == slot && Stored(hash, s, sub.id) == Some(sub) {
      assert sub.id in s.shards[slot] && s.shards[slot][sub.id] == sub;
    }
  }

  /** One step of a listing: it scans a shard, or changes nothing. */
  ghost predicate ListsOn(s: System, th: Thread, th': Thread) {
    && th.Running? && th'.call == th.call && th.call.ListAll? && (th'.Finished? ==> th'.answer.Listed?)
    && if th.phase.InShard? then
         && th.slot < |s.shards| && Done(th') == th.slot + 1
         && Collected(th') == th.out + Listing(s.shards[th.slot], s.shards[th.slot].Keys, th.call.f)
       else Done(th') == Done(th) && Collected(th') == Collected(th)
  }

  lemma GatherStep(x: Execution, k: nat, t: nat, th: Thread, th': Thread)
    requires k + 1 < |x.states| && k < |x.events| && x.events[k] == Advance(t) && t < |x.states[k].threads|
    requires Sane(x.hash, x.states[k]) && x.states[k].threads[t] == th
    requires Gathered(x, k, t, th) && ListsOn(x.states[k], th, th')
    ensures Gathered(x, k + 1, t, th')
  {
    var n := k + 1;
    forall sub ensures sub in Collected(th') <==> Matches(th.call.f, sub) && HasSeen(x, n, t, sub) {
      assert HasSeen(x, n, t, sub) <==> HasSeen(x, k, t, sub) || Scanned(x, k, t, sub);
      if th.phase.InShard? {
        ListingIs(x.hash, x.states[k], th.call.f, th.slot, sub);
      }
    }
    forall slot: nat ensures slot < Done(th') <==> HasScanned(x, n, t, slot) {
      assert HasScanned(x, n, t, slot) <==> HasScanned(x, k, t, slot) || ScannedSlot(x, k, t, slot);
    }
    assert forall i: nat :: i < k && ScannedSlot(x, i, t, th.slot) ==> HasScanned(x, k, t, th.slot);
  }

  /** Steps of others change nothing. */
  lemma GatherSame(x: Execution, k: nat, t: nat, th: Thread)
    requires k < |x.events| && x.events[k] != Advance(t) && Gathered(x, k, t, th)
    ensures Gathered(x, k + 1, t, th)
  {
    var n := k + 1;
    assert !Looks(x, k, t, InShard);
    forall sub ensures HasSeen(x, n, t, sub) <==> HasSeen(x, k, t, sub) {
      assert !Scanned(x, k, t, sub);
    }
    forall slot: nat ensures HasScanned(x, n, t, slot) <==> HasScanned(x, k, t, slot) {
      assert !ScannedSlot(x, k, t, slot);
    }
  }

  lemma {:induction false} GatherStart(x: Execution, n: nat, t: nat)
    requires IsRun(x) && n + 1 < |x.states| && |x.states[n].threads| == t < |x.states[n + 1].threads|
    ensures Gathered(x, n + 1, t, x.states[n + 1].threads[t])
  {
    SaneRun(x, n);
    assert Happens(x, n);
    forall k: nat, slot: nat | k < n + 1 ensures !ScannedSlot(x, k, t, slot) {
      Grows(x, k, n);
    }
  }

  lemma {:induction false} ListGathers(x: Execution, n: nat, t: nat)
    requires IsRun(x) && n < |x.states| && t < |x.states[n].threads|
    ensures Gathered(x, n, t, x.states[n].threads[t])
  {
    if n > 0 {
      var s, s', e := x.states[n - 1], x.states[n], x.events[n - 1];
      SaneRun(x, n - 1);
      assert Happens(x, n - 1);
      if t >= |s.threads| {
        GatherStart(x, n - 1, t);
      } else {
        ListGathers(x, n - 1, t);
        if e != Advance(t) {
          GatherSame(x, n - 1, t, s.threads[t]);
        } else if s.threads[t].call.ListAll? {
          GatherStep(x, n - 1, t, s.threads[t], s'.threads[t]);
        }
      }
    }
  }

  // ---------------------------------------------------------------- whole listings

  /** Main result. A finished listing has scanned every shard, and contains a record exactly if it matches
      and was stored in its shard when that shard was scanned. So a matching record that stays as it is while the
      listing looks is listed. */
  lemma {:induction false} ListExactly(x: Execution, n: nat, t: nat, sub: Subscription)
    requires IsRun(x) && n < |x.states| && t < |x.states[n].threads|
    requires x.states[n].threads[t].Finished? && x.states[n].threads[t].call.ListAll?
    ensures var th := x.states[n].threads[t];
            && th.answer.Listed? && HasScanned(x, n, t, Slot(x.hash, sub.id))
            && (sub in th.answer.subs <==> Matches(th.call.f, sub) && HasSeen(x, n, t, sub))
            && (Matches(th.call.f, sub)
                && (forall k: nat :: Looks(x, k, t, InShard) ==> Stored(x.hash, x.states[k], sub.id) == Some(sub))
                ==> sub in th.answer.subs)
  {
    ListGathers(x, n, t);
    assert HasScanned(x, n, t, Slot(x.hash, sub.id));
    var k: nat :| k < n && ScannedSlot(x, k, t, Slot(x.hash, sub.id));
    if Stored(x.hash, x.states[k], sub.id) == Some(sub) {
      assert Scanned(x, k, t, sub);
    }
  }

  /** The scan of a record's shard and the map agree on the record, if it matches: it was not written on the wrong
      side of the scan. */
  ghost predicate ScanAgrees(x: Execution, n: nat, t: nat, f: Filter, subs: map<Id, Subscription>, k: nat,
                             sub: Subscription) {
    k < n && ScannedSlot(x, k, t, Slot(x.hash, sub.id)) && Matches(f, sub) ==>
      (Stored(x.hash, x.states[k], sub.id) == Some(sub) <==> Get(subs, sub.id) == Some(sub))
  }

  /** Main result. The answer is the listing of a given map, be it the shards together at one instant or the
      records of the order of effects, if and only if no matching record differs between the map and the scan of
      its shard. */
  lemma {:induction false} ListFits(x: Execution, n: nat, t: nat, subs: map<Id, Subscription>)
    requires IsRun(x) && n < |x.states| && t < |x.states[n].threads| && KeyedById(subs)
    requires x.states[n].threads[t].Finished? && x.states[n].threads[t].call.ListAll?
    ensures var th := x.states[n].threads[t];
            th.answer == Listed(Listing(subs, subs.Keys, th.call.f)) <==>
              forall k: nat, sub: Subscription :: ScanAgrees(x, n, t, th.call.f, subs, k, sub)
  {
    var th := x.states[n].threads[t];
    var all := Listing(subs, subs.Keys, th.call.f);
    ListGathers(x, n, t);
    assert forall sub :: sub in all <==> Matches(th.call.f, sub) && Get(subs, sub.id) == Some(sub);
    forall k: nat, sub: Subscription | k < n && ScannedSlot(x, k, t, Slot(x.hash, sub.id)) && Matches(th.call.f, sub)
      ensures sub in th.answer.subs <==> Stored(x.hash, x.states[k], sub.id) == Some(sub)
    {
      assert Stored(x.hash, x.states[k], sub.id) == Some(sub) ==> Scanned(x, k, t, sub);
    }
    if forall k: nat, sub: Subscription :: ScanAgrees(x, n, t, th.call.f, subs, k, sub) {
      forall sub ensures sub in th.answer.subs <==> sub in all {
        assert HasScanned(x, n, t, Slot(x.hash, sub.id));
        var k: nat :| k < n && ScannedSlot(x, k, t, Slot(x.hash, sub.id));
        assert ScanAgrees(x, n, t, th.call.f, subs, k, sub);
      }
      assert th.answer.subs == all;
    }
  }

  /** So it was right at an instant exactly if it agrees with the order of effects there. */
  lemma {:induction false} ListRight(x: Execution, n: nat, t: nat, k: nat)
    requires IsRun(x) && n < |x.states| && t < |x.states[n].threads| && k < |x.states|
    requires x.states[n].threads[t].Finished? && x.states[n].threads[t].call.ListAll?
    ensures var th, subs := x.states[n].threads[t], Replay(x.states[k]).subs;
            RightAt(x, k, th) <==> forall j: nat, sub: Subscription :: ScanAgrees(x, n, t, th.call.f, subs, j, sub)
  {
    RunKeyed(EMPTY, Ops(x.states[k].log));
    ListFits(x, n, t, Replay(x.states[k]).subs);
  }
}
