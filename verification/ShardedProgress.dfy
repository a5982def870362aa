/** The concurrent sharded store cannot deadlock, and every call finishes: the active-index lock is
    only taken by a thread holding nothing, and nothing is taken under a shard or provider lock. */
module ShardedProgress {
  import opened Types
  import opened SubscriptionIndex
  import opened ShardedStores
  import opened ShardedInterleaving

  /** Lock operations a call has left. */
  function Work(th: Thread): nat {
    if th.Finished? then 0 else
      match th.call
      case Write(op) =>
        if op.Create? then
          (match th.phase
           case WantActive => 7 case InActive => 6 case WantShard => 5 case InShard => 4
           case WantPid => 3 case InPid => 2 case Commit => 1)
        else
          (match th.phase
           case WantShard => 6 case InShard => 5 case WantPid => 4 case InPid => 3
           case WantActive => 2 case InActive => 1 case Commit => 0)
      case ListAll(_) =>
        if th.slot >= NUM_SHARDS then 0
        else 2 * (NUM_SHARDS - th.slot) - (if th.phase.WantShard? then 0 else 1)
      case _ =>
        match th.phase
        case WantPid => 4 case WantActive => 4 case InPid => 3 case InActive => 3
        case WantShard => 2 case InShard => 1 case Commit => 0
  }

  function TotalWork(threads: seq<Thread>): nat {
    if threads == [] then 0 else TotalWork(threads[..|threads| - 1]) + Work(threads[|threads| - 1])
  }

  lemma {:induction false} TotalWorkUpdate(threads: seq<Thread>, t: nat, th: Thread)
    requires t < |threads|
    ensures TotalWork(threads[t := th]) == TotalWork(threads) - Work(threads[t]) + Work(th)
  {
    var last := |threads| - 1;
    if t < last {
      TotalWorkUpdate(threads[..last], t, th);
      assert threads[t := th][..last] == threads[..last][t := th];
    } else {
      assert threads[t := th][..last] == threads[..last];
    }
  }

  ghost predicate AllFinished(s: System) {
    forall t :: 0 <= t < |s.threads| ==> s.threads[t].Finished?
  }

  /** No thread holds `l` in any mode, so the lock is free to whichever waiter is served first. */
  ghost predicate Unheld(s: System, l: Lock) {
    forall t :: 0 <= t < |s.threads| ==> !Holds(s.threads[t], l)
  }

  lemma WriterHolds(hash: Hash, s: System, l: Lock)
    requires WellFormed(hash, s) && l in s.writer
    ensures s.writer[l] < |s.threads| && Holds(s.threads[s.writer[l]], l)
  {
    assert Get(s.writer, l) == Some(s.writer[l]);
  }

  lemma UnheldIsFree(hash: Hash, s: System, l: Lock)
    requires WellFormed(hash, s) && Unheld(s, l)
    ensures Free(s, l, true)
  {
    if l in s.writer {
      WriterHolds(hash, s, l);
    }
    forall r | r in s.readers ensures r.0 != l {
      assert r == (r.0, r.1);
    }
  }

  /** Deadlock freedom: while a call is unfinished, some thread is inside a region or waits for a lock
      that nobody holds. */
  lemma NeverStuck(hash: Hash, s: System) returns (t: nat)
    requires WellFormed(hash, s) && !AllFinished(s)
    ensures t < |s.threads| && s.threads[t].Running? && Enabled(s, Advance(t))
    ensures Wants(s.threads[t]).Some? ==> Unheld(s, Wants(s.threads[t]).value)
  {
    if u :| 0 <= u < |s.threads| && s.threads[u].Running? && Wants(s.threads[u]).None? {
      t := u;
    } else {
      if u :| 0 <= u < |s.threads| && Holds(s.threads[u], ActiveMu) {
        t := u;
      } else {
        t :| t < |s.threads| && s.threads[t].Running?;
      }
      var l := Wants(s.threads[t]).value;
      forall u | 0 <= u < |s.threads| ensures !Holds(s.threads[u], l) {
        match l case ShardMu(_) => case PidMu => case ActiveMu =>
      }
      UnheldIsFree(hash, s, l);
    }
    assert Shaped(hash, s.threads[t]);
  }

  lemma WriteWorks(hash: Hash, s: System, t: nat)
    requires |s.shards| == NUM_SHARDS && t < |s.threads| && s.threads[t].Running? && IsWrite(s.threads[t])
    requires Shaped(hash, s.threads[t]) && Wants(s.threads[t]).None?
    ensures Work(WriteRegion(s, t).threads[t]) < Work(s.threads[t])
  {
  }

  lemma StepWorks(hash: Hash, s: System, t: nat)
    requires WellFormed(hash, s) && Enabled(s, Advance(t))
    ensures TotalWork(Apply(hash, s, Advance(t)).threads) < TotalWork(s.threads)
  {
    WellFormedStep(hash, s, Advance(t));
    TotalWorkUpdate(s.threads, t, Apply(hash, s, Advance(t)).threads[t]);
    assert Shaped(hash, s.threads[t]);
    if Wants(s.threads[t]).None? {
      if IsWrite(s.threads[t]) {
        WriteWorks(hash, s, t);
      } else {
      }
    }
  }

  /** Threads `ts` can take one step each, in this order, without new calls. */
  ghost predicate Schedule(hash: Hash, s: System, ts: seq<nat>)
    decreases |ts|
  {
    ts == [] || (Enabled(s, Advance(ts[0])) && Schedule(hash, Apply(hash, s, Advance(ts[0])), ts[1..]))
  }

  ghost function AfterSchedule(hash: Hash, s: System, ts: seq<nat>): System
    requires Schedule(hash, s, ts)
    decreases |ts|
  {
    if ts == [] then s else AfterSchedule(hash, Apply(hash, s, Advance(ts[0])), ts[1..])
  }

  /** Main result: whatever order the started calls are scheduled in, they take at most their total
      work in steps, and a schedule that cannot be extended has finished every one of them. */
  lemma {:induction false} CallsFinish(hash: Hash, s: System, ts: seq<nat>)
    requires WellFormed(hash, s) && Schedule(hash, s, ts)
    ensures WellFormed(hash, AfterSchedule(hash, s, ts))
    ensures |ts| + TotalWork(AfterSchedule(hash, s, ts).threads) <= TotalWork(s.threads)
    ensures (forall t :: !Enabled(AfterSchedule(hash, s, ts), Advance(t))) ==> AllFinished(AfterSchedule(hash, s, ts))
    decreases |ts|
  {
    if ts == [] {
      if !AllFinished(s) {
        var t := NeverStuck(hash, s);
      }
    } else {
      WellFormedStep(hash, s, Advance(ts[0]));
      StepWorks(hash, s, ts[0]);
      CallsFinish(hash, Apply(hash, s, Advance(ts[0])), ts[1..]);
    }
  }
}
