/** The sharded store under concurrency (store/memory/memory.go:376-584). Calls run as threads that
    take their locks one at a time; any thread may move between two lock operations of another. The
    body of a lock region is one step, since everything it touches is guarded by the lock it holds. */
module ShardedInterleaving {
  import opened Types
  import opened SubscriptionIndex
  import opened SubscriptionStores
  import opened ShardedStores

  datatype Lock = ShardMu(slot: nat) | PidMu | ActiveMu

  datatype Call =
    | Write(op: Op)
    | GetById(id: Id)
    | FindByProvider(pid: Text)
    | FindActive(subscriber: Text)
    | ListAll(f: Filter)

  /** Where a call is: about to take a lock, or inside the region it guards. `Commit` is the last
      part of a create, still under the active-index lock. */
  datatype Phase = WantShard | InShard | WantPid | InPid | WantActive | InActive | Commit

  datatype Answer = Wrote(reply: Reply) | Looked(sub: Option<Subscription>) | Listed(subs: set<Subscription>)

  /** `was` is the record a write found in its shard, `key` and `slot` the record and shard a read is
      about to look at, `out` the part of a listing collected so far. */
  datatype Thread =
    | Running(call: Call, phase: Phase, was: Option<Subscription>, key: Id, slot: nat, out: set<Subscription>)
    | Finished(call: Call, answer: Answer)

  /** One write in the order in which the writes take effect. */
  datatype Entry = Entry(thread: nat, op: Op, reply: Reply)

  datatype System = System(
    shards: seq<Shard>,
    byProvider: map<Text, Id>,
    activeBy: map<Text, Id>,
    writer: map<Lock, nat>,
    readers: set<(Lock, nat)>,
    threads: seq<Thread>,
    log: seq<Entry>)

  datatype Event = Start(call: Call) | Advance(thread: nat)

  // ---------------------------------------------------------------- locks

  predicate IsWrite(th: Thread) {
    th.call.Write?
  }

  /** A create past its first lock keeps the active-index lock until it returns. */
  predicate KeepsActive(th: Thread) {
    th.Running? && th.call.Write? && th.call.op.Create? && th.phase !in {WantActive, InActive}
  }

  function Wants(th: Thread): Option<Lock> {
    if th.Finished? then None else
      match th.phase
      case WantShard => Some(ShardMu(th.slot))
      case WantPid => Some(PidMu)
      case WantActive => Some(ActiveMu)
      case _ => None
  }

  predicate Holds(th: Thread, l: Lock) {
    && th.Running?
    && match l
       case ShardMu(slot) => th.phase.InShard? && th.slot == slot
       case PidMu => th.phase.InPid?
       case ActiveMu => th.phase.InActive? || KeepsActive(th)
  }

  /** A write lock needs the lock free, a read lock needs it free of writers. */
  ghost predicate Free(s: System, l: Lock, exclusive: bool) {
    && l !in s.writer
    && (exclusive ==> forall r :: r in s.readers ==> r.0 != l)
  }

  function Entered(phase: Phase): Phase {
    match phase
    case WantShard => InShard
    case WantPid => InPid
    case WantActive => InActive
    case _ => phase
  }

  ghost function Acquire(s: System, t: nat): System
    requires t < |s.threads| && Wants(s.threads[t]).Some?
  {
    var th, l := s.threads[t], Wants(s.threads[t]).value;
    s.(threads := s.threads[t := th.(phase := Entered(th.phase))],
       writer := if IsWrite(th) then s.writer[l := t] else s.writer,
       readers := if IsWrite(th) then s.readers else s.readers + {(l, t)})
  }

  /** Thread `t` becomes `th` and lets go of every lock `th` no longer holds. */
  ghost function Release(s: System, t: nat, th: Thread): System
    requires t < |s.threads|
  {
    s.(threads := s.threads[t := th],
       writer := map l | l in s.writer && (s.writer[l] == t ==> Holds(th, l)) :: s.writer[l],
       readers := set r | r in s.readers && (r.1 == t ==> Holds(th, r.0)))
  }

  // ---------------------------------------------------------------- regions

  /** A write that takes effect now: it is appended to the log and returns. */
  ghost function Return(s: System, t: nat, reply: Reply): System
    requires t < |s.threads| && s.threads[t].Running? && IsWrite(s.threads[t])
  {
    var call := s.threads[t].call;
    Release(s.(log := s.log + [Entry(t, call.op, reply)]), t, Finished(call, Wrote(reply)))
  }

  ghost function WriteRegion(s: System, t: nat): System
    requires t < |s.threads| && s.threads[t].Running? && IsWrite(s.threads[t])
    requires s.threads[t].slot < |s.shards|
  {
    var th := s.threads[t];
    var op := th.call.op;
    match th.phase
    case InShard =>
      var was := Get(s.shards[th.slot], Target(op));
      if op.Delete? && was.None? then Return(s, t, NotFound)
      else
        var phase := if op.Create? && op.sub.providerId == [] then Commit else WantPid;
        Release(s.(shards := s.shards[th.slot := SubsAfter(s.shards[th.slot], op)]), t,
                th.(was := was, phase := phase))
    case InPid =>
      Release(s.(byProvider := ProviderAfter(s.byProvider, op, th.was)), t,
              th.(phase := if op.Create? then Commit else WantActive))
    case InActive =>
      if !op.Create? then Return(s.(activeBy := ActiveAfter(s.activeBy, op, th.was)), t, Done)
      else if op.sub.subscriberId in s.activeBy then Return(s, t, AlreadyExists)
      else Release(s, t, th.(phase := WantShard))
    case Commit => Return(s.(activeBy := ActiveAfter(s.activeBy, op, th.was)), t, Done)
    case _ => s
  }

  ghost function ReadRegion(hash: Hash, s: System, t: nat): System
    requires t < |s.threads| && s.threads[t].Running? && s.threads[t].slot < |s.shards|
  {
    var th := s.threads[t];
    match th.phase
    case InShard =>
      var shard := s.shards[th.slot];
      if th.call.ListAll? then
        var out := th.out + Listing(shard, shard.Keys, th.call.f);
        Release(s, t, if th.slot + 1 < NUM_SHARDS then th.(phase := WantShard, slot := th.slot + 1, out := out)
                      else Finished(th.call, Listed(out)))
      else Release(s, t, Finished(th.call, Looked(Get(shard, th.key))))
    case InPid => if th.call.FindByProvider? then Jump(hash, s, t, Get(s.byProvider, th.call.pid)) else s
    case InActive => if th.call.FindActive? then Jump(hash, s, t, Get(s.activeBy, th.call.subscriber)) else s
    case _ => s
  }

  /** An index read goes on to the shard of the id it found. */
  ghost function Jump(hash: Hash, s: System, t: nat, found: Option<Id>): System
    requires t < |s.threads| && s.threads[t].Running?
  {
    var th := s.threads[t];
    Release(s, t, match found
                  case None => Finished(th.call, Looked(None))
                  case Some(id) => th.(phase := WantShard, key := id, slot := Slot(hash, id)))
  }

  // ---------------------------------------------------------------- runs

  ghost function Begin(hash: Hash, call: Call): Thread {
    match call
    case Write(op) =>
      Running(call, if op.Create? then WantActive else WantShard, None, Target(op), Slot(hash, Target(op)), {})
    case GetById(id) => Running(call, WantShard, None, id, Slot(hash, id), {})
    case FindByProvider(_) => Running(call, WantPid, None, [], 0, {})
    case FindActive(_) => Running(call, WantActive, None, [], 0, {})
    case ListAll(_) => Running(call, WantShard, None, [], 0, {})
  }

  ghost predicate Enabled(s: System, e: Event) {
    match e
    case Start(_) => true
    case Advance(t) =>
      && t < |s.threads| && s.threads[t].Running? && s.threads[t].slot < |s.shards|
      && (Wants(s.threads[t]).Some? ==> Free(s, Wants(s.threads[t]).value, IsWrite(s.threads[t])))
  }

  ghost function Apply(hash: Hash, s: System, e: Event): System
    requires Enabled(s, e)
  {
    match e
    case Start(call) => s.(threads := s.threads + [Begin(hash, call)])
    case Advance(t) =>
      if Wants(s.threads[t]).Some? then Acquire(s, t)
      else if IsWrite(s.threads[t]) then WriteRegion(s, t)
      else ReadRegion(hash, s, t)
  }

  ghost function Initial(): System {
    System(seq(NUM_SHARDS, _ => map[]), map[], map[], map[], {}, [], [])
  }

  function Ops(log: seq<Entry>): seq<Op> {
    seq(|log|, i requires 0 <= i < |log| => log[i].op)
  }

  /** The single-lock store after the logged writes, one after the other. */
  function Replay(s: System): StoreState {
    Run(EMPTY, Ops(s.log))
  }

  lemma ReplayGrows(s: System, s': System, e: Entry)
    requires s'.log == s.log + [e]
    ensures Replay(s') == Next(Replay(s), e.op)
  {
    assert Ops(s'.log)[..|s.log|] == Ops(s.log);
  }

  /** A run: its events, and the states before, between and after them. */
  datatype Execution = Execution(hash: Hash, events: seq<Event>, states: seq<System>)

  ghost predicate Happens(x: Execution, k: int) {
    && 0 <= k < |x.events| && |x.states| == |x.events| + 1
    && Enabled(x.states[k], x.events[k]) && x.states[k + 1] == Apply(x.hash, x.states[k], x.events[k])
  }

  /** It starts from the empty store, and each event can happen when it does. */
  ghost predicate IsRun(x: Execution) {
    && |x.states| == |x.events| + 1 && x.states[0] == Initial()
    && forall k :: 0 <= k < |x.events| ==> Happens(x, k)
  }

  // ---------------------------------------------------------------- who holds what

  ghost predicate Shaped(hash: Hash, th: Thread) {
    th.Running? ==>
      && th.slot < NUM_SHARDS
      && match th.call
         case Write(op) =>
           && th.key == Target(op) && th.slot == Slot(hash, th.key)
           && (th.phase.Commit? ==> op.Create?)
         case GetById(id) => th.phase in {WantShard, InShard} && th.key == id && th.slot == Slot(hash, id)
         case FindByProvider(_) =>
           th.phase in {WantPid, InPid} || (th.phase in {WantShard, InShard} && th.slot == Slot(hash, th.key))
         case FindActive(_) =>
           th.phase in {WantActive, InActive} || (th.phase in {WantShard, InShard} && th.slot == Slot(hash, th.key))
         case ListAll(_) => th.phase in {WantShard, InShard}
  }

  /** The lock tables say exactly which thread holds which lock, and no lock is held for writing by
      one thread while another holds it at all. */
  ghost predicate LocksAgree(s: System) {
    && (forall l :: l in s.writer ==> s.writer[l] < |s.threads|)
    && (forall r :: r in s.readers ==> r.1 < |s.threads|)
    && (forall t, l :: 0 <= t < |s.threads| ==>
         (Holds(s.threads[t], l) && IsWrite(s.threads[t]) <==> Get(s.writer, l) == Some(t)))
    && (forall t, l :: 0 <= t < |s.threads| ==>
         (Holds(s.threads[t], l) && !IsWrite(s.threads[t]) <==> (l, t) in s.readers))
    && (forall r :: r in s.readers ==> r.0 !in s.writer)
  }

  ghost predicate WellFormed(hash: Hash, s: System) {
    && |s.shards| == NUM_SHARDS
    && (forall t :: 0 <= t < |s.threads| ==> Shaped(hash, s.threads[t]))
    && LocksAgree(s)
  }

  lemma AcquireLocks(s: System, t: nat)
    requires LocksAgree(s) && t < |s.threads| && Wants(s.threads[t]).Some?
    requires Free(s, Wants(s.threads[t]).value, IsWrite(s.threads[t]))
    ensures LocksAgree(Acquire(s, t))
  {
    var th, l, s' := s.threads[t], Wants(s.threads[t]).value, Acquire(s, t);
    forall k ensures Holds(s'.threads[t], k) <==> Holds(th, k) || k == l {
      match k case ShardMu(_) => case PidMu => case ActiveMu =>
    }
    forall u, k | 0 <= u < |s'.threads|
      ensures Holds(s'.threads[u], k) && IsWrite(s'.threads[u]) <==> Get(s'.writer, k) == Some(u)
      ensures Holds(s'.threads[u], k) && !IsWrite(s'.threads[u]) <==> (k, u) in s'.readers
    {
      assert Holds(s.threads[u], k) && IsWrite(s.threads[u]) <==> Get(s.writer, k) == Some(u);
      assert Holds(s.threads[u], k) && !IsWrite(s.threads[u]) <==> (k, u) in s.readers;
    }
  }

  /** Holding no more than before is all a region needs for its release to be right. */
  lemma ReleaseLocks(s: System, t: nat, th: Thread)
    requires LocksAgree(s) && t < |s.threads| && IsWrite(th) == IsWrite(s.threads[t])
    requires forall l :: Holds(th, l) ==> Holds(s.threads[t], l)
    ensures LocksAgree(Release(s, t, th))
  {
    var s' := Release(s, t, th);
    forall u, k | 0 <= u < |s'.threads|
      ensures Holds(s'.threads[u], k) && IsWrite(s'.threads[u]) <==> Get(s'.writer, k) == Some(u)
      ensures Holds(s'.threads[u], k) && !IsWrite(s'.threads[u]) <==> (k, u) in s'.readers
    {
      assert Holds(s.threads[u], k) && IsWrite(s.threads[u]) <==> Get(s.writer, k) == Some(u);
      assert Holds(s.threads[u], k) && !IsWrite(s.threads[u]) <==> (k, u) in s.readers;
    }
  }

  lemma StartLocks(s: System, th: Thread)
    requires LocksAgree(s) && forall l :: !Holds(th, l)
    ensures LocksAgree(s.(threads := s.threads + [th]))
  {
    var s' := s.(threads := s.threads + [th]);
    forall u, k | 0 <= u < |s'.threads|
      ensures Holds(s'.threads[u], k) && IsWrite(s'.threads[u]) <==> Get(s'.writer, k) == Some(u)
      ensures Holds(s'.threads[u], k) && !IsWrite(s'.threads[u]) <==> (k, u) in s'.readers
    {
      if u < |s.threads| {
        assert Holds(s.threads[u], k) && IsWrite(s.threads[u]) <==> Get(s.writer, k) == Some(u);
        assert Holds(s.threads[u], k) && !IsWrite(s.threads[u]) <==> (k, u) in s.readers;
      }
    }
  }

  /** What a step does to the calls and the log: it moves its own call on, and a write that returns is logged
      with its reply. */
  predicate Stepped(s: System, e: Event, s': System) {
    match e
    case Start(call) =>
      && |s'.threads| == |s.threads| + 1 && s'.threads[..|s.threads|] == s.threads
      && s'.threads[|s.threads|].Running? && s'.threads[|s.threads|].call == call
      && s'.log == s.log
    case Advance(t) =>
      && t < |s.threads| && s.threads[t].Running? && |s'.threads| == |s.threads|
      && s'.threads == s.threads[t := s'.threads[t]] && s'.threads[t].call == s.threads[t].call
      && if IsWrite(s.threads[t]) && s'.threads[t].Finished? then
           s'.threads[t].answer.Wrote? && s'.log == s.log + [Entry(t, s.threads[t].call.op, s'.threads[t].answer.reply)]
         else s'.log == s.log
  }

  predicate WritesShard(s: System, t: nat, s': System)
    requires t < |s.threads|
  {
    var th := s.threads[t];
    && th.Running? && th.call.Write? && th.slot < |s.shards|
    && s'.shards == s.shards[th.slot := SubsAfter(s.shards[th.slot], th.call.op)]
  }

  /** A region changes the data, its own thread and nothing else, and takes no lock. */
  ghost predicate RegionOf(hash: Hash, s: System, t: nat, s': System)
    requires t < |s.threads|
  {
    && Stepped(s, Advance(t), s')
    && (s'.shards == s.shards || WritesShard(s, t, s'))
    && s' == Release(s.(shards := s'.shards, byProvider := s'.byProvider, activeBy := s'.activeBy, log := s'.log),
                     t, s'.threads[t])
    && Shaped(hash, s'.threads[t])
    && (forall l :: Holds(s'.threads[t], l) ==> Holds(s.threads[t], l))
  }

  lemma WriteRegionShape(hash: Hash, s: System, t: nat)
    requires |s.shards| == NUM_SHARDS && t < |s.threads| && s.threads[t].Running? && IsWrite(s.threads[t])
    requires Shaped(hash, s.threads[t]) && Wants(s.threads[t]).None?
    ensures RegionOf(hash, s, t, WriteRegion(s, t))
  {
    var s' := WriteRegion(s, t);
    forall l | Holds(s'.threads[t], l) ensures Holds(s.threads[t], l) {
      match l case ShardMu(_) => case PidMu => case ActiveMu =>
    }
  }

  lemma ReadRegionShape(hash: Hash, s: System, t: nat)
    requires |s.shards| == NUM_SHARDS && t < |s.threads| && s.threads[t].Running? && !IsWrite(s.threads[t])
    requires Shaped(hash, s.threads[t]) && Wants(s.threads[t]).None?
    ensures RegionOf(hash, s, t, ReadRegion(hash, s, t))
  {
    var s' := ReadRegion(hash, s, t);
    forall l ensures !Holds(s'.threads[t], l) {
      match l case ShardMu(_) => case PidMu => case ActiveMu =>
    }
  }

  lemma RegionLocks(hash: Hash, s: System, t: nat, s': System)
    requires LocksAgree(s) && t < |s.threads| && RegionOf(hash, s, t, s')
    ensures LocksAgree(s')
  {
    var mid := s.(shards := s'.shards, byProvider := s'.byProvider, activeBy := s'.activeBy, log := s'.log);
    assert LocksAgree(mid);
    ReleaseLocks(mid, t, s'.threads[t]);
  }

  lemma WellFormedStep(hash: Hash, s: System, e: Event)
    requires WellFormed(hash, s) && Enabled(s, e)
    ensures WellFormed(hash, Apply(hash, s, e)) && Stepped(s, e, Apply(hash, s, e))
    ensures e.Advance? ==> Apply(hash, s, e).shards == s.shards || WritesShard(s, e.thread, Apply(hash, s, e))
  {
    var s' := Apply(hash, s, e);
    match e
    case Start(call) =>
      StartLocks(s, Begin(hash, call));
    case Advance(t) =>
      assert Shaped(hash, s.threads[t]);
      if Wants(s.threads[t]).Some? {
        AcquireLocks(s, t);
      } else {
        if IsWrite(s.threads[t]) {
          WriteRegionShape(hash, s, t);
        } else {
          ReadRegionShape(hash, s, t);
        }
        RegionLocks(hash, s, t, s');
      }
  }

  lemma MutualExclusion(hash: Hash, s: System, t: nat, u: nat, l: Lock)
    requires WellFormed(hash, s) && t < |s.threads| && u < |s.threads|
    requires Holds(s.threads[t], l) && Holds(s.threads[u], l) && IsWrite(s.threads[t])
    ensures t == u
  {
    assert Get(s.writer, l) == Some(t);
    assert IsWrite(s.threads[u]) ==> Get(s.writer, l) == Some(u);
    assert !IsWrite(s.threads[u]) ==> (l, u) in s.readers;
  }

  // ---------------------------------------------------------------- every reachable state

  /** One log entry for each write that has returned, with its reply. */
  ghost predicate Logged(s: System) {
    && (forall i :: 0 <= i < |s.log| ==>
         && s.log[i].thread < |s.threads|
         && s.threads[s.log[i].thread] == Finished(Write(s.log[i].op), Wrote(s.log[i].reply)))
    && (forall i, j :: 0 <= i < j < |s.log| ==> s.log[i].thread != s.log[j].thread)
    && (forall t :: 0 <= t < |s.threads| && s.threads[t].Finished? && IsWrite(s.threads[t]) ==>
         exists i :: 0 <= i < |s.log| && s.log[i].thread == t)
  }

  lemma LoggedStep(s: System, e: Event, s': System)
    requires Logged(s) && Stepped(s, e, s')
    ensures Logged(s')
  {
    forall t | 0 <= t < |s'.threads| && s'.threads[t].Finished? && IsWrite(s'.threads[t])
      ensures exists i :: 0 <= i < |s'.log| && s'.log[i].thread == t
    {
      if t < |s.threads| && s.threads[t].Finished? {
        var i :| 0 <= i < |s.log| && s.log[i].thread == t;
        assert s'.log[i].thread == t;
      } else {
        assert s'.log[|s.log|].thread == t;
      }
    }
  }

  /** Every record sits in the shard its hash selects, under its own id. */
  ghost predicate Housed(hash: Hash, s: System) {
    forall i, id :: 0 <= i < |s.shards| && id in s.shards[i] ==> Slot(hash, id) == i && s.shards[i][id].id == id
  }

  /** What holds in every reachable state, whatever calls are made. */
  ghost predicate Sane(hash: Hash, s: System) {
    WellFormed(hash, s) && Logged(s) && Housed(hash, s)
  }

  lemma SaneStep(hash: Hash, s: System, e: Event)
    requires Sane(hash, s) && Enabled(s, e)
    ensures Sane(hash, Apply(hash, s, e)) && Stepped(s, e, Apply(hash, s, e))
  {
    WellFormedStep(hash, s, e);
    LoggedStep(s, e, Apply(hash, s, e));
    if e.Advance? {
      assert Shaped(hash, s.threads[e.thread]);
    }
  }

  lemma {:induction false} SaneRun(x: Execution, k: nat)
    requires IsRun(x) && k < |x.states|
    ensures Sane(x.hash, x.states[k])
    ensures k < |x.events| ==> Stepped(x.states[k], x.events[k], x.states[k + 1])
  {
    if k == 0 {
      assert Sane(x.hash, Initial());
    } else {
      SaneRun(x, k - 1);
      assert Happens(x, k - 1);
      SaneStep(x.hash, x.states[k - 1], x.events[k - 1]);
    }
    if k < |x.events| {
      assert Happens(x, k);
      SaneStep(x.hash, x.states[k], x.events[k]);
    }
  }

  /** Calls are only added; a call stays the same call, and its answer stays once it has one. */
  predicate ThreadsKept(before: seq<Thread>, after: seq<Thread>) {
    && |before| <= |after|
    && (forall t :: 0 <= t < |before| ==>
         after[t].call == before[t].call && (before[t].Finished? ==> after[t] == before[t]))
  }

  lemma {:induction false} Grows(x: Execution, k: nat, n: nat)
    requires IsRun(x) && k <= n < |x.states|
    ensures x.states[k].log <= x.states[n].log && ThreadsKept(x.states[k].threads, x.states[n].threads)
  {
    if k < n {
      Grows(x, k, n - 1);
      SaneRun(x, n - 1);
    }
  }
}
