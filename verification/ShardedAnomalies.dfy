/** What the locking of the sharded store does not give, by concrete interleavings: two saves of one
    record in flight can leave a stale index entry, and reads do not fit the order of writes. */
module ShardedAnomalies {
  import opened Types
  import opened SubscriptionIndex
  import opened ShardedStores
  import opened ShardedInterleaving
  import opened ShardedLinearizability
  import opened ShardedHistory
  import opened ShardedProgress

  // ---------------------------------------------------------------- building runs

  function Now(x: Execution): System
    requires x.states != []
  {
    x.states[|x.states| - 1]
  }

  ghost predicate Extends(x: Execution, y: Execution) {
    x.hash == y.hash && x.events <= y.events && x.states <= y.states
  }

  /** A run continued keeps its discipline if the new event does. */
  ghost predicate Continues(x: Execution, y: Execution) {
    IsRun(y) && Extends(x, y) && (Disciplined(x) ==> Disciplined(y))
  }

  lemma {:induction false} Then(x: Execution, e: Event) returns (y: Execution)
    requires IsRun(x) && Enabled(Now(x), e)
    ensures IsRun(y) && Extends(x, y) && Now(y) == Apply(x.hash, Now(x), e)
    ensures Disciplined(x) && (e.Start? ==> Admits(Now(x), e.call)) ==> Disciplined(y)
  {
    y := Execution(x.hash, x.events + [e], x.states + [Apply(x.hash, Now(x), e)]);
    forall k | 0 <= k < |y.events| ensures Happens(y, k) {
      assert k < |x.events| ==> Happens(x, k);
    }
    if Disciplined(x) && (e.Start? ==> Admits(Now(x), e.call)) {
      forall k ensures AdmittedAt(y, k) {
        assert AdmittedAt(x, k);
      }
    }
  }

  /** What matters between lock regions: the calls, what is stored under one id, and the active index. */
  datatype Scene = Scene(threads: seq<Thread>, rec: Option<Subscription>, activeBy: map<Text, Id>)

  ghost predicate HoldsNothing(th: Thread) {
    forall l :: !Holds(th, l)
  }

  ghost predicate Shows(x: Execution, id: Id, c: Scene) {
    && IsRun(x)
    && var s := Now(x);
       && s.threads == c.threads && |s.shards| == NUM_SHARDS
       && Stored(x.hash, s, id) == c.rec && s.activeBy == c.activeBy
       && forall u :: 0 <= u < |c.threads| ==> HoldsNothing(c.threads[u])
  }

  /** A call about to enter a region the scene says enough about. */
  predicate CanTurn(hash: Hash, id: Id, c: Scene, t: nat) {
    && t < |c.threads| && c.threads[t].Running? && c.threads[t].slot < NUM_SHARDS
    && var th := c.threads[t];
       match th.call
       case Write(Save(sub)) =>
         sub.id == id && th.slot == Slot(hash, id) && th.phase in {WantShard, WantPid, WantActive}
       case Write(Create(b)) => th.phase.WantActive? && b.subscriberId in c.activeBy
       case GetById(_) => th.phase.WantShard? && th.key == id && th.slot == Slot(hash, id)
       case FindActive(_) =>
         th.phase.WantActive? || (th.phase.WantShard? && th.key == id && th.slot == Slot(hash, id))
       case _ => false
  }

  /** The scene after that region. */
  function Turned(hash: Hash, id: Id, c: Scene, t: nat): Scene {
    if !CanTurn(hash, id, c, t) then c
    else
      var th := c.threads[t];
      match th.call
      case Write(Save(sub)) =>
        (match th.phase
         case WantShard => Scene(c.threads[t := th.(phase := WantPid, was := c.rec)], Some(sub), c.activeBy)
         case WantPid => c.(threads := c.threads[t := th.(phase := WantActive)])
         case _ => Scene(c.threads[t := Finished(th.call, Wrote(Done))], c.rec,
             ActiveAfter(c.activeBy, Save(sub), th.was)))
      case Write(_) => c.(threads := c.threads[t := Finished(th.call, Wrote(AlreadyExists))])
      case FindActive(who) =>
        if th.phase.WantActive? && who in c.activeBy then
          var k := c.activeBy[who];
          c.(threads := c.threads[t := th.(phase := WantShard, key := k, slot := Slot(hash, k))])
        else
          c.(threads := c.threads[t := Finished(th.call, Looked(if th.phase.WantActive? then None else c.rec))])
      case _ => c.(threads := c.threads[t := Finished(th.call, Looked(c.rec))])
  }

  /** The state after thread `t` has gone through one region. */
  ghost function Region(hash: Hash, s: System, t: nat): System
    requires t < |s.threads| && Wants(s.threads[t]).Some? && s.threads[t].slot < |s.shards|
  {
    var mid := Acquire(s, t);
    if IsWrite(mid.threads[t]) then WriteRegion(mid, t) else ReadRegion(hash, mid, t)
  }

  lemma RegionTurns(hash: Hash, s: System, id: Id, c: Scene, t: nat)
    requires CanTurn(hash, id, c, t) && s.threads == c.threads && |s.shards| == NUM_SHARDS
    requires Stored(hash, s, id) == c.rec && s.activeBy == c.activeBy
    ensures var s', c' := Region(hash, s, t), Turned(hash, id, c, t);
            && s'.threads == c'.threads && |s'.shards| == NUM_SHARDS
            && Stored(hash, s', id) == c'.rec && s'.activeBy == c'.activeBy
            && HoldsNothing(c'.threads[t])
  {
    assert HoldsNothing(Turned(hash, id, c, t).threads[t]);
  }

  lemma {:induction false} TwoSteps(x: Execution, t: nat) returns (y: Execution)
    requires IsRun(x) && t < |Now(x).threads| && Wants(Now(x).threads[t]).Some?
    requires Now(x).threads[t].slot < |Now(x).shards|
    requires forall u :: 0 <= u < |Now(x).threads| ==> HoldsNothing(Now(x).threads[u])
    ensures y.states != [] && Now(y) == Region(x.hash, Now(x), t) && Continues(x, y)
  {
    SaneRun(x, |x.events|);
    UnheldIsFree(x.hash, Now(x), Wants(Now(x).threads[t]).value);
    y := Then(x, Advance(t));
    y := Then(y, Advance(t));
  }

  lemma {:induction false} Turn(x: Execution, id: Id, c: Scene, t: nat) returns (y: Execution)
    requires Shows(x, id, c) && CanTurn(x.hash, id, c, t)
    ensures Shows(y, id, Turned(x.hash, id, c, t)) && Continues(x, y)
  {
    RegionTurns(x.hash, Now(x), id, c, t);
    y := TwoSteps(x, t);
    var c' := Turned(x.hash, id, c, t);
    assert forall u :: 0 <= u < |c'.threads| && u != t ==> c'.threads[u] == c.threads[u];
  }

  lemma {:induction false} Begun(x: Execution, id: Id, c: Scene, call: Call) returns (y: Execution)
    requires Shows(x, id, c)
    ensures Shows(y, id, c.(threads := c.threads + [Begin(x.hash, call)])) && IsRun(y) && Extends(x, y)
    ensures Disciplined(x) && Admits(Now(x), call) ==> Disciplined(y)
  {
    y := Then(x, Start(call));
    assert HoldsNothing(Begin(x.hash, call));
  }

  /** The run in which nothing has happened yet. */
  lemma {:induction false} Fresh(hash: Hash, id: Id) returns (x: Execution)
    ensures x.hash == hash && Shows(x, id, Scene([], None, map[])) && Disciplined(x)
  {
    x := Execution(hash, [], [Initial()]);
    forall k ensures AdmittedAt(x, k) {
    }
  }

  // ---------------------------------------------------------------- two saves of one record

  /** A save of `sub` at the start of one of its three regions. */
  function SaveAt(hash: Hash, sub: Subscription, phase: Phase, was: Option<Subscription>): Thread {
    Running(Write(Save(sub)), phase, was, sub.id, Slot(hash, sub.id), {})
  }

  function Saved(sub: Subscription): Thread {
    Finished(Write(Save(sub)), Wrote(Done))
  }

  /** Two concurrent saves of one record, the second canceling it: the record ends up canceled but
      indexed as active, which neither sequential order of the two saves can produce. */
  lemma {:induction false} TwoSavesDiverge(hash: Hash, a: Subscription, c: Subscription) returns (x: Execution)
    requires a.status == Active && a.id != [] && c == a.(status := Canceled)
    ensures Shows(x, a.id, Scene([Saved(a), Saved(c)], Some(c), map[a.subscriberId := a.id]))
    ensures Run(EMPTY, [Save(a), Save(c)]).activeBy == map[]
    ensures Get(Run(EMPTY, [Save(c), Save(a)]).subs, a.id) == Some(a)
  {
    x := BothWritten(hash, a, c);
    var s := Scene([SaveAt(hash, a, WantPid, None), SaveAt(hash, c, WantPid, Some(a))], Some(c), map[]);
    x := Turn(x, a.id, s, 1);
    s := Scene([SaveAt(hash, a, WantPid, None), SaveAt(hash, c, WantActive, Some(a))], Some(c), map[]);
    x := Turn(x, a.id, s, 1);
    s := Scene([SaveAt(hash, a, WantPid, None), Saved(c)], Some(c), map[]);
    x := Turn(x, a.id, s, 0);
    s := Scene([SaveAt(hash, a, WantActive, None), Saved(c)], Some(c), map[]);
    x := Turn(x, a.id, s, 0);
    SavesInOrder(a, c);
    SavesInOrder(c, a);
  }

  /** Both have written their shard, the second on top of the first. */
  lemma {:induction false} BothWritten(hash: Hash, a: Subscription, c: Subscription) returns (x: Execution)
    requires a.id == c.id
    ensures x.hash == hash
    ensures Shows(x, a.id, Scene([SaveAt(hash, a, WantPid, None), SaveAt(hash, c, WantPid, Some(a))], Some(c), map[]))
  {
    x := Fresh(hash, a.id);
    x := Begun(x, a.id, Scene([], None, map[]), Write(Save(a)));
    var s := Scene([SaveAt(hash, a, WantShard, None)], None, map[]);
    x := Begun(x, a.id, s, Write(Save(c)));
    s := Scene([SaveAt(hash, a, WantShard, None), SaveAt(hash, c, WantShard, None)], None, map[]);
    x := Turn(x, a.id, s, 0);
    s := Scene([SaveAt(hash, a, WantPid, None), SaveAt(hash, c, WantShard, None)], Some(a), map[]);
    x := Turn(x, a.id, s, 1);
  }

  lemma SavesInOrder(a: Subscription, b: Subscription)
    ensures Run(EMPTY, [Save(a), Save(b)]) == Next(Next(EMPTY, Save(a)), Save(b))
  {
    assert [Save(a), Save(b)][..1] == [Save(a)] && [Save(a)][..0] == [];
    assert Run(EMPTY, [Save(a)]) == Next(EMPTY, Save(a));
  }

  // ---------------------------------------------------------------- reads

  /** One record stored, nothing in flight. */
  function SavedScene(a: Subscription): Scene {
    Scene([Saved(a)], Some(a), map[a.subscriberId := a.id])
  }

  lemma {:induction false} SavedOnce(hash: Hash, a: Subscription) returns (x: Execution)
    requires a.status == Active
    ensures x.hash == hash && Shows(x, a.id, SavedScene(a)) && Disciplined(x)
  {
    x := Fresh(hash, a.id);
    x := Begun(x, a.id, Scene([], None, map[]), Write(Save(a)));
    var s := Scene([SaveAt(hash, a, WantShard, None)], None, map[]);
    x := Turn(x, a.id, s, 0);
    s := Scene([SaveAt(hash, a, WantPid, None)], Some(a), map[]);
    x := Turn(x, a.id, s, 0);
    s := Scene([SaveAt(hash, a, WantActive, None)], Some(a), map[]);
    x := Turn(x, a.id, s, 0);
  }

  /** Four calls: a save, a save canceling it that has not returned, a read that saw the cancellation,
      and a create refused. */
  function FourCalls(hash: Hash, a: Subscription, c: Subscription, b: Subscription): seq<Thread> {
    [Saved(a), SaveAt(hash, c, WantPid, Some(a)), Finished(GetById(a.id), Looked(Some(c))),
     Finished(Write(Create(b)), Wrote(AlreadyExists))]
  }

  /** The run: when the first save had returned nothing else had begun, and when the read had, the create had
      not. */
  ghost predicate FourRun(hash: Hash, a: Subscription, c: Subscription, b: Subscription, x: Execution) {
    && IsRun(x) && Calls(x) == FourCalls(hash, a, c, b)
    && (forall u: nat :: 1 <= u ==> Precedes(x, 0, u)) && Precedes(x, 2, 3)
    && (a.id != b.id ==> Disciplined(x))
  }

  lemma PrecedesAt(x: Execution, before: Execution, t: nat, u: nat)
    requires before.states != [] && Extends(before, x)
    requires t < |Now(before).threads| <= u && Now(before).threads[t].Finished?
    ensures Precedes(x, t, u)
  {
    var k := |before.states| - 1;
    assert x.states[k] == before.states[k];
    assert ReturnedBy(x, k, t) && UnstartedAt(x, k, u);
  }

  /** After a save canceling the record has reached its shard but not yet the active index, and a read has seen
      it. */
  function SeenScene(hash: Hash, a: Subscription, c: Subscription): Scene {
    Scene([Saved(a), SaveAt(hash, c, WantPid, Some(a)), Finished(GetById(a.id), Looked(Some(c)))], Some(c),
          map[a.subscriberId := a.id])
  }

  lemma {:induction false} CancelSeen(hash: Hash, a: Subscription, c: Subscription)
      returns (first: Execution, seen: Execution)
    requires a.status == Active && c == a.(status := Canceled)
    ensures Shows(first, a.id, SavedScene(a)) && Extends(first, seen) && seen.hash == hash && Disciplined(seen)
    ensures Shows(seen, a.id, SeenScene(hash, a, c))
  {
    first := SavedOnce(hash, a);
    var act := map[a.subscriberId := a.id];
    seen := Begun(first, a.id, SavedScene(a), Write(Save(c)));
    seen := Turn(seen, a.id, Scene([Saved(a), SaveAt(hash, c, WantShard, None)], Some(a), act), 1);
    seen := Begun(seen, a.id, Scene([Saved(a), SaveAt(hash, c, WantPid, Some(a))], Some(c), act), GetById(a.id));
    seen := Turn(seen, a.id,
        Scene([Saved(a), SaveAt(hash, c, WantPid, Some(a)), Begin(hash, GetById(a.id))], Some(c), act), 2);
  }

  lemma {:induction false} CreateRefused(seen: Execution, a: Subscription, c: Subscription, b: Subscription)
    returns (x: Execution)
    requires Shows(seen, a.id, SeenScene(seen.hash, a, c)) && c.id == a.id && b.subscriberId == a.subscriberId
    ensures IsRun(x) && Extends(seen, x) && Calls(x) == FourCalls(seen.hash, a, c, b)
    ensures Disciplined(seen) && a.id != b.id ==> Disciplined(x)
  {
    var scene, call := SeenScene(seen.hash, a, c), Write(Create(b));
    x := Begun(seen, a.id, scene, call);
    x := Turn(x, a.id, scene.(threads := scene.threads + [Begin(seen.hash, call)]), 3);
  }

  lemma {:induction false} FourHappen(hash: Hash, a: Subscription, c: Subscription, b: Subscription)
      returns (x: Execution)
    requires a.status == Active && c == a.(status := Canceled) && b.subscriberId == a.subscriberId
    ensures FourRun(hash, a, c, b, x)
  {
    var first, seen := CancelSeen(hash, a, c);
    x := CreateRefused(seen, a, c, b);
    forall u: nat | 1 <= u ensures Precedes(x, 0, u) {
      PrecedesAt(x, first, 0, u);
    }
    PrecedesAt(x, seen, 2, 3);
  }

  predicate MayFollow(t: nat, u: nat) {
    u != 0 && !(t == 3 && u == 2)
  }

  /** In an order compatible with time the first save comes first and the read before the create. */
  predicate FourInTime(order: seq<nat>) {
    && (forall i :: 0 <= i < |order| ==> order[i] < 4) && Distinguished(order)
    && (forall i, j :: 0 <= i < j < |order| ==> MayFollow(order[i], order[j]))
    && 0 in order && 2 in order && 3 in order
  }

  /** Then it starts with the save, and goes on with the read or the canceling save. */
  lemma FourOrders(order: seq<nat>)
    requires FourInTime(order)
    ensures [0, 2] <= order || [0, 1, 2, 3] <= order
  {
    var i0 :| 0 <= i0 < |order| && order[i0] == 0;
    var i2 :| 0 <= i2 < |order| && order[i2] == 2;
    var i3 :| 0 <= i3 < |order| && order[i3] == 3;
    assert (i0 > 0 ==> MayFollow(order[0], order[i0])) && (i3 < i2 ==> MayFollow(order[i3], order[i2]));
    assert order[0] == 0 && (order[1] == 2 || (order[1] == 1 && order[2] == 2 && order[3] == 3));
  }

  /** An order that is answered is so from its beginning. */
  lemma {:induction false} AnsweredPrefix(threads: seq<Thread>, a: seq<nat>, order: seq<nat>)
    requires a <= order && Answered(threads, order)
    ensures Answered(threads, a)
  {
    if |a| == |order| {
      assert a == order;
    } else {
      AnsweredPrefix(threads, a, order[..|order| - 1]);
    }
  }

  /** No such order explains the four answers: unless the canceling save comes first the read would have
      seen the record active, and if it does the create would have been accepted. */
  lemma {:induction false} NoFourAnswered(hash: Hash, a: Subscription, c: Subscription, b: Subscription,
                                          order: seq<nat>)
    requires a.status == Active && c == a.(status := Canceled) && b.subscriberId == a.subscriberId
    requires FourInTime(order)
    ensures !Answered(FourCalls(hash, a, c, b), order)
  {
    var threads := FourCalls(hash, a, c, b);
    FourOrders(order);
    assert [0, 2][..1] == [0] && [0][..0] == [] && [0, 1][..1] == [0];
    assert [0, 1, 2, 3][..3] == [0, 1, 2] && [0, 1, 2][..2] == [0, 1];
    assert After(threads, [0]) == Next(EMPTY, Save(a));
    assert After(threads, [0, 1, 2]) == Next(Next(EMPTY, Save(a)), Save(c));
    assert !AnswerFits(Next(EMPTY, Save(a)), threads, 2);
    assert !AnswerFits(Next(Next(EMPTY, Save(a)), Save(c)), threads, 3);
    if Answered(threads, order) {
      AnsweredPrefix(threads, if [0, 2] <= order then [0, 2] else [0, 1, 2, 3], order);
      assert false;
    }
  }

  lemma FourFit(hash: Hash, a: Subscription, c: Subscription, b: Subscription, x: Execution, order: seq<nat>)
    requires FourRun(hash, a, c, b, x) && Covers(Calls(x), order, true) && InTime(x, order)
    ensures FourInTime(order)
  {
    forall t: nat | t in {0, 2, 3} ensures t in order {
      assert t < |Calls(x)| && Calls(x)[t].Finished?;
    }
    forall i, j | 0 <= i < j < |order| ensures MayFollow(order[i], order[j]) {
      assert !Precedes(x, order[j], order[i]);
    }
  }

  /** With reads included the store is not linearizable. A read of `a` returns it canceled, and a create
      that starts only afterwards is refused: no order of the calls that respects time gives both answers.
      With two different records there is never more than one write of a record in flight. */
  lemma {:induction false} ReadsDoNotLinearize(hash: Hash, a: Subscription, c: Subscription, b: Subscription)
    returns (x: Execution)
    requires a.status == Active && c == a.(status := Canceled) && b.subscriberId == a.subscriberId
    ensures FourRun(hash, a, c, b, x)
    ensures forall order :: !Linearizes(x, order, true)
  {
    x := FourHappen(hash, a, c, b);
    forall order | Covers(Calls(x), order, true) && InTime(x, order) ensures !Answered(Calls(x), order) {
      FourFit(hash, a, c, b, x, order);
      NoFourAnswered(hash, a, c, b, order);
    }
  }

  /** A lookup of a saved record that has read the index and not yet the shard. */
  function HalfFound(hash: Hash, a: Subscription): Scene {
    Scene([Saved(a), Running(FindActive(a.subscriberId), WantShard, None, a.id, Slot(hash, a.id), {})], Some(a),
      map[a.subscriberId := a.id])
  }

  lemma {:induction false} HalfFinds(hash: Hash, a: Subscription) returns (x: Execution)
    requires a.status == Active
    ensures x.hash == hash && Shows(x, a.id, HalfFound(hash, a)) && Disciplined(x)
  {
    x := SavedOnce(hash, a);
    var call := FindActive(a.subscriberId);
    x := Begun(x, a.id, SavedScene(a), call);
    x := Turn(x, a.id, Scene([Saved(a), Begin(hash, call)], Some(a), map[a.subscriberId := a.id]), 1);
  }

  /** A lookup of the active record can return a record that is already inactive: it was canceled between the
      lookup's two looks. */
  lemma {:induction false} FoundInactive(hash: Hash, a: Subscription, c: Subscription) returns (x: Execution)
    requires a.status == Active && c == a.(status := Canceled)
    ensures IsRun(x) && Disciplined(x)
    ensures Calls(x) == [Saved(a), Finished(FindActive(a.subscriberId), Looked(Some(c))),
            SaveAt(hash, c, WantPid, Some(a))]
  {
    x := HalfFinds(hash, a);
    var act, call := map[a.subscriberId := a.id], FindActive(a.subscriberId);
    var found := Running(call, WantShard, None, a.id, Slot(hash, a.id), {});
    x := Begun(x, a.id, Scene([Saved(a), found], Some(a), act), Write(Save(c)));
    x := Turn(x, a.id, Scene([Saved(a), found, SaveAt(hash, c, WantShard, None)], Some(a), act), 2);
    x := Turn(x, a.id, Scene([Saved(a), found, SaveAt(hash, c, WantPid, Some(a))], Some(c), act), 1);
  }
}
