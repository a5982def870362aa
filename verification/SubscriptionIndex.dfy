/** The subscription store as a value: a primary map and the two secondary indexes, the three
    writes, the lookups, and what those writes keep (store/memory/memory.go:84-249). */
module SubscriptionIndex {
  import opened Types

  datatype StoreState = StoreState(
    subs: map<Id, Subscription>,
    byProvider: map<Text, Id>,
    activeBy: map<Text, Id>)

  const EMPTY := StoreState(map[], map[], map[])

  datatype Op = Save(sub: Subscription) | Delete(id: Id) | Create(sub: Subscription)

  datatype Reply = Done | NotFound | AlreadyExists

  /** A lookup through an index. `Panic` is the nil dereference of a dangling entry. */
  datatype Lookup = Found(sub: Subscription) | Missing | Panic

  function Target(op: Op): Id {
    match op
    case Save(sub) => sub.id
    case Delete(id) => id
    case Create(sub) => sub.id
  }

  // ---------------------------------------------------------------- writes

  function EvictProvider(byProvider: map<Text, Id>, was: Option<Subscription>): map<Text, Id> {
    if was.Some? && was.value.providerId != [] then byProvider - {was.value.providerId} else byProvider
  }

  function IndexProvider(byProvider: map<Text, Id>, sub: Subscription): map<Text, Id> {
    if sub.providerId != [] then byProvider[sub.providerId := sub.id] else byProvider
  }

  /** Evicts `was` from the active index, provided `id` is the record indexed for its subscriber. */
  function EvictActive(activeBy: map<Text, Id>, was: Subscription, id: Id): map<Text, Id> {
    if IdAt(activeBy, was.subscriberId) == id then activeBy - {was.subscriberId} else activeBy
  }

  function IndexActive(activeBy: map<Text, Id>, sub: Subscription): map<Text, Id> {
    if IsActive(sub) then activeBy[sub.subscriberId := sub.id] else activeBy
  }

  function ProviderAfter(byProvider: map<Text, Id>, op: Op, was: Option<Subscription>): map<Text, Id> {
    match op
    case Save(sub) => IndexProvider(EvictProvider(byProvider, was), sub)
    case Delete(_) => EvictProvider(byProvider, was)
    case Create(sub) => IndexProvider(byProvider, sub)
  }

  function ActiveAfter(activeBy: map<Text, Id>, op: Op, was: Option<Subscription>): map<Text, Id> {
    match op
    case Save(sub) =>
      var leaving := was.Some? && IsActive(was.value) && !IsActive(sub);
      IndexActive(if leaving then EvictActive(activeBy, was.value, sub.id) else activeBy, sub)
    case Delete(id) => if was.Some? then EvictActive(activeBy, was.value, id) else activeBy
    case Create(sub) => IndexActive(activeBy, sub)
  }

  function SubsAfter(subs: map<Id, Subscription>, op: Op): map<Id, Subscription> {
    match op
    case Save(sub) => subs[sub.id := sub]
    case Delete(id) => subs - {id}
    case Create(sub) => subs[sub.id := sub]
  }

  function ReplyTo(st: StoreState, op: Op): Reply {
    match op
    case Save(_) => Done
    case Delete(id) => if id in st.subs then Done else NotFound
    case Create(sub) => if sub.subscriberId in st.activeBy then AlreadyExists else Done
  }

  /** The store after one write. A refused write changes nothing. */
  function Next(st: StoreState, op: Op): StoreState {
    if ReplyTo(st, op) != Done then st else
      var was := Get(st.subs, Target(op));
      StoreState(SubsAfter(st.subs, op), ProviderAfter(st.byProvider, op, was), ActiveAfter(st.activeBy, op, was))
  }

  function Run(st: StoreState, ops: seq<Op>): StoreState {
    if ops == [] then st else Next(Run(st, ops[..|ops| - 1]), ops[|ops| - 1])
  }

  /** What the write leaves under its id. */
  function Becomes(op: Op): Option<Subscription> {
    if op.Delete? then None else Some(op.sub)
  }

  /** Write `k` of the history was of record `id` and was not refused. */
  predicate Accepted(st: StoreState, ops: seq<Op>, k: nat, id: Id)
    requires k < |ops|
  {
    Target(ops[k]) == id && ReplyTo(Run(st, ops[..k]), ops[k]) == Done
  }

  /** Reading a record by id gives what the last accepted write of it left, for every history; if there
      was none, what was there before. */
  lemma {:induction false} LastWriteWins(st: StoreState, ops: seq<Op>, id: Id, k: int)
    requires -1 <= k < |ops| && (k >= 0 ==> Accepted(st, ops, k, id))
    requires forall m: nat :: k < m < |ops| ==> !Accepted(st, ops, m, id)
    ensures Get(Run(st, ops).subs, id) == if k < 0 then Get(st.subs, id) else Becomes(ops[k])
  {
    if ops != [] {
      var n := |ops| - 1;
      forall m: nat | m < n ensures Accepted(st, ops[..n], m, id) == Accepted(st, ops, m, id) {
        assert ops[..n][..m] == ops[..m];
      }
      assert k < n ==> !Accepted(st, ops, n, id);
      if k < n {
        LastWriteWins(st, ops[..n], id, k);
      }
    }
  }

  // ---------------------------------------------------------------- lookups

  function Follow(subs: map<Id, Subscription>, index: map<Text, Id>, key: Text): Lookup {
    if key !in index then Missing
    else if index[key] in subs then Found(subs[index[key]])
    else Panic
  }

  function ByProvider(st: StoreState, pid: Text): Lookup {
    Follow(st.subs, st.byProvider, pid)
  }

  function ActiveOf(st: StoreState, subscriber: Text): Lookup {
    Follow(st.subs, st.activeBy, subscriber)
  }

  // ---------------------------------------------------------------- invariants

  ghost predicate KeyedById(subs: map<Id, Subscription>) {
    forall id :: id in subs ==> subs[id].id == id
  }

  /** The record `id` is stored and belongs under `pid` in the provider index. */
  predicate HasProvider(subs: map<Id, Subscription>, pid: Text, id: Id) {
    id in subs && pid != [] && subs[id].providerId == pid
  }

  predicate HasActive(subs: map<Id, Subscription>, subscriber: Text, id: Id) {
    id in subs && IsActive(subs[id]) && subs[id].subscriberId == subscriber
  }

  /** Every index entry points at a stored record that carries its key. */
  ghost predicate Sound(st: StoreState) {
    && KeyedById(st.subs)
    && (forall pid :: pid in st.byProvider ==> HasProvider(st.subs, pid, st.byProvider[pid]))
    && (forall s :: s in st.activeBy ==> HasActive(st.subs, s, st.activeBy[s]))
  }

  /** Every stored record is found through the indexes. */
  ghost predicate Complete(st: StoreState) {
    && (forall pid, id :: HasProvider(st.subs, pid, id) ==> Get(st.byProvider, pid) == Some(id))
    && (forall s, id :: HasActive(st.subs, s, id) ==> Get(st.activeBy, s) == Some(id))
  }

  ghost predicate ProviderExact(st: StoreState) {
    forall pid, id :: Get(st.byProvider, pid) == Some(id) <==> HasProvider(st.subs, pid, id)
  }

  ghost predicate ActiveExact(st: StoreState) {
    forall s, id :: Get(st.activeBy, s) == Some(id) <==> HasActive(st.subs, s, id)
  }

  /** The two equivalences the store documents (memory.go:87-90). */
  ghost predicate Exact(st: StoreState) {
    KeyedById(st.subs) && ProviderExact(st) && ActiveExact(st)
  }

  lemma ExactIsSoundAndComplete(st: StoreState)
    ensures Exact(st) <==> Sound(st) && Complete(st)
  {
    if Exact(st) {
      forall pid | pid in st.byProvider ensures HasProvider(st.subs, pid, st.byProvider[pid]) {
        assert Get(st.byProvider, pid) == Some(st.byProvider[pid]);
      }
      forall s | s in st.activeBy ensures HasActive(st.subs, s, st.activeBy[s]) {
        assert Get(st.activeBy, s) == Some(st.activeBy[s]);
      }
    }
  }

  lemma {:induction false} RunKeyed(st: StoreState, ops: seq<Op>)
    requires KeyedById(st.subs)
    ensures KeyedById(Run(st, ops).subs)
    ensures [] !in st.byProvider ==> [] !in Run(st, ops).byProvider
  {
    if ops != [] {
      RunKeyed(st, ops[..|ops| - 1]);
    }
  }

  // ---------------------------------------------------------------- what one write keeps

  /** A caller can tell from the store whether a write keeps every entry sound: a save must not move
      an indexed record, active before and after, to another subscriber, and a create must not land
      on an indexed id under different keys. */
  predicate KeepsSound(st: StoreState, op: Op) {
    match op
    case Save(sub) =>
      sub.id in st.subs && IsActive(st.subs[sub.id]) && IsActive(sub)
      && Get(st.activeBy, st.subs[sub.id].subscriberId) == Some(sub.id)
      ==> st.subs[sub.id].subscriberId == sub.subscriberId
    case Delete(_) => true
    case Create(sub) =>
      sub.subscriberId !in st.activeBy && sub.id in st.subs ==>
        && (Get(st.byProvider, st.subs[sub.id].providerId) == Some(sub.id) ==>
            st.subs[sub.id].providerId == sub.providerId)
        && Get(st.activeBy, st.subs[sub.id].subscriberId) != Some(sub.id)
  }

  /** Likewise for the documented equivalences: no other record may already own the provider id or
      be the subscriber's active one, and a create may not reuse the id of an indexed record. */
  predicate KeepsExact(st: StoreState, op: Op) {
    match op
    case Save(sub) =>
      && (sub.providerId in st.byProvider ==> st.byProvider[sub.providerId] == sub.id)
      && (IsActive(sub) ==>
        && (sub.subscriberId in st.activeBy ==> st.activeBy[sub.subscriberId] == sub.id)
        && (sub.id in st.subs && IsActive(st.subs[sub.id]) ==> st.subs[sub.id].subscriberId == sub.subscriberId))
    case Delete(_) => true
    case Create(sub) =>
      sub.subscriberId !in st.activeBy ==>
        && (sub.providerId in st.byProvider ==> st.byProvider[sub.providerId] == sub.id)
        && (sub.id in st.subs ==>
          && !IsActive(st.subs[sub.id])
          && st.subs[sub.id].providerId in {[], sub.providerId})
  }

  lemma SaveSound(st: StoreState, sub: Subscription)
    requires Sound(st)
    ensures Sound(Next(st, Save(sub))) <==> KeepsSound(st, Save(sub))
  {
    var st' := Next(st, Save(sub));
    assert st'.subs == st.subs[sub.id := sub];
    assert forall pid :: pid in st'.byProvider ==> HasProvider(st'.subs, pid, st'.byProvider[pid]);
    if !KeepsSound(st, Save(sub)) {
      var s := st.subs[sub.id].subscriberId;
      assert s in st'.activeBy && !HasActive(st'.subs, s, st'.activeBy[s]);
    } else {
      assert forall s :: s in st'.activeBy ==> HasActive(st'.subs, s, st'.activeBy[s]);
    }
  }

  lemma DeleteSound(st: StoreState, id: Id)
    requires Sound(st)
    ensures Sound(Next(st, Delete(id)))
  {
    var st' := Next(st, Delete(id));
    assert forall pid :: pid in st'.byProvider ==> HasProvider(st'.subs, pid, st'.byProvider[pid]);
    assert forall s :: s in st'.activeBy ==> HasActive(st'.subs, s, st'.activeBy[s]);
  }

  lemma CreateSound(st: StoreState, sub: Subscription)
    requires Sound(st)
    ensures Sound(Next(st, Create(sub))) <==> KeepsSound(st, Create(sub))
  {
    if KeepsSound(st, Create(sub)) {
      if sub.subscriberId !in st.activeBy {
      }
    } else {
      var st', was := Next(st, Create(sub)), st.subs[sub.id];
      if Get(st.activeBy, was.subscriberId) == Some(sub.id) {
        assert was.subscriberId in st'.activeBy && !HasActive(st'.subs, was.subscriberId, sub.id);
      } else {
        assert was.providerId in st'.byProvider && !HasProvider(st'.subs, was.providerId, sub.id);
      }
    }
  }

  lemma SoundStep(st: StoreState, op: Op)
    requires Sound(st)
    ensures Sound(Next(st, op)) <==> KeepsSound(st, op)
  {
    match op
    case Save(sub) => SaveSound(st, sub);
    case Delete(id) => DeleteSound(st, id);
    case Create(sub) => CreateSound(st, sub);
  }

  /** In an exact store the guard for the equivalences implies the one for soundness. */
  lemma ExactKeepsSound(st: StoreState, op: Op)
    requires Exact(st) && KeepsExact(st, op)
    ensures KeepsSound(st, op)
  {
    if op.Create? && op.sub.id in st.subs {
      var was := st.subs[op.sub.id];
      if Get(st.activeBy, was.subscriberId) == Some(op.sub.id) {
        assert HasActive(st.subs, was.subscriberId, op.sub.id);
      }
      if Get(st.byProvider, was.providerId) == Some(op.sub.id) {
        assert HasProvider(st.subs, was.providerId, op.sub.id);
      }
    }
  }

  lemma SaveKeepsComplete(st: StoreState, sub: Subscription)
    requires Sound(st) && Complete(st) && KeepsExact(st, Save(sub))
    ensures Complete(Next(st, Save(sub)))
  {
    var st' := Next(st, Save(sub));
    assert st'.subs == st.subs[sub.id := sub];
    forall pid, id | HasProvider(st'.subs, pid, id) ensures Get(st'.byProvider, pid) == Some(id) {
      if id != sub.id {
        assert HasProvider(st.subs, pid, id);
        assert sub.id in st.subs ==> !HasProvider(st.subs, pid, sub.id);
      }
    }
    forall s, id | HasActive(st'.subs, s, id) ensures Get(st'.activeBy, s) == Some(id) {
      if id != sub.id {
        assert HasActive(st.subs, s, id);
      }
    }
  }

  lemma SaveBreaksExact(st: StoreState, sub: Subscription)
    requires Exact(st) && !KeepsExact(st, Save(sub))
    ensures !Exact(Next(st, Save(sub)))
  {
    var st' := Next(st, Save(sub));
    ExactIsSoundAndComplete(st);
    assert st'.subs == st.subs[sub.id := sub];
    if sub.providerId in st.byProvider && st.byProvider[sub.providerId] != sub.id {
      assert HasProvider(st'.subs, sub.providerId, st.byProvider[sub.providerId]);
    } else if sub.subscriberId in st.activeBy && st.activeBy[sub.subscriberId] != sub.id {
      assert HasActive(st'.subs, sub.subscriberId, st.activeBy[sub.subscriberId]);
    } else {
      assert HasActive(st.subs, st.subs[sub.id].subscriberId, sub.id);
      assert !HasActive(st'.subs, st.subs[sub.id].subscriberId, sub.id);
    }
  }

  lemma SaveExact(st: StoreState, sub: Subscription)
    requires Exact(st)
    ensures Exact(Next(st, Save(sub))) <==> KeepsExact(st, Save(sub))
  {
    if KeepsExact(st, Save(sub)) {
      ExactIsSoundAndComplete(st);
      ExactIsSoundAndComplete(Next(st, Save(sub)));
      ExactKeepsSound(st, Save(sub));
      SaveSound(st, sub);
      SaveKeepsComplete(st, sub);
    } else {
      SaveBreaksExact(st, sub);
    }
  }

  lemma DeleteExact(st: StoreState, id: Id)
    requires Exact(st)
    ensures Exact(Next(st, Delete(id)))
  {
    var st' := Next(st, Delete(id));
    ExactIsSoundAndComplete(st);
    ExactIsSoundAndComplete(st');
    DeleteSound(st, id);
    forall pid, other | HasProvider(st'.subs, pid, other) ensures Get(st'.byProvider, pid) == Some(other) {
      assert HasProvider(st.subs, pid, other);
      assert id in st.subs ==> !HasProvider(st.subs, pid, id);
    }
    forall s, other | HasActive(st'.subs, s, other) ensures Get(st'.activeBy, s) == Some(other) {
      assert HasActive(st.subs, s, other);
    }
  }

  lemma CreateKeepsComplete(st: StoreState, sub: Subscription)
    requires Sound(st) && Complete(st) && KeepsExact(st, Create(sub)) && sub.subscriberId !in st.activeBy
    ensures Complete(Next(st, Create(sub)))
  {
    var st' := Next(st, Create(sub));
    assert st'.subs == st.subs[sub.id := sub];
    forall pid, id | HasProvider(st'.subs, pid, id) ensures Get(st'.byProvider, pid) == Some(id) {
      assert id != sub.id ==> HasProvider(st.subs, pid, id);
    }
    forall s, id | HasActive(st'.subs, s, id) ensures Get(st'.activeBy, s) == Some(id) {
      assert id != sub.id ==> HasActive(st.subs, s, id);
    }
  }

  lemma CreateBreaksExact(st: StoreState, sub: Subscription)
    requires Exact(st) && !KeepsExact(st, Create(sub))
    ensures !Exact(Next(st, Create(sub)))
  {
    var st' := Next(st, Create(sub));
    ExactIsSoundAndComplete(st);
    assert st'.subs == st.subs[sub.id := sub];
    if sub.providerId in st.byProvider && st.byProvider[sub.providerId] != sub.id {
      assert HasProvider(st'.subs, sub.providerId, st.byProvider[sub.providerId]);
    } else if IsActive(st.subs[sub.id]) {
      assert HasActive(st.subs, st.subs[sub.id].subscriberId, sub.id);
      assert !HasActive(st'.subs, st.subs[sub.id].subscriberId, sub.id);
    } else {
      assert HasProvider(st.subs, st.subs[sub.id].providerId, sub.id);
      assert !HasProvider(st'.subs, st.subs[sub.id].providerId, sub.id);
    }
  }

  lemma CreateExact(st: StoreState, sub: Subscription)
    requires Exact(st)
    ensures Exact(Next(st, Create(sub))) <==> KeepsExact(st, Create(sub))
  {
    if sub.subscriberId !in st.activeBy {
      if KeepsExact(st, Create(sub)) {
        ExactIsSoundAndComplete(st);
        ExactIsSoundAndComplete(Next(st, Create(sub)));
        ExactKeepsSound(st, Create(sub));
        CreateSound(st, sub);
        CreateKeepsComplete(st, sub);
      } else {
        CreateBreaksExact(st, sub);
      }
    }
  }

  lemma ExactStep(st: StoreState, op: Op)
    requires Exact(st)
    ensures Exact(Next(st, op)) <==> KeepsExact(st, op)
  {
    match op
    case Save(sub) => SaveExact(st, sub);
    case Delete(id) => DeleteExact(st, id);
    case Create(sub) => CreateExact(st, sub);
  }

  // ---------------------------------------------------------------- one entry across writes

  /** Which writes are refused, by what the caller could have looked up; they change nothing. */
  lemma RefusedExactly(st: StoreState, op: Op)
    ensures ReplyTo(st, op) == NotFound <==> op.Delete? && Get(st.subs, op.id) == None
    ensures ReplyTo(st, op) == AlreadyExists <==> op.Create? && ActiveOf(st, op.sub.subscriberId) != Missing
    ensures ReplyTo(st, op) != Done ==> Next(st, op) == st
  {
  }

  /** The write leaves an active record of the subscriber. */
  predicate Activates(op: Op, subscriber: Text) {
    !op.Delete? && op.sub.subscriberId == subscriber && op.sub.status in {Active, Trialing}
  }

  /** In every store, sound or not, an active entry and what is found through it stay as they are unless the
      write names its record or leaves another record of the subscriber active. */
  lemma ActiveStays(st: StoreState, op: Op, subscriber: Text)
    requires subscriber in st.activeBy && st.activeBy[subscriber] != Target(op) && !Activates(op, subscriber)
    ensures Get(Next(st, op).activeBy, subscriber) == Get(st.activeBy, subscriber)
    ensures ActiveOf(Next(st, op), subscriber) == ActiveOf(st, subscriber)
  {
  }

  /** So a record found as a subscriber's active one is found until a write names it or leaves another record
      of the subscriber active, over every history from every store. */
  lemma {:induction false} ActiveStaysFound(st: StoreState, ops: seq<Op>, subscriber: Text)
    requires subscriber in st.activeBy
    requires forall k :: 0 <= k < |ops| ==> Target(ops[k]) != st.activeBy[subscriber] && !Activates(ops[k], subscriber)
    ensures Get(Run(st, ops).activeBy, subscriber) == Get(st.activeBy, subscriber)
    ensures ActiveOf(Run(st, ops), subscriber) == ActiveOf(st, subscriber)
  {
    if ops != [] {
      ActiveStaysFound(st, ops[..|ops| - 1], subscriber);
      ActiveStays(Run(st, ops[..|ops| - 1]), ops[|ops| - 1], subscriber);
    }
  }

  /** While entries stay sound an accepted write gives the subscriber whose record it leaves active that
      record's entry, takes away any other entry naming the record and touches no further one. */
  lemma ActiveEntryExactly(st: StoreState, op: Op, subscriber: Text)
    requires Sound(st) && KeepsSound(st, op) && ReplyTo(st, op) == Done
    ensures Get(Next(st, op).activeBy, subscriber) ==
            if Activates(op, subscriber) then Some(Target(op))
            else if Get(st.activeBy, subscriber) == Some(Target(op)) then None
            else Get(st.activeBy, subscriber)
  {
  }

  predicate Carries(sub: Option<Subscription>, pid: Text) {
    sub.Some? && sub.value.providerId == pid
  }

  /** In every store an accepted write gives a provider id it brings to its record; a save or delete of a record
      that carried the id takes the entry away, whomever it names; no other entry changes. */
  lemma ProviderEntryExactly(st: StoreState, op: Op, pid: Text)
    requires pid != [] && ReplyTo(st, op) == Done
    ensures Get(Next(st, op).byProvider, pid) ==
            if Carries(Becomes(op), pid) then Some(Target(op))
            else if !op.Create? && Carries(Get(st.subs, Target(op)), pid) then None
            else Get(st.byProvider, pid)
  {
  }

  // ---------------------------------------------------------------- whole runs

  /** Every state of the run is sound. */
  ghost predicate StaysSound(st: StoreState, ops: seq<Op>) {
    Sound(Run(st, ops)) && (ops == [] || StaysSound(st, ops[..|ops| - 1]))
  }

  ghost predicate StaysExact(st: StoreState, ops: seq<Op>) {
    Exact(Run(st, ops)) && (ops == [] || StaysExact(st, ops[..|ops| - 1]))
  }

  /** Every write of the run met its guard in the state it was applied to. */
  predicate GuardedSound(st: StoreState, ops: seq<Op>) {
    ops == [] || (GuardedSound(st, ops[..|ops| - 1]) && KeepsSound(Run(st, ops[..|ops| - 1]), ops[|ops| - 1]))
  }

  predicate GuardedExact(st: StoreState, ops: seq<Op>) {
    ops == [] || (GuardedExact(st, ops[..|ops| - 1]) && KeepsExact(Run(st, ops[..|ops| - 1]), ops[|ops| - 1]))
  }

  /** Over every history: all its states are sound exactly when every write met its guard. */
  lemma {:induction false} RunSound(st: StoreState, ops: seq<Op>)
    requires Sound(st)
    ensures StaysSound(st, ops) <==> GuardedSound(st, ops)
  {
    if ops != [] {
      var before := ops[..|ops| - 1];
      RunSound(st, before);
      if StaysSound(st, before) {
        SoundStep(Run(st, before), ops[|ops| - 1]);
      }
    }
  }

  /** Over every history: the documented equivalences hold throughout exactly when every write met
      its guard. */
  lemma {:induction false} RunExact(st: StoreState, ops: seq<Op>)
    requires Exact(st)
    ensures StaysExact(st, ops) <==> GuardedExact(st, ops)
  {
    if ops != [] {
      var before := ops[..|ops| - 1];
      RunExact(st, before);
      if StaysExact(st, before) {
        ExactStep(Run(st, before), ops[|ops| - 1]);
      }
    }
  }

  // ---------------------------------------------------------------- lookups against a scan

  /** What a scan of the primary map finds. */
  ghost function WithProvider(subs: map<Id, Subscription>, pid: Text): set<Id> {
    set id | id in subs && HasProvider(subs, pid, id)
  }

  ghost function ActiveFor(subs: map<Id, Subscription>, subscriber: Text): set<Id> {
    set id | id in subs && HasActive(subs, subscriber, id)
  }

  /** The O(1) answer `r` says what the scan result `ids` says. */
  ghost predicate Agrees(subs: map<Id, Subscription>, r: Lookup, ids: set<Id>) {
    match r
    case Found(sub) => ids == {sub.id} && sub.id in subs && subs[sub.id] == sub
    case Missing => ids == {}
    case Panic => false
  }

  /** The indexes answer every lookup as a linear scan would exactly when they are exact; what is required every
      history keeps, dangling entries and all. */
  lemma LookupsScan(st: StoreState)
    requires KeyedById(st.subs) && [] !in st.byProvider
    ensures Exact(st) <==>
      && (forall pid :: pid != [] ==> Agrees(st.subs, ByProvider(st, pid), WithProvider(st.subs, pid)))
      && (forall s :: Agrees(st.subs, ActiveOf(st, s), ActiveFor(st.subs, s)))
  {
    if Exact(st) {
      ExactIsSoundAndComplete(st);
      forall pid | pid != [] ensures Agrees(st.subs, ByProvider(st, pid), WithProvider(st.subs, pid)) {
        if pid in st.byProvider {
          assert WithProvider(st.subs, pid) == {st.byProvider[pid]};
        }
      }
      forall s ensures Agrees(st.subs, ActiveOf(st, s), ActiveFor(st.subs, s)) {
        if s in st.activeBy {
          assert ActiveFor(st.subs, s) == {st.activeBy[s]};
        }
      }
    } else if pid, id :| HasProvider(st.subs, pid, id) != (Get(st.byProvider, pid) == Some(id)) {
      assert id in WithProvider(st.subs, pid) <==> HasProvider(st.subs, pid, id);
    } else {
      var s, id :| HasActive(st.subs, s, id) != (Get(st.activeBy, s) == Some(id));
      assert id in ActiveFor(st.subs, s) <==> HasActive(st.subs, s, id);
    }
  }

  /** While entries are sound no lookup dereferences a missing record, and what the active index
      returns is active and belongs to the subscriber asked for. */
  lemma SoundLookups(st: StoreState, key: Text)
    requires Sound(st)
    ensures !ByProvider(st, key).Panic? && !ActiveOf(st, key).Panic?
    ensures ByProvider(st, key).Found? ==> key != [] && ByProvider(st, key).sub.providerId == key
    ensures ActiveOf(st, key).Found? ==>
              ActiveOf(st, key).sub.status in {Active, Trialing} && ActiveOf(st, key).sub.subscriberId == key
  {
  }

  lemma RunThree(st: StoreState, x: Op, y: Op, z: Op)
    ensures Run(st, [x, y, z]) == Next(Next(Next(st, x), y), z)
  {
    assert [x, y, z][..2] == [x, y] && [x, y][..1] == [x] && [x][..0] == [];
    assert Run(st, [x, y]) == Next(Run(st, [x]), y);
  }

  /** A paused record next to an active one of the same subscriber, as the store indexes them. */
  lemma PausedBeside(a: Subscription, b: Subscription)
    requires a.id != b.id && a.providerId == [] && b.providerId == [] && a.subscriberId == b.subscriberId
    requires a.status == Active && b.status == Active
    ensures var paused := a.(status := Paused);
            Run(EMPTY, [Create(a), Save(paused), Create(b)])
              == StoreState(map[a.id := paused, b.id := b], map[], map[b.subscriberId := b.id])
  {
    var paused := a.(status := Paused);
    RunThree(EMPTY, Create(a), Save(paused), Create(b));
    assert Next(EMPTY, Create(a)) == StoreState(map[a.id := a], map[], map[a.subscriberId := a.id]);
    assert Next(Next(EMPTY, Create(a)), Save(paused)) == StoreState(map[a.id := paused], map[], map[]);
  }

  /** The documented equivalence fails on three ordinary writes: pause `a`, subscribe `b`, resume
      `a`. After `a` is canceled the subscriber still has the active `b`, yet the index reports none
      and a further create is accepted. */
  lemma ResumeBreaksExact(a: Subscription, b: Subscription)
    requires a.id != b.id && a.providerId == [] && b.providerId == [] && a.subscriberId == b.subscriberId
    requires a.status == Active && b.status == Active
    ensures var paused, canceled := a.(status := Paused), a.(status := Canceled);
            var st := Run(EMPTY, [Create(a), Save(paused), Create(b)]);
            && Exact(st)
            && !Exact(Next(st, Save(a)))
            && ActiveOf(Next(Next(st, Save(a)), Save(canceled)), b.subscriberId) == Missing
            && Get(Next(Next(st, Save(a)), Save(canceled)).subs, b.id) == Some(b)
  {
    var paused, st := a.(status := Paused), Run(EMPTY, [Create(a), Save(a.(status := Paused)), Create(b)]);
    PausedBeside(a, b);
    assert Exact(st) by {
      assert st.subs == map[a.id := paused, b.id := b];
    }
    assert !Exact(Next(st, Save(a))) by {
      ExactStep(st, Save(a));
    }
  }
}
