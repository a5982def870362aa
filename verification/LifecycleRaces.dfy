/** The manager's calls under concurrency (subscriber.go, webhook.go). A call loads a record, edits its
    copy and saves the copy, and other calls run in between; only the store's own operations are atomic. */
module LifecycleRaces {
  import opened Types
  import opened SubscriptionIndex
  import opened Lifecycle

  type TaskId = nat

  /** A call between its load and its save: what it will write, the record it loaded, and the call. */
  datatype Pending = Pending(op: Op, loaded: Option<Subscription>, plans: map<Id, Plan>, action: Action)

  datatype State = State(st: StoreState, pending: map<TaskId, Pending>)

  /** `Begin` is everything up to the save, `Commit` the save. */
  datatype Event = Begin(t: TaskId, plans: map<Id, Plan>, action: Action) | Commit(t: TaskId)

  /** What the call will write, if it gets that far. */
  function Prepared(calendar: Calendar, st: StoreState, plans: map<Id, Plan>, a: Action): Option<Pending> {
    if a.Subscribe? then
      if a.planId !in plans || a.gateway.Refuses? then None
      else Some(Pending(Create(NewSubscription(calendar, plans[a.planId], a)), None, plans, a))
    else
      match EffectOf(calendar, st, plans, a)
      case Writes(op, _) => Some(Pending(op, Get(st.subs, Target(op)), plans, a))
      case Stops(_) => None
  }

  function Advance(calendar: Calendar, s: State, e: Event): State {
    match e
    case Begin(t, plans, a) =>
      var p := Prepared(calendar, s.st, plans, a);
      if t in s.pending || p.None? then s else s.(pending := s.pending[t := p.value])
    case Commit(t) =>
      if t in s.pending then State(Next(s.st, s.pending[t].op), s.pending - {t}) else s
  }

  /** A run: its events, and the states before, between and after them. */
  datatype Execution = Execution(calendar: Calendar, events: seq<Event>, states: seq<State>)

  predicate Happens(x: Execution, k: int) {
    0 <= k < |x.events| && k + 1 < |x.states| && x.states[k + 1] == Advance(x.calendar, x.states[k], x.events[k])
  }

  predicate IsRun(x: Execution) {
    |x.states| == |x.events| + 1 && forall k :: 0 <= k < |x.events| ==> Happens(x, k)
  }

  /** A call that nothing gets in between of takes the step of the sequential state machine. */
  lemma AtOnce(calendar: Calendar, st: StoreState, plans: map<Id, Plan>, a: Action, t: TaskId)
    ensures var s := Advance(calendar, Advance(calendar, State(st, map[]), Begin(t, plans, a)), Commit(t));
            s == State(Step(calendar, st, plans, a), map[])
  {
    var p := Prepared(calendar, st, plans, a);
    if p.Some? {
      assert map[t := p.value] - {t} == map[];
    }
  }

  // ---------------------------------------------------------------- what a call writes

  predicate KnowsPlan(a: Action, plans: map<Id, Plan>) {
    match a
    case ChangePlan(_, newPlanId, _, _) => newPlanId in plans
    case _ => true
  }

  /** What the call writes follows from the record it loaded. */
  predicate Justified(calendar: Calendar, p: Pending) {
    match p.action
    case Subscribe(_, planId, _, _, gateway, _) =>
      planId in p.plans && !gateway.Refuses? && p.op == Create(NewSubscription(calendar, p.plans[planId], p.action))
    case Webhook(pid, kind, data, now) =>
      && pid != [] && p.loaded.Some? && p.loaded.value.id == Target(p.op)
      && var edited := ApplyEvent(p.loaded.value, kind, data, now);
         edited.Some? && p.op == Save(edited.value.(updatedAt := now))
    case _ =>
      && p.loaded.Some? && p.action.id == Target(p.op)
      && KnowsPlan(p.action, p.plans)
      && !(p.action.gateway.Refuses? && p.loaded.value.providerId != [])
      && p.op == Save(Edited(p.loaded.value, p.action))
  }

  /** A call in flight writes a record that is not stored, or another version of one that is. */
  predicate Proper(st: StoreState, p: Pending) {
    match p.op
    case Create(sub) => Staged(sub) && sub.id !in st.subs
    case Save(sub) =>
      && Staged(sub) && sub.id in st.subs && SameIdentity(st.subs[sub.id], sub)
      && p.loaded.Some? && Evolves(p.loaded.value, sub)
    case Delete(_) => false
  }

  ghost predicate Consistent(calendar: Calendar, s: State) {
    && Sound(s.st) && AllStaged(s.st)
    && (forall t :: t in s.pending ==> Proper(s.st, s.pending[t]) && Justified(calendar, s.pending[t]))
    && (forall t, u :: t in s.pending && u in s.pending && t != u && s.pending[t].op.Create? ==>
         Target(s.pending[t].op) != Target(s.pending[u].op))
  }

  ghost predicate AllKept(a: StoreState, b: StoreState) {
    forall id :: id in a.subs ==> id in b.subs && SameIdentity(a.subs[id], b.subs[id])
  }

  /** New subscriptions get ids that neither the store nor a call in flight has. */
  predicate FreshBegin(s: State, e: Event) {
    e.Begin? && e.action.Subscribe? ==>
      && e.action.newId !in s.st.subs
      && forall t :: t in s.pending ==> Target(s.pending[t].op) != e.action.newId
  }

  predicate FreshAt(x: Execution, k: int) {
    0 <= k < |x.events| && k < |x.states| ==> FreshBegin(x.states[k], x.events[k])
  }

  ghost predicate FreshRun(x: Execution) {
    IsRun(x) && Consistent(x.calendar, x.states[0]) && forall k :: FreshAt(x, k)
  }

  lemma PreparedProper(calendar: Calendar, st: StoreState, plans: map<Id, Plan>, a: Action)
    requires Sound(st) && AllStaged(st) && Fresh(st, a) && Prepared(calendar, st, plans, a).Some?
    ensures var p := Prepared(calendar, st, plans, a).value;
            && Proper(st, p) && p.action == a
            && (if a.Subscribe? then p.op.Create? && p.op.sub.id == a.newId else p.op.Save?)
  {
    if a.Subscribe? {
    } else {
      WritesEvolve(calendar, st, plans, a);
    }
  }

  lemma PreparedJustified(calendar: Calendar, st: StoreState, plans: map<Id, Plan>, a: Action)
    requires Sound(st) && Prepared(calendar, st, plans, a).Some?
    ensures var p := Prepared(calendar, st, plans, a).value;
            && Justified(calendar, p) && (p.op.Save? ==> p.loaded == Get(st.subs, Target(p.op)))
            && (a.Webhook? ==> Get(st.byProvider, a.providerSubId) == Some(Target(p.op)))
  {
    if a.Webhook? {
      SoundLookups(st, a.providerSubId);
    }
  }

  /** A write that keeps the identity of its record keeps every index entry sound. */
  lemma ProperWrite(st: StoreState, p: Pending)
    requires Sound(st) && AllStaged(st) && Proper(st, p)
    ensures Sound(Next(st, p.op)) && AllStaged(Next(st, p.op)) && AllKept(st, Next(st, p.op))
  {
    SoundStep(st, p.op);
  }

  lemma ProperStays(st: StoreState, p: Pending, other: Pending)
    requires Proper(st, p) && Proper(st, other)
    requires p.op.Create? || other.op.Create? ==> Target(p.op) != Target(other.op)
    ensures Proper(Next(st, p.op), other)
  {
  }

  lemma CommitConsistent(calendar: Calendar, s: State, t: TaskId)
    requires Consistent(calendar, s) && t in s.pending
    ensures var s' := Advance(calendar, s, Commit(t)); Consistent(calendar, s') && AllKept(s.st, s'.st)
  {
    ProperWrite(s.st, s.pending[t]);
    forall u | u in s.pending && u != t ensures Proper(Next(s.st, s.pending[t].op), s.pending[u]) {
      ProperStays(s.st, s.pending[t], s.pending[u]);
    }
  }

  lemma BeginConsistent(calendar: Calendar, s: State, t: TaskId, p: Pending)
    requires Consistent(calendar, s) && t !in s.pending && Proper(s.st, p) && Justified(calendar, p)
    requires p.op.Create? ==> forall u :: u in s.pending ==> Target(s.pending[u].op) != Target(p.op)
    ensures Consistent(calendar, s.(pending := s.pending[t := p]))
  {
    forall u | u in s.pending && s.pending[u].op.Create? && !p.op.Create?
      ensures Target(s.pending[u].op) != Target(p.op)
    {
      assert Proper(s.st, s.pending[u]);
    }
  }

  lemma ConsistentStep(calendar: Calendar, s: State, e: Event)
    requires Consistent(calendar, s) && FreshBegin(s, e)
    ensures Consistent(calendar, Advance(calendar, s, e)) && AllKept(s.st, Advance(calendar, s, e).st)
  {
    if e.Begin? && e.t !in s.pending && Prepared(calendar, s.st, e.plans, e.action).Some? {
      PreparedProper(calendar, s.st, e.plans, e.action);
      PreparedJustified(calendar, s.st, e.plans, e.action);
      BeginConsistent(calendar, s, e.t, Prepared(calendar, s.st, e.plans, e.action).value);
    } else if e.Commit? && e.t in s.pending {
      CommitConsistent(calendar, s, e.t);
    }
  }

  /** Main result. In every interleaving with fresh ids, however calls on one record race: index entries stay
      sound, records are marked as their status says, and a stored record stays with the same id,
      subscriber, provider id and trial. */
  lemma {:induction false} IdentityKept(x: Execution, k: nat, n: nat)
    requires FreshRun(x) && k <= n < |x.states|
    ensures Consistent(x.calendar, x.states[n]) && AllKept(x.states[k].st, x.states[n].st)
  {
    if n > 0 {
      IdentityKept(x, if k < n then k else n - 1, n - 1);
      assert Happens(x, n - 1) && FreshAt(x, n - 1);
      ConsistentStep(x.calendar, x.states[n - 1], x.events[n - 1]);
    }
  }

  // ---------------------------------------------------------------- nothing goes back

  /** The actions that set the cancellation mark, and those that leave the status alone. */
  predicate Cancels(a: Action) {
    a.Cancel? || (a.Webhook? && a.kind.SubCanceled?)
  }

  predicate KeepsStatus(a: Action) {
    a.ChangePlan? || (a.Cancel? && !a.immediately)
  }

  /** A record canceled meanwhile was so when loaded, or the call cancels it; and if it left its trial
      meanwhile, the call sets a status. */
  predicate Overtakes(stored: Subscription, loaded: Subscription, a: Action) {
    || (stored.canceledAt.Some? && loaded.canceledAt.None? && !Cancels(a))
    || (loaded.status.Trialing? && !stored.status.Trialing? && KeepsStatus(a))
  }

  /** The save takes nothing back; it can be told from the record stored, the copy loaded and the call. */
  predicate Harmless(s: State, e: Event) {
    e.Commit? && e.t in s.pending && s.pending[e.t].op.Save? ==>
      var p := s.pending[e.t];
      var stored := Get(s.st.subs, Target(p.op));
      stored.Some? && p.loaded.Some? ==> !Overtakes(stored.value, p.loaded.value, p.action)
  }

  predicate HarmlessAt(x: Execution, k: int) {
    0 <= k < |x.events| && k < |x.states| ==> Harmless(x.states[k], x.events[k])
  }

  ghost predicate EvolvesAt(x: Execution, k: int) {
    0 <= k && k + 1 < |x.states| ==> AllEvolve(x.states[k].st, x.states[k + 1].st)
  }

  lemma {:induction false} SaveExactly(calendar: Calendar, s: State, t: TaskId)
    requires t in s.pending && s.pending[t].op.Save? && Proper(s.st, s.pending[t]) && Justified(calendar, s.pending[t])
    ensures var sub := s.pending[t].op.sub;
            sub.id in s.st.subs && (Evolves(s.st.subs[sub.id], sub) <==> Harmless(s, Commit(t)))
  {
  }

  /** One step clears no cancellation mark and re-enters no trial exactly if its save is harmless. */
  lemma StepExactly(calendar: Calendar, s: State, e: Event)
    requires Consistent(calendar, s)
    ensures AllEvolve(s.st, Advance(calendar, s, e).st) <==> Harmless(s, e)
  {
    if e.Commit? && e.t in s.pending {
      assert Proper(s.st, s.pending[e.t]);
      var sub := s.pending[e.t].op.sub;
      if s.pending[e.t].op.Save? {
        SaveExactly(calendar, s, e.t);
        assert Advance(calendar, s, e).st.subs == s.st.subs[sub.id := sub];
      } else {
        assert Advance(calendar, s, e).st.subs in {s.st.subs, s.st.subs[sub.id := sub]};
      }
    }
  }

  /** Main result. In an interleaving with fresh ids cancellation marks are never cleared and trials never
      re-entered, if and only if no save overtakes a cancellation or the end of a trial. */
  lemma {:induction false} RacesExactly(x: Execution)
    requires FreshRun(x)
    ensures (forall k :: EvolvesAt(x, k)) <==> (forall k :: HarmlessAt(x, k))
  {
    forall k: nat | k < |x.events| ensures EvolvesAt(x, k) <==> HarmlessAt(x, k) {
      IdentityKept(x, k, k);
      assert Happens(x, k);
      StepExactly(x.calendar, x.states[k], x.events[k]);
    }
    assert forall k :: !(0 <= k < |x.events|) ==> EvolvesAt(x, k) && HarmlessAt(x, k);
  }

  /** Then this holds between any two points of the run. */
  lemma {:induction false} EvolvesBetween(x: Execution, k: nat, n: nat)
    requires (forall m :: EvolvesAt(x, m)) && k <= n < |x.states|
    ensures AllEvolve(x.states[k].st, x.states[n].st)
  {
    if k < n {
      EvolvesBetween(x, k, n - 1);
      assert EvolvesAt(x, n - 1);
    }
  }

  // ---------------------------------------------------------------- one call per record

  /** The save finds the record its call loaded. */
  predicate FindsLoaded(s: State, e: Event) {
    e.Commit? && e.t in s.pending && s.pending[e.t].op.Save? ==>
      Get(s.st.subs, Target(s.pending[e.t].op)) == s.pending[e.t].loaded
  }

  predicate FindsLoadedAt(x: Execution, k: int) {
    0 <= k < |x.events| && k < |x.states| ==> FindsLoaded(x.states[k], x.events[k])
  }

  /** No call in flight works on a record the new call would write. */
  predicate AloneAt(x: Execution, k: int) {
    0 <= k < |x.events| && k < |x.states| && x.events[k].Begin? ==>
      var s, e := x.states[k], x.events[k];
      var p := Prepared(x.calendar, s.st, e.plans, e.action);
      p.Some? ==> forall t :: t in s.pending ==> Target(s.pending[t].op) != Target(p.value.op)
  }

  predicate Exclusive(s: State) {
    && (forall t, u :: t in s.pending && u in s.pending && t != u ==>
         Target(s.pending[t].op) != Target(s.pending[u].op))
    && (forall t :: t in s.pending && s.pending[t].op.Save? ==>
         Get(s.st.subs, Target(s.pending[t].op)) == s.pending[t].loaded)
  }

  ghost predicate AloneRun(x: Execution) {
    FreshRun(x) && Exclusive(x.states[0]) && forall k :: AloneAt(x, k)
  }

  lemma ExclusiveStep(calendar: Calendar, s: State, e: Event)
    requires Consistent(calendar, s) && FreshBegin(s, e) && Exclusive(s)
    requires e.Begin? && Prepared(calendar, s.st, e.plans, e.action).Some? ==>
               forall t :: t in s.pending ==>
                 Target(s.pending[t].op) != Target(Prepared(calendar, s.st, e.plans, e.action).value.op)
    ensures Exclusive(Advance(calendar, s, e)) && FindsLoaded(s, e)
  {
    if e.Begin? && e.t !in s.pending && Prepared(calendar, s.st, e.plans, e.action).Some? {
      PreparedJustified(calendar, s.st, e.plans, e.action);
    } else if e.Commit? && e.t in s.pending {
      ExclusiveWithout(s, e.t);
    }
  }

  lemma ExclusiveWithout(s: State, t: TaskId)
    requires Exclusive(s) && t in s.pending
    ensures Exclusive(State(Next(s.st, s.pending[t].op), s.pending - {t}))
  {
  }

  /** Main result. With one call per record in flight every save finds what its call loaded. */
  lemma {:induction false} AloneFindsLoaded(x: Execution, k: nat)
    requires AloneRun(x) && k < |x.states|
    ensures Exclusive(x.states[k]) && FindsLoadedAt(x, k)
  {
    if k > 0 {
      var s, e := x.states[k - 1], x.events[k - 1];
      AloneFindsLoaded(x, k - 1);
      IdentityKept(x, k - 1, k - 1);
      assert Happens(x, k - 1) && FreshAt(x, k - 1) && AloneAt(x, k - 1);
      ExclusiveStep(x.calendar, s, e);
    }
  }

  /** Main result. So with one call per record in flight no cancellation mark is ever cleared and no trial
      re-entered, however calls on different records interleave. */
  lemma {:induction false} AloneEvolve(x: Execution, k: nat, n: nat)
    requires AloneRun(x) && k <= n < |x.states|
    ensures AllEvolve(x.states[k].st, x.states[n].st)
  {
    forall m ensures HarmlessAt(x, m) {
      if 0 <= m < |x.events| {
        AloneFindsLoaded(x, m);
      }
    }
    RacesExactly(x);
    EvolvesBetween(x, k, n);
  }

  // ---------------------------------------------------------------- as if one at a time

  /** A webhook's provider id still leads to the record it was found for. */
  predicate StillLeads(s: State, e: Event) {
    e.Commit? && e.t in s.pending && s.pending[e.t].action.Webhook? ==>
      Get(s.st.byProvider, s.pending[e.t].action.providerSubId) == Some(Target(s.pending[e.t].op))
  }

  predicate StillLeadsAt(x: Execution, k: int) {
    0 <= k < |x.events| && k < |x.states| ==> StillLeads(x.states[k], x.events[k])
  }

  /** A call and what its caller is told. */
  datatype Served = Served(call: Timed, outcome: Outcome)

  /** Why a call ends before it gets to its save. */
  function Refusal(calendar: Calendar, st: StoreState, plans: map<Id, Plan>, a: Action): Outcome {
    if a.Subscribe? then if a.planId !in plans then PlanNotFound else ProviderFailed
    else
      match EffectOf(calendar, st, plans, a)
      case Writes(_, sub) => Ok(sub)
      case Stops(outcome) => outcome
  }

  /** What the caller of the save is told; no call deletes. */
  function Told(st: StoreState, op: Op): Outcome {
    match op
    case Save(sub) => Ok(sub)
    case Create(sub) => if ReplyTo(st, op) == AlreadyExists then AlreadySubscribed else Ok(sub)
    case Delete(_) => Ignored
  }

  /** The call that ends in this step, if one does. */
  function Ends(calendar: Calendar, s: State, e: Event): seq<Served> {
    match e
    case Begin(t, plans, a) =>
      if t !in s.pending && Prepared(calendar, s.st, plans, a).None? then
        [Served(Timed(plans, a), Refusal(calendar, s.st, plans, a))]
      else []
    case Commit(t) =>
      if t in s.pending then
        var p := s.pending[t];
        [Served(Timed(p.plans, p.action), Told(s.st, p.op))]
      else []
  }

  /** The calls that have ended before state `k`, in that order. */
  function AllServed(x: Execution, k: nat): seq<Served> {
    if k == 0 || k > |x.events| || k > |x.states| then []
    else AllServed(x, k - 1) + Ends(x.calendar, x.states[k - 1], x.events[k - 1])
  }

  /** The same calls one at a time: where they lead, provided each caller is told the same. */
  function Replayed(calendar: Calendar, st: StoreState, served: seq<Served>): Option<StoreState> {
    if served == [] then Some(st)
    else
      var last := served[|served| - 1];
      match Replayed(calendar, st, served[..|served| - 1])
      case None => None
      case Some(mid) =>
        if last.outcome == OutcomeOf(calendar, mid, last.call.plans, last.call.action) then
          Some(Step(calendar, mid, last.call.plans, last.call.action))
        else None
  }

  lemma ReplayedNext(calendar: Calendar, st: StoreState, served: seq<Served>, mid: StoreState, x: Served)
    requires Replayed(calendar, st, served) == Some(mid)
    requires x.outcome == OutcomeOf(calendar, mid, x.call.plans, x.call.action)
    ensures Replayed(calendar, st, served + [x]) == Some(Step(calendar, mid, x.call.plans, x.call.action))
  {
    assert (served + [x])[..|served|] == served;
  }

  /** The call that ends in a step takes place then, and one that ends before its save changes nothing. */
  lemma EndsIsCall(calendar: Calendar, s: State, e: Event)
    requires Consistent(calendar, s) && FindsLoaded(s, e) && StillLeads(s, e)
    ensures var ended, after := Ends(calendar, s, e), Advance(calendar, s, e).st;
            if ended == [] then after == s.st
            else
              && |ended| == 1
              && after == Step(calendar, s.st, ended[0].call.plans, ended[0].call.action)
              && ended[0].outcome == OutcomeOf(calendar, s.st, ended[0].call.plans, ended[0].call.action)
  {
    if e.Commit? && e.t in s.pending {
      var p := s.pending[e.t];
      assert Proper(s.st, p) && Justified(calendar, p);
      if p.action.Subscribe? {
        assert EffectOf(calendar, s.st, p.plans, p.action)
            == if ReplyTo(s.st, p.op) == AlreadyExists then Stops(AlreadySubscribed) else Writes(p.op, p.op.sub);
      } else {
        assert EffectOf(calendar, s.st, p.plans, p.action) == Writes(p.op, p.op.sub);
      }
    }
  }

  lemma ServedStep(calendar: Calendar, st: StoreState, served: seq<Served>, s: State, e: Event)
    requires Consistent(calendar, s) && FindsLoaded(s, e) && StillLeads(s, e)
    requires Replayed(calendar, st, served) == Some(s.st)
    ensures Replayed(calendar, st, served + Ends(calendar, s, e)) == Some(Advance(calendar, s, e).st)
  {
    EndsIsCall(calendar, s, e);
    var ended := Ends(calendar, s, e);
    if ended == [] {
      assert served + ended == served;
    } else {
      ReplayedNext(calendar, st, served, s.st, ended[0]);
      assert ended == [ended[0]];
    }
  }

  /** Main result. If every save finds what its call loaded, and webhooks' provider ids still lead to their
      records, the interleaved calls leave the store as the same calls do one at a time in the order in which
      they end, and every caller is told the same. */
  lemma {:induction false} Serializable(x: Execution, k: nat)
    requires FreshRun(x) && k < |x.states|
    requires (forall m :: FindsLoadedAt(x, m)) && forall m :: StillLeadsAt(x, m)
    ensures Replayed(x.calendar, x.states[0].st, AllServed(x, k)) == Some(x.states[k].st)
  {
    if k > 0 {
      Serializable(x, k - 1);
      IdentityKept(x, k - 1, k - 1);
      assert Happens(x, k - 1) && FindsLoadedAt(x, k - 1) && StillLeadsAt(x, k - 1);
      ServedStep(x.calendar, x.states[0].st, AllServed(x, k - 1), x.states[k - 1], x.events[k - 1]);
    }
  }

  // ---------------------------------------------------------------- what callers can see to

  /** The record carries the provider id, stored or about to be created. */
  predicate Carries(s: State, id: Id, pid: Text) {
    && pid != []
    && ((id in s.st.subs && s.st.subs[id].providerId == pid)
        || exists t :: t in s.pending && s.pending[t].op.Create? && s.pending[t].op.sub.id == id
                       && s.pending[t].op.sub.providerId == pid)
  }

  ghost predicate ProvidersApart(s: State) {
    forall a, b, pid :: Carries(s, a, pid) && Carries(s, b, pid) ==> a == b
  }

  ghost predicate WebhooksLead(s: State) {
    forall t :: t in s.pending ==> StillLeads(s, Commit(t))
  }

  /** The gateway assigns a new subscription an id that no record stored or being created carries. */
  ghost predicate NewProviderAt(x: Execution, k: int) {
    0 <= k < |x.events| && k < |x.states| && x.events[k].Begin? && x.events[k].action.Subscribe?
    && x.events[k].action.gateway.Accepts? ==>
      forall id :: !Carries(x.states[k], id, x.events[k].action.gateway.assignedId)
  }

  /** No step gives a record another provider id. */
  lemma CarriesStep(calendar: Calendar, s: State, e: Event, id: Id, pid: Text)
    requires Consistent(calendar, s) && FreshBegin(s, e) && Carries(Advance(calendar, s, e), id, pid)
    ensures || Carries(s, id, pid)
            || (e.Begin? && e.action.Subscribe? && e.action.gateway.Accepts? && e.action.gateway.assignedId == pid
                && id == e.action.newId)
  {
    if e.Begin? && Prepared(calendar, s.st, e.plans, e.action).Some? {
      PreparedProper(calendar, s.st, e.plans, e.action);
    }
    if e.Commit? && e.t in s.pending {
      assert Proper(s.st, s.pending[e.t]);
    }
  }

  /** The write of another record leaves a webhook's index entry alone. */
  lemma LeadsStep(calendar: Calendar, s: State, t: TaskId, u: TaskId)
    requires Consistent(calendar, s) && ProvidersApart(s) && Exclusive(s) && StillLeads(s, Commit(u))
    requires t in s.pending && u in s.pending && t != u && s.pending[u].action.Webhook?
    ensures StillLeads(Advance(calendar, s, Commit(t)), Commit(u))
  {
    var pid, op := s.pending[u].action.providerSubId, s.pending[t].op;
    assert Proper(s.st, s.pending[t]) && Justified(calendar, s.pending[u]);
    assert HasProvider(s.st.subs, pid, s.st.byProvider[pid]) && Carries(s, s.st.byProvider[pid], pid);
    assert op.sub.providerId == pid ==> Carries(s, op.sub.id, pid);
  }

  lemma {:induction false} LeadRun(x: Execution, k: nat)
    requires AloneRun(x) && ProvidersApart(x.states[0]) && WebhooksLead(x.states[0]) && k < |x.states|
    requires forall m :: NewProviderAt(x, m)
    ensures ProvidersApart(x.states[k]) && WebhooksLead(x.states[k])
  {
    if k > 0 {
      var s, e, s' := x.states[k - 1], x.events[k - 1], x.states[k];
      LeadRun(x, k - 1);
      AloneFindsLoaded(x, k - 1);
      IdentityKept(x, k - 1, k - 1);
      assert Happens(x, k - 1) && FreshAt(x, k - 1) && NewProviderAt(x, k - 1);
      forall a, b, pid | Carries(s', a, pid) && Carries(s', b, pid) ensures a == b {
        CarriesStep(x.calendar, s, e, a, pid);
        CarriesStep(x.calendar, s, e, b, pid);
      }
      forall u | u in s'.pending ensures StillLeads(s', Commit(u)) {
        if e.Begin? && u !in s.pending {
          PreparedProper(x.calendar, s.st, e.plans, e.action);
          PreparedJustified(x.calendar, s.st, e.plans, e.action);
        } else if e.Commit? && e.t in s.pending && s.pending[u].action.Webhook? {
          LeadsStep(x.calendar, s, e.t, u);
        } else {
          assert StillLeads(s, Commit(u));
        }
      }
    }
  }

  /** Main result. One call per record in flight, new ids and new provider ids: that is enough for the
      interleaved calls to be as if they had come one at a time. */
  lemma {:induction false} AloneSerializable(x: Execution, k: nat)
    requires AloneRun(x) && ProvidersApart(x.states[0]) && WebhooksLead(x.states[0]) && k < |x.states|
    requires forall m :: NewProviderAt(x, m)
    ensures Replayed(x.calendar, x.states[0].st, AllServed(x, k)) == Some(x.states[k].st)
  {
    forall m ensures FindsLoadedAt(x, m) && StillLeadsAt(x, m) {
      if 0 <= m < |x.events| {
        AloneFindsLoaded(x, m);
        LeadRun(x, m);
      }
    }
    Serializable(x, k);
  }

  /** A store holding one record outside the gateway. */
  function Single(sub: Subscription): StoreState {
    StoreState(map[sub.id := sub], map[], if IsActive(sub) then map[sub.subscriberId := sub.id] else map[])
  }

  /** Without it marks can be lost: a pause that loaded the record before a cancellation saved it writes back
      a copy without the cancellation. */
  lemma PauseUndoesCancel(calendar: Calendar, sub: Subscription) returns (x: Execution)
    requires sub.canceledAt.None? && sub.providerId == []
    ensures IsRun(x) && x.calendar == calendar && x.states[0] == State(Single(sub), map[])
    ensures x.events == [Begin(0, map[], Pause(sub.id, Unset, 0)), Begin(1, map[], Cancel(sub.id, true, Unset, 0)),
                         Commit(1), Commit(0)]
    ensures Get(x.states[3].st.subs, sub.id) == Some(sub.(status := Canceled, canceledAt := Some(0), updatedAt := 0))
    ensures Get(x.states[4].st.subs, sub.id) == Some(sub.(status := Paused, pausedAt := Some(0), updatedAt := 0))
  {
    var pause, cancel := Begin(0, map[], Pause(sub.id, Unset, 0)), Begin(1, map[], Cancel(sub.id, true, Unset, 0));
    var s0 := State(Single(sub), map[]);
    var s1 := Advance(calendar, s0, pause);
    var s2 := Advance(calendar, s1, cancel);
    var s3 := Advance(calendar, s2, Commit(1));
    var s4 := Advance(calendar, s3, Commit(0));
    x := Execution(calendar, [pause, cancel, Commit(1), Commit(0)], [s0, s1, s2, s3, s4]);
    assert 0 in s2.pending && 1 in s2.pending;
  }
}
