/** The life of a subscription as one state machine over the store: the manager's calls
    (subscriber.go) and the provider's webhook events (webhook.go). */
module Lifecycle {
  import opened Types
  import opened SubscriptionIndex

  const SECOND: int := 1_000_000_000
  const DAY: int := 86_400 * SECOND

  /** Calendar arithmetic of the time library: an instant plus a number of months. */
  type Calendar = (Time, int) -> Time

  datatype EventKind =
    | Created | Updated | SubCanceled | SubPaused | SubResumed | SubRenewed
    | PaymentSucceeded | PaymentFailed | TrialEnding | TrialEnded | Unknown(name: Text)

  /** A number as a decoded payload carries it. */
  datatype Datum = Int64(n: int) | Float64(x: real) | NotANumber

  /** The two payload entries the engine reads. */
  datatype EventData = EventData(periodStart: Option<Datum>, periodEnd: Option<Datum>)

  datatype Action =
    | Subscribe(subscriberId: Text, planId: Id, metadata: map<Text, Text>, newId: Id, gateway: Gateway, now: Time)
    | Cancel(id: Id, immediately: bool, gateway: Gateway, now: Time)
    | Pause(id: Id, gateway: Gateway, now: Time)
    | Resume(id: Id, gateway: Gateway, now: Time)
    | ChangePlan(id: Id, newPlanId: Id, gateway: Gateway, now: Time)
    | Webhook(providerSubId: Text, kind: EventKind, data: EventData, now: Time)

  datatype Outcome =
    | Ok(sub: Subscription)
    | PlanNotFound | SubscriptionNotFound | AlreadySubscribed | ProviderFailed
    | Ignored
    | Crashed

  // ---------------------------------------------------------------- edits of one record

  function Truncate(x: real): int {
    if x >= 0.0 then x.Floor else -((-x).Floor)
  }

  function TimeFromData(d: Option<Datum>): Option<Time> {
    match d
    case Some(Int64(n)) => Some(n * SECOND)
    case Some(Float64(x)) => Some(Truncate(x) * SECOND)
    case _ => None
  }

  /** The record after a webhook event, or none when nothing is to be saved. */
  function ApplyEvent(sub: Subscription, kind: EventKind, data: EventData, now: Time): Option<Subscription> {
    match kind
    case SubCanceled => Some(sub.(status := Canceled, canceledAt := Some(now)))
    case SubPaused => Some(sub.(status := Paused, pausedAt := Some(now)))
    case SubResumed => Some(sub.(status := Active, pausedAt := None))
    case SubRenewed =>
      var start, end := TimeFromData(data.periodStart), TimeFromData(data.periodEnd);
      Some(sub.(status := Active,
                periodStart := if start.Some? then start.value else sub.periodStart,
                periodEnd := if end.Some? then end.value else sub.periodEnd))
    case PaymentFailed => Some(sub.(status := PastDue))
    case PaymentSucceeded =>
      if sub.status in {PastDue, Trialing} then Some(sub.(status := Active)) else None
    case TrialEnded =>
      if sub.status.Trialing? then Some(sub.(status := Active)) else None
    case _ => None
  }

  function PeriodEnd(calendar: Calendar, start: Time, plan: Plan): Time {
    var n := if plan.intervalCount == 0 then 1 else plan.intervalCount;
    match plan.interval
    case Day => start + n * DAY
    case Week => start + n * 7 * DAY
    case Month => calendar(start, n)
    case Year => calendar(start, 12 * n)
    case OtherInterval(_) => calendar(start, 1)
  }

  function NewSubscription(calendar: Calendar, plan: Plan, a: Action): Subscription
    requires a.Subscribe?
  {
    var trial := plan.trialDays > 0;
    Subscription(
      a.newId, if a.gateway.Accepts? then a.gateway.assignedId else [], a.subscriberId, a.planId,
      if trial then Trialing else Active,
      a.now, PeriodEnd(calendar, a.now, plan),
      if trial then Some(a.now) else None,
      if trial then Some(a.now + plan.trialDays * DAY) else None,
      None, None, a.metadata, a.now, a.now)
  }

  /** The record a manager call saves in place of `sub`. */
  function Edited(sub: Subscription, a: Action): Subscription
    requires !a.Subscribe? && !a.Webhook?
  {
    match a
    case Cancel(_, immediately, _, now) =>
      sub.(canceledAt := Some(now), updatedAt := now, status := if immediately then Canceled else sub.status)
    case Pause(_, _, now) => sub.(status := Paused, pausedAt := Some(now), updatedAt := now)
    case Resume(_, _, now) => sub.(status := Active, pausedAt := None, updatedAt := now)
    case ChangePlan(_, newPlanId, _, now) => sub.(planId := newPlanId, updatedAt := now)
  }

  // ---------------------------------------------------------------- one action

  /** What an action writes, if it gets that far; its outcome otherwise. */
  datatype Effect = Writes(op: Op, sub: Subscription) | Stops(outcome: Outcome)

  function EffectOf(calendar: Calendar, st: StoreState, plans: map<Id, Plan>, a: Action): Effect {
    match a
    case Subscribe(_, planId, _, _, gateway, _) =>
      if planId !in plans then Stops(PlanNotFound)
      else if gateway.Refuses? then Stops(ProviderFailed)
      else
        var sub := NewSubscription(calendar, plans[planId], a);
        if ReplyTo(st, Create(sub)) == AlreadyExists then Stops(AlreadySubscribed) else Writes(Create(sub), sub)
    case Webhook(pid, kind, data, now) =>
      if pid == [] then Stops(Ignored)
      else
        (match ByProvider(st, pid)
         case Missing => Stops(Ignored)
         case Panic => Stops(Crashed)
         case Found(sub) =>
           var edited := ApplyEvent(sub, kind, data, now);
           if edited.None? then Stops(Ok(sub))
           else Writes(Save(edited.value.(updatedAt := now)), edited.value.(updatedAt := now)))
    case _ =>
      if a.id !in st.subs then Stops(SubscriptionNotFound)
      else if a.ChangePlan? && a.newPlanId !in plans then Stops(PlanNotFound)
      else if a.gateway.Refuses? && st.subs[a.id].providerId != [] then Stops(ProviderFailed)
      else Writes(Save(Edited(st.subs[a.id], a)), Edited(st.subs[a.id], a))
  }

  function Step(calendar: Calendar, st: StoreState, plans: map<Id, Plan>, a: Action): StoreState {
    match EffectOf(calendar, st, plans, a)
    case Writes(op, _) => Next(st, op)
    case Stops(_) => st
  }

  function OutcomeOf(calendar: Calendar, st: StoreState, plans: map<Id, Plan>, a: Action): Outcome {
    match EffectOf(calendar, st, plans, a)
    case Writes(_, sub) => Ok(sub)
    case Stops(outcome) => outcome
  }

  /** Actions one after the other; plans may change in between. */
  datatype Timed = Timed(plans: map<Id, Plan>, action: Action)

  function Trace(calendar: Calendar, st: StoreState, run: seq<Timed>): StoreState {
    if run == [] then st
    else
      var last := run[|run| - 1];
      Step(calendar, Trace(calendar, st, run[..|run| - 1]), last.plans, last.action)
  }

  /** New subscriptions get ids the store has not seen. */
  predicate Fresh(st: StoreState, a: Action) {
    a.Subscribe? ==> a.newId !in st.subs
  }

  predicate FreshRun(calendar: Calendar, st: StoreState, run: seq<Timed>) {
    run == [] ||
      (&& FreshRun(calendar, st, run[..|run| - 1])
       && Fresh(Trace(calendar, st, run[..|run| - 1]), run[|run| - 1].action))
  }

  // ---------------------------------------------------------------- records over time

  /** What never changes between two versions of one record. */
  predicate SameIdentity(a: Subscription, b: Subscription) {
    && b.id == a.id && b.providerId == a.providerId && b.subscriberId == a.subscriberId
    && b.trialStart == a.trialStart && b.trialEnd == a.trialEnd
    && b.metadata == a.metadata && b.createdAt == a.createdAt
  }

  /** And what only moves one way. */
  predicate Evolves(a: Subscription, b: Subscription) {
    && SameIdentity(a, b)
    && (a.canceledAt.Some? ==> b.canceledAt.Some?)
    && (b.status.Trialing? ==> a.status.Trialing?)
  }

  /** A record is marked the way its status says, and has a status the engine writes. */
  predicate Staged(sub: Subscription) {
    && sub.status in {Trialing, Active, Paused, PastDue, Canceled}
    && (sub.status.Paused? ==> sub.pausedAt.Some?)
    && (sub.status.Canceled? ==> sub.canceledAt.Some?)
    && (sub.status.Trialing? ==> sub.trialStart.Some? && sub.trialEnd.Some?)
  }

  ghost predicate AllStaged(st: StoreState) {
    forall id :: id in st.subs ==> Staged(st.subs[id])
  }

  ghost predicate AllEvolve(st: StoreState, st': StoreState) {
    forall id :: id in st.subs ==> id in st'.subs && Evolves(st.subs[id], st'.subs[id])
  }

  lemma EventEvolves(sub: Subscription, kind: EventKind, data: EventData, now: Time)
    requires Staged(sub)
    ensures var e := ApplyEvent(sub, kind, data, now); e.Some? ==> Staged(e.value) && Evolves(sub, e.value)
  {
  }

  lemma EditEvolves(sub: Subscription, a: Action)
    requires Staged(sub) && !a.Subscribe? && !a.Webhook?
    ensures Staged(Edited(sub, a)) && Evolves(sub, Edited(sub, a))
  {
  }

  /** An action that writes an existing record writes a later version of it. */
  lemma WritesEvolve(calendar: Calendar, st: StoreState, plans: map<Id, Plan>, a: Action)
    requires Sound(st) && AllStaged(st) && Fresh(st, a)
    ensures var e := EffectOf(calendar, st, plans, a);
            e.Writes? ==>
              && !e.op.Delete? && e.op.sub == e.sub && Staged(e.sub)
              && (e.op.Create? ==> e.sub.id !in st.subs)
              && (e.op.Save? ==> e.sub.id in st.subs && Evolves(st.subs[e.sub.id], e.sub))
  {
    if a.Webhook? {
      SoundLookups(st, a.providerSubId);
      var r := ByProvider(st, a.providerSubId);
      if r.Found? {
        EventEvolves(r.sub, a.kind, a.data, a.now);
      }
    } else if a.Subscribe? {
      if a.planId in plans {
      }
    } else if a.id in st.subs {
      EditEvolves(st.subs[a.id], a);
    }
  }

  lemma WriteKeeps(st: StoreState, op: Op)
    requires Sound(st) && AllStaged(st) && !op.Delete? && Staged(op.sub)
    requires op.Create? ==> op.sub.id !in st.subs
    requires op.Save? ==> op.sub.id in st.subs && Evolves(st.subs[op.sub.id], op.sub)
    ensures Sound(Next(st, op)) && AllStaged(Next(st, op)) && AllEvolve(st, Next(st, op))
  {
    SoundStep(st, op);
  }

  lemma {:induction false} StepKeeps(calendar: Calendar, st: StoreState, plans: map<Id, Plan>, a: Action)
    requires Sound(st) && AllStaged(st) && Fresh(st, a)
    ensures var st' := Step(calendar, st, plans, a);
            Sound(st') && AllStaged(st') && AllEvolve(st, st')
  {
    WritesEvolve(calendar, st, plans, a);
    var e := EffectOf(calendar, st, plans, a);
    if e.Writes? {
      WriteKeeps(st, e.op);
    }
  }

  /** Main result, state by state: in every run with fresh ids index entries stay sound and every
      record is marked as its status says. */
  lemma {:induction false} RunKeeps(calendar: Calendar, st: StoreState, run: seq<Timed>)
    requires Sound(st) && AllStaged(st) && FreshRun(calendar, st, run)
    ensures Sound(Trace(calendar, st, run)) && AllStaged(Trace(calendar, st, run))
  {
    if run != [] {
      var before, last := run[..|run| - 1], run[|run| - 1];
      RunKeeps(calendar, st, before);
      StepKeeps(calendar, Trace(calendar, st, before), last.plans, last.action);
    }
  }

  lemma EvolveTransitive(a: StoreState, b: StoreState, c: StoreState)
    requires AllEvolve(a, b) && AllEvolve(b, c)
    ensures AllEvolve(a, c)
  {
  }

  /** Main result, over time: each record stored at some point of such a run is there ever after, with
      the same identity, subscriber, provider id and trial, its cancellation mark never cleared and its
      trial never re-entered. */
  lemma {:induction false} RunEvolves(calendar: Calendar, st: StoreState, run: seq<Timed>, more: seq<Timed>)
    requires Sound(st) && AllStaged(st) && FreshRun(calendar, st, run + more)
    ensures AllEvolve(Trace(calendar, st, run), Trace(calendar, st, run + more))
  {
    if more == [] {
      assert run + more == run;
    } else {
      var before, last := more[..|more| - 1], more[|more| - 1];
      assert (run + more)[..|run + more| - 1] == run + before;
      RunEvolves(calendar, st, run, before);
      RunKeeps(calendar, st, run + before);
      StepKeeps(calendar, Trace(calendar, st, run + before), last.plans, last.action);
      EvolveTransitive(Trace(calendar, st, run), Trace(calendar, st, run + before), Trace(calendar, st, run + more));
    }
  }

  // ---------------------------------------------------------------- what an action leaves alone

  /** The action names the record, by its id or by the provider's. */
  predicate About(a: Action, sub: Subscription) {
    match a
    case Subscribe(_, _, _, _, _, _) => false
    case Webhook(pid, _, _, _) => pid != [] && pid == sub.providerId
    case _ => a.id == sub.id
  }

  predicate IsRenewal(a: Action) {
    a.Webhook? && a.kind.SubRenewed?
  }

  /** A record changes only by actions about it, its plan only by a plan change, its period only by a
      renewal. */
  predicate KeptBy(a: Action, was: Subscription, after: Subscription) {
    && (!About(a, was) ==> after == was)
    && (!(a.ChangePlan? && About(a, was)) ==> after.planId == was.planId)
    && (!(IsRenewal(a) && About(a, was)) ==> after.periodStart == was.periodStart && after.periodEnd == was.periodEnd)
  }

  /** What is saved over a stored record is about it. */
  lemma SavesAbout(calendar: Calendar, st: StoreState, plans: map<Id, Plan>, a: Action)
    requires Sound(st) && EffectOf(calendar, st, plans, a).Writes? && EffectOf(calendar, st, plans, a).op.Save?
    ensures var sub := EffectOf(calendar, st, plans, a).sub;
            sub.id in st.subs && KeptBy(a, st.subs[sub.id], sub)
  {
    if a.Webhook? {
      SoundLookups(st, a.providerSubId);
    }
  }

  lemma StepFrame(calendar: Calendar, st: StoreState, plans: map<Id, Plan>, a: Action, id: Id)
    requires Sound(st) && AllStaged(st) && Fresh(st, a) && id in st.subs
    ensures var st' := Step(calendar, st, plans, a);
            id in st'.subs && KeptBy(a, st.subs[id], st'.subs[id])
  {
    var e := EffectOf(calendar, st, plans, a);
    if e.Writes? {
      WritesEvolve(calendar, st, plans, a);
      if e.op.Save? {
        SavesAbout(calendar, st, plans, a);
      }
    }
  }

  predicate NoneAbout(run: seq<Timed>, sub: Subscription) {
    forall k :: 0 <= k < |run| ==> !About(run[k].action, sub)
  }

  predicate NoPlanChange(run: seq<Timed>, sub: Subscription) {
    forall k :: 0 <= k < |run| ==> !(run[k].action.ChangePlan? && About(run[k].action, sub))
  }

  predicate NoRenewal(run: seq<Timed>, sub: Subscription) {
    forall k :: 0 <= k < |run| ==> !(IsRenewal(run[k].action) && About(run[k].action, sub))
  }

  lemma {:induction false} KeptThrough(calendar: Calendar, st: StoreState, run: seq<Timed>, id: Id)
    requires Sound(st) && AllStaged(st) && FreshRun(calendar, st, run) && id in st.subs
    ensures var was, st' := st.subs[id], Trace(calendar, st, run);
            && id in st'.subs && Evolves(was, st'.subs[id])
            && (NoneAbout(run, was) ==> st'.subs[id] == was)
            && (NoPlanChange(run, was) ==> st'.subs[id].planId == was.planId)
            && (NoRenewal(run, was) ==>
                  st'.subs[id].periodStart == was.periodStart && st'.subs[id].periodEnd == was.periodEnd)
  {
    if run != [] {
      var before, last := run[..|run| - 1], run[|run| - 1];
      var mid := Trace(calendar, st, before);
      KeptThrough(calendar, st, before, id);
      RunKeeps(calendar, st, before);
      StepFrame(calendar, mid, last.plans, last.action, id);
      StepKeeps(calendar, mid, last.plans, last.action);
      assert About(last.action, mid.subs[id]) == About(last.action, st.subs[id]);
    }
  }

  /** So whatever the active lookup returns after such a run is active, belongs to the subscriber
      asked for and is never a dangling entry. */
  lemma ActiveLookup(calendar: Calendar, run: seq<Timed>, subscriber: Text)
    requires FreshRun(calendar, EMPTY, run)
    ensures var r := ActiveOf(Trace(calendar, EMPTY, run), subscriber);
            !r.Panic? && (r.Found? ==> IsActive(r.sub) && r.sub.subscriberId == subscriber)
  {
    RunKeeps(calendar, EMPTY, run);
    SoundLookups(Trace(calendar, EMPTY, run), subscriber);
  }

  // ---------------------------------------------------------------- one active subscription each

  /** The calls and events that make an inactive record active again. */
  predicate Reactivates(a: Action, was: Subscription) {
    && !IsActive(was)
    && match a
       case Resume(_, _, _) => true
       case Webhook(_, kind, _, _) =>
         kind in {SubResumed, SubRenewed} || (kind == PaymentSucceeded && was.status == PastDue)
       case _ => false
  }

  /** A guard checkable beforehand: no record becomes active again while its subscriber has another
      active one. */
  predicate NoSecondActive(calendar: Calendar, st: StoreState, plans: map<Id, Plan>, a: Action) {
    match EffectOf(calendar, st, plans, a)
    case Stops(_) => true
    case Writes(op, sub) =>
      op.Save? && sub.id in st.subs && Reactivates(a, st.subs[sub.id]) ==> sub.subscriberId !in st.activeBy
  }

  /** A new subscription's provider id is unused. */
  predicate NewProviderId(calendar: Calendar, st: StoreState, plans: map<Id, Plan>, a: Action) {
    match EffectOf(calendar, st, plans, a)
    case Stops(_) => true
    case Writes(op, sub) => op.Create? ==> sub.providerId !in st.byProvider
  }

  predicate OneActive(calendar: Calendar, st: StoreState, plans: map<Id, Plan>, a: Action) {
    NoSecondActive(calendar, st, plans, a) && NewProviderId(calendar, st, plans, a)
  }

  /** An inactive record is saved active by exactly these. */
  lemma {:induction false} SavedActive(calendar: Calendar, st: StoreState, plans: map<Id, Plan>, a: Action)
    requires Sound(st) && AllStaged(st) && Fresh(st, a)
    requires EffectOf(calendar, st, plans, a).Writes? && EffectOf(calendar, st, plans, a).op.Save?
    ensures var sub := EffectOf(calendar, st, plans, a).sub;
            && sub.id in st.subs && Evolves(st.subs[sub.id], sub)
            && (!IsActive(st.subs[sub.id]) ==> (IsActive(sub) <==> Reactivates(a, st.subs[sub.id])))
  {
    WritesEvolve(calendar, st, plans, a);
    if a.Webhook? {
      SoundLookups(st, a.providerSubId);
    } else {
    }
  }

  /** Saving a later version of a stored record keeps the active index exact unless it re-activates the
      record beside another active one. */
  lemma SaveActive(st: StoreState, sub: Subscription)
    requires Sound(st) && ActiveExact(st) && sub.id in st.subs && Evolves(st.subs[sub.id], sub)
    ensures ActiveExact(Next(st, Save(sub))) <==>
              (!IsActive(st.subs[sub.id]) && IsActive(sub) ==> sub.subscriberId !in st.activeBy)
  {
    var st', was, x := Next(st, Save(sub)), st.subs[sub.id], sub.subscriberId;
    if !IsActive(was) && IsActive(sub) && x in st.activeBy {
      var other := st.activeBy[x];
      assert Get(st.activeBy, x) == Some(other);
      assert HasActive(st'.subs, x, other) && Get(st'.activeBy, x) == Some(sub.id);
    } else {
      forall k, id ensures Get(st'.activeBy, k) == Some(id) <==> HasActive(st'.subs, k, id) {
        assert Get(st.activeBy, k) == Some(id) <==> HasActive(st.subs, k, id);
        assert Get(st.activeBy, k) == Some(sub.id) <==> HasActive(st.subs, k, sub.id);
      }
    }
  }

  /** An accepted create of a new id always keeps it exact. */
  lemma CreateActive(st: StoreState, sub: Subscription)
    requires ActiveExact(st) && sub.id !in st.subs
    ensures ActiveExact(Next(st, Create(sub)))
  {
    var st' := Next(st, Create(sub));
    forall k, id ensures Get(st'.activeBy, k) == Some(id) <==> HasActive(st'.subs, k, id) {
      assert Get(st.activeBy, k) == Some(id) <==> HasActive(st.subs, k, id);
      assert Get(st.activeBy, k) == Some(sub.id) <==> HasActive(st.subs, k, sub.id);
    }
  }

  /** Whatever the provider index looks like. */
  lemma {:induction false} StepActiveExact(calendar: Calendar, st: StoreState, plans: map<Id, Plan>, a: Action)
    requires Sound(st) && ActiveExact(st) && AllStaged(st) && Fresh(st, a)
    ensures ActiveExact(Step(calendar, st, plans, a)) <==> NoSecondActive(calendar, st, plans, a)
  {
    WritesEvolve(calendar, st, plans, a);
    var e := EffectOf(calendar, st, plans, a);
    if e.Writes? {
      if e.op.Save? {
        SavedActive(calendar, st, plans, a);
        SaveActive(st, e.sub);
      } else {
        CreateActive(st, e.sub);
      }
    }
  }

  /** For a later version of a stored record the store's guard is about re-activation alone. */
  lemma SaveGuard(st: StoreState, sub: Subscription)
    requires Exact(st) && sub.id in st.subs && Evolves(st.subs[sub.id], sub)
    ensures KeepsExact(st, Save(sub)) <==>
              (!IsActive(st.subs[sub.id]) && IsActive(sub) ==> sub.subscriberId !in st.activeBy)
  {
    var was := st.subs[sub.id];
    ExactIsSoundAndComplete(st);
    assert was.providerId != [] ==> HasProvider(st.subs, was.providerId, sub.id);
    assert IsActive(was) ==> HasActive(st.subs, was.subscriberId, sub.id);
    if !IsActive(was) && was.subscriberId in st.activeBy {
      assert HasActive(st.subs, was.subscriberId, st.activeBy[was.subscriberId]);
    }
  }

  /** Together: the guard of an action is the store's guard for what it writes. */
  lemma {:induction false} ActionGuard(calendar: Calendar, st: StoreState, plans: map<Id, Plan>, a: Action)
    requires Exact(st) && Sound(st) && AllStaged(st) && Fresh(st, a) && EffectOf(calendar, st, plans, a).Writes?
    ensures KeepsExact(st, EffectOf(calendar, st, plans, a).op) <==> OneActive(calendar, st, plans, a)
  {
    WritesEvolve(calendar, st, plans, a);
    var e := EffectOf(calendar, st, plans, a);
    if e.op.Save? {
      SavedActive(calendar, st, plans, a);
      SaveGuard(st, e.sub);
    } else {
    }
  }

  lemma {:induction false} StepExact(calendar: Calendar, st: StoreState, plans: map<Id, Plan>, a: Action)
    requires Exact(st) && AllStaged(st) && Fresh(st, a)
    ensures Exact(Step(calendar, st, plans, a)) <==> OneActive(calendar, st, plans, a)
  {
    if EffectOf(calendar, st, plans, a).Writes? {
      ExactIsSoundAndComplete(st);
      ActionGuard(calendar, st, plans, a);
      ExactStep(st, EffectOf(calendar, st, plans, a).op);
    }
  }

  predicate NoSecondActiveRun(calendar: Calendar, st: StoreState, run: seq<Timed>) {
    run == [] ||
      var before, last := run[..|run| - 1], run[|run| - 1];
      && NoSecondActiveRun(calendar, st, before)
      && NoSecondActive(calendar, Trace(calendar, st, before), last.plans, last.action)
  }

  predicate OneActiveRun(calendar: Calendar, st: StoreState, run: seq<Timed>) {
    run == [] ||
      var before, last := run[..|run| - 1], run[|run| - 1];
      OneActiveRun(calendar, st, before) && OneActive(calendar, Trace(calendar, st, before), last.plans, last.action)
  }

  ghost predicate ActiveExactThroughout(calendar: Calendar, st: StoreState, run: seq<Timed>) {
    && ActiveExact(Trace(calendar, st, run))
    && (run == [] || ActiveExactThroughout(calendar, st, run[..|run| - 1]))
  }

  ghost predicate ExactThroughout(calendar: Calendar, st: StoreState, run: seq<Timed>) {
    Exact(Trace(calendar, st, run)) && (run == [] || ExactThroughout(calendar, st, run[..|run| - 1]))
  }

  /** Main result. Over every run with fresh ids, whoever uses which provider id: the active index is exact
      throughout exactly when no action re-activates a record beside another active one. */
  lemma {:induction false} RunActiveExactly(calendar: Calendar, st: StoreState, run: seq<Timed>)
    requires Sound(st) && ActiveExact(st) && AllStaged(st) && FreshRun(calendar, st, run)
    ensures ActiveExactThroughout(calendar, st, run) <==> NoSecondActiveRun(calendar, st, run)
  {
    if run != [] {
      var before := run[..|run| - 1];
      RunActiveExactly(calendar, st, before);
      if ActiveExactThroughout(calendar, st, before) {
        RunKeeps(calendar, st, before);
        StepActiveExact(calendar, Trace(calendar, st, before), run[|run| - 1].plans, run[|run| - 1].action);
      }
    }
  }

  /** Over every run with fresh ids: both index equivalences hold throughout exactly when no action
      re-activates a record beside another active one or reuses a provider id. */
  lemma {:induction false} RunExactly(calendar: Calendar, st: StoreState, run: seq<Timed>)
    requires Exact(st) && AllStaged(st) && FreshRun(calendar, st, run)
    ensures ExactThroughout(calendar, st, run) <==> OneActiveRun(calendar, st, run)
  {
    if run != [] {
      var before := run[..|run| - 1];
      RunExactly(calendar, st, before);
      if ExactThroughout(calendar, st, before) {
        ExactIsSoundAndComplete(st);
        RunKeeps(calendar, st, before);
        StepExact(calendar, Trace(calendar, st, before), run[|run| - 1].plans, run[|run| - 1].action);
      }
    }
  }

  ghost predicate HasActiveRecord(st: StoreState, subscriber: Text) {
    exists id :: HasActive(st.subs, subscriber, id)
  }

  /** Main result. After such a run, whatever provider ids the gateway gave out, a new subscription (plan
      known, gateway willing) is refused as a duplicate exactly when the subscriber has an active or
      trialing record. */
  lemma {:induction false} DuplicateExactly(calendar: Calendar, run: seq<Timed>, plans: map<Id, Plan>, a: Action)
    requires FreshRun(calendar, EMPTY, run) && NoSecondActiveRun(calendar, EMPTY, run)
    requires a.Subscribe? && a.planId in plans && !a.gateway.Refuses?
    ensures var st := Trace(calendar, EMPTY, run);
            OutcomeOf(calendar, st, plans, a) == AlreadySubscribed <==> HasActiveRecord(st, a.subscriberId)
  {
    RunActiveExactly(calendar, EMPTY, run);
    var st := Trace(calendar, EMPTY, run);
    if a.subscriberId in st.activeBy {
      assert Get(st.activeBy, a.subscriberId) == Some(st.activeBy[a.subscriberId]);
      assert HasActive(st.subs, a.subscriberId, st.activeBy[a.subscriberId]);
    }
    if id :| HasActive(st.subs, a.subscriberId, id) {
      assert Get(st.activeBy, a.subscriberId) == Some(id);
    }
  }

  lemma Then(calendar: Calendar, run: seq<Timed>, next: Timed)
    ensures Trace(calendar, EMPTY, run + [next]) == Step(calendar, Trace(calendar, EMPTY, run), next.plans, next.action)
    ensures FreshRun(calendar, EMPTY, run + [next])
       <==> FreshRun(calendar, EMPTY, run) && Fresh(Trace(calendar, EMPTY, run), next.action)
  {
    assert (run + [next])[..|run|] == run;
  }

  /** Subscriber `who` joins a plan without trial, no gateway configured. */
  function Joins(plan: Plan, who: Text, id: Id): Timed {
    Timed(map[plan.id := plan], Subscribe(who, plan.id, map[], id, Unset, 0))
  }

  lemma JoinsFirst(calendar: Calendar, run: seq<Timed>, plan: Plan, who: Text, id: Id) returns (run': seq<Timed>)
    requires FreshRun(calendar, EMPTY, run) && plan.trialDays <= 0
    requires var st := Trace(calendar, EMPTY, run); id !in st.subs && who !in st.activeBy
    ensures run' == run + [Joins(plan, who, id)] && FreshRun(calendar, EMPTY, run')
    ensures var st, st' := Trace(calendar, EMPTY, run), Trace(calendar, EMPTY, run');
            && st'.activeBy == st.activeBy[who := id] && st'.subs.Keys == st.subs.Keys + {id}
            && HasActive(st'.subs, who, id) && st'.subs[id].providerId == [] && st'.subs[id].id == id
            && (forall k :: k in st.subs ==> st'.subs[k] == st.subs[k])
  {
    Then(calendar, run, Joins(plan, who, id));
    run' := run + [Joins(plan, who, id)];
  }

  /** A manager call on a record outside the gateway that ends in `status`. */
  lemma Moves(calendar: Calendar, run: seq<Timed>, a: Action, who: Text) returns (run': seq<Timed>)
    requires FreshRun(calendar, EMPTY, run) && (a.Cancel? || a.Pause? || a.Resume?) && a.gateway.Unset?
    requires var st := Trace(calendar, EMPTY, run);
             a.id in st.subs && st.subs[a.id].id == a.id && st.subs[a.id].subscriberId == who
                 && st.subs[a.id].providerId == []
    ensures run' == run + [Timed(map[], a)] && FreshRun(calendar, EMPTY, run')
    ensures var st, st' := Trace(calendar, EMPTY, run), Trace(calendar, EMPTY, run');
            && st'.subs == st.subs[a.id := Edited(st.subs[a.id], a)]
            && st'.activeBy == ActiveAfter(st.activeBy, Save(Edited(st.subs[a.id], a)), Some(st.subs[a.id]))
  {
    Then(calendar, run, Timed(map[], a));
    run' := run + [Timed(map[], a)];
  }

  /** Subscribe, pause, subscribe again: the first is paused, the second active. */
  lemma PauseThenJoin(calendar: Calendar, plan: Plan, who: Text, a: Id, b: Id) returns (run: seq<Timed>)
    requires a != b && a != [] && plan.trialDays <= 0
    ensures run == [Joins(plan, who, a), Timed(map[], Pause(a, Unset, 0)), Joins(plan, who, b)]
    ensures FreshRun(calendar, EMPTY, run)
    ensures var st := Trace(calendar, EMPTY, run);
            && st.subs.Keys == {a, b} && HasActive(st.subs, who, b)
            && st.subs[a].id == a && st.subs[a].subscriberId == who && st.subs[a].providerId == []
            && st.subs[a].status == Paused
            && st.activeBy == map[who := b]
  {
    run := JoinsFirst(calendar, [], plan, who, a);
    var st := Trace(calendar, EMPTY, run);
    assert st.subs[a].id == a && st.activeBy == map[who := a];
    run := Moves(calendar, run, Pause(a, Unset, 0), who);
    assert Trace(calendar, EMPTY, run).activeBy == map[];
    run := JoinsFirst(calendar, run, plan, who, b);
  }

  /** The guard matters: resume the first and cancel it. The second subscription is still active, and
      yet a third is accepted, leaving two active ones. */
  lemma ResumeAllowsTwo(calendar: Calendar, plan: Plan, who: Text, a: Id, b: Id, c: Id) returns (run: seq<Timed>)
    requires a != b && b != c && a != c && a != [] && plan.trialDays <= 0
    ensures run == [Joins(plan, who, a), Timed(map[], Pause(a, Unset, 0)), Joins(plan, who, b),
                    Timed(map[], Resume(a, Unset, 0)), Timed(map[], Cancel(a, true, Unset, 0)), Joins(plan, who, c)]
    ensures FreshRun(calendar, EMPTY, run)
    ensures var st := Trace(calendar, EMPTY, run); HasActive(st.subs, who, b) && HasActive(st.subs, who, c)
  {
    run := PauseThenJoin(calendar, plan, who, a, b);
    run := Moves(calendar, run, Resume(a, Unset, 0), who);
    assert Trace(calendar, EMPTY, run).activeBy == map[who := a];
    run := Moves(calendar, run, Cancel(a, true, Unset, 0), who);
    assert Trace(calendar, EMPTY, run).activeBy == map[];
    run := JoinsFirst(calendar, run, plan, who, c);
  }
}
