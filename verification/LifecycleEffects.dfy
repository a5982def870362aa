/** What each manager call and each webhook event leaves in the store, field by field: told by the record before
    and the record after, with the times and amounts spelled out (subscriber.go, webhook.go). */
module LifecycleEffects {
  import opened Types
  import opened SubscriptionIndex
  import opened Lifecycle

  // ---------------------------------------------------------------- webhook events

  /** A payload number is a number of seconds, its fraction dropped towards zero; anything else leaves the
      boundary as it was. */
  predicate ReadsSeconds(d: Option<Datum>, was: Time, after: Time) {
    match d
    case Some(Int64(n)) => after == n * 1_000_000_000
    case Some(Float64(x)) =>
      && after % 1_000_000_000 == 0
      && var n := (after / 1_000_000_000) as real;
         if x >= 0.0 then n <= x < n + 1.0 else n - 1.0 < x <= n
    case _ => after == was
  }

  /** No event touches more than its own fields. */
  predicate EventTouches(was: Subscription, kind: EventKind, after: Subscription) {
    && SameIdentity(was, after) && after.planId == was.planId
    && (!kind.SubCanceled? ==> after.canceledAt == was.canceledAt)
    && (!kind.SubPaused? && !kind.SubResumed? ==> after.pausedAt == was.pausedAt)
    && (!kind.SubRenewed? ==> after.periodStart == was.periodStart && after.periodEnd == was.periodEnd)
  }

  /** The statuses a payment or the end of a trial moves to active. */
  predicate Awaits(kind: EventKind, status: Status) {
    (kind.PaymentSucceeded? && status in {PastDue, Trialing}) || (kind.TrialEnded? && status == Trialing)
  }

  predicate Saves(kind: EventKind, status: Status) {
    || kind.SubCanceled? || kind.SubPaused? || kind.SubResumed? || kind.SubRenewed? || kind.PaymentFailed?
    || Awaits(kind, status)
  }

  predicate EventLeaves(was: Subscription, kind: EventKind, data: EventData, now: Time, after: Subscription) {
    && EventTouches(was, kind, after)
    && (kind.SubCanceled? ==> after.status == Canceled && after.canceledAt == Some(now))
    && (kind.SubPaused? ==> after.status == Paused && after.pausedAt == Some(now))
    && (kind.SubResumed? ==> after.status == Active && after.pausedAt == None)
    && (kind.SubRenewed? ==>
         && after.status == Active
         && ReadsSeconds(data.periodStart, was.periodStart, after.periodStart)
         && ReadsSeconds(data.periodEnd, was.periodEnd, after.periodEnd))
    && (kind.PaymentFailed? ==> after.status == PastDue)
    && (Awaits(kind, was.status) ==> after.status == Active)
    && (Saves(kind, was.status) ==> after.updatedAt == now)
    && (!Saves(kind, was.status) ==> after == was)
  }

  lemma TruncatedTowardsZero(x: real)
    ensures var n := Truncate(x) as real; if x >= 0.0 then n <= x < n + 1.0 else n - 1.0 < x <= n
  {
  }

  lemma SecondsRead(d: Option<Datum>, was: Time)
    ensures ReadsSeconds(d, was, if TimeFromData(d).Some? then TimeFromData(d).value else was)
  {
    if d.Some? && d.value.Float64? {
      TruncatedTowardsZero(d.value.x);
    }
  }

  lemma EventApplied(sub: Subscription, kind: EventKind, data: EventData, now: Time)
    ensures var e := ApplyEvent(sub, kind, data, now);
            EventLeaves(sub, kind, data, now, if e.Some? then e.value.(updatedAt := now) else sub)
  {
    SecondsRead(data.periodStart, sub.periodStart);
    SecondsRead(data.periodEnd, sub.periodEnd);
  }

  /** In every store: an event is ignored exactly if it has no provider id or one no index entry has, and runs into
      the missing record exactly if the entry dangles; either way it changes nothing. */
  lemma EventIgnored(calendar: Calendar, st: StoreState, plans: map<Id, Plan>, a: Action)
    requires a.Webhook?
    ensures var r, pid := OutcomeOf(calendar, st, plans, a), a.providerSubId;
            && (r == Ignored <==> pid == [] || pid !in st.byProvider)
            && (r == Crashed <==> pid != [] && pid in st.byProvider && st.byProvider[pid] !in st.subs)
            && (r in {Ignored, Crashed} ==> Step(calendar, st, plans, a) == st)
  {
  }

  /** Otherwise the record the provider index names is left as the kind of the event says, and every other
      as it was. */
  lemma EventEffect(calendar: Calendar, st: StoreState, plans: map<Id, Plan>, a: Action)
    requires Sound(st) && a.Webhook? && a.providerSubId in st.byProvider
    ensures var id, st' := st.byProvider[a.providerSubId], Step(calendar, st, plans, a);
            && id in st.subs && id in st'.subs && EventLeaves(st.subs[id], a.kind, a.data, a.now, st'.subs[id])
            && OutcomeOf(calendar, st, plans, a) == Ok(st'.subs[id])
            && st'.subs == st.subs[id := st'.subs[id]]
  {
    SoundLookups(st, a.providerSubId);
    EventApplied(st.subs[st.byProvider[a.providerSubId]], a.kind, a.data, a.now);
  }

  // ---------------------------------------------------------------- manager calls

  predicate CallLeaves(was: Subscription, a: Action, after: Subscription)
    requires !a.Subscribe? && !a.Webhook?
  {
    && SameIdentity(was, after) && after.updatedAt == a.now
    && after.periodStart == was.periodStart && after.periodEnd == was.periodEnd
    && (a.Cancel? ==>
         && after.canceledAt == Some(a.now) && after.status == (if a.immediately then Canceled else was.status)
         && after.pausedAt == was.pausedAt)
    && (a.Pause? ==> after.status == Paused && after.pausedAt == Some(a.now))
    && (a.Resume? ==> after.status == Active && after.pausedAt == None)
    && (a.ChangePlan? ==>
         after.planId == a.newPlanId && after.status == was.status && after.pausedAt == was.pausedAt)
    && (!a.Cancel? ==> after.canceledAt == was.canceledAt)
    && (!a.ChangePlan? ==> after.planId == was.planId)
  }

  /** When a call on a stored subscription fails, with which error, that it then changes nothing, and what it
      leaves otherwise. The gateway is only asked about subscriptions it knows. */
  lemma CallEffect(calendar: Calendar, st: StoreState, plans: map<Id, Plan>, a: Action)
    requires KeyedById(st.subs) && !a.Subscribe? && !a.Webhook?
    ensures var r, st' := OutcomeOf(calendar, st, plans, a), Step(calendar, st, plans, a);
            && (r == SubscriptionNotFound <==> a.id !in st.subs)
            && (r == PlanNotFound <==> a.id in st.subs && a.ChangePlan? && a.newPlanId !in plans)
            && (r == ProviderFailed <==>
                  && a.id in st.subs && (a.ChangePlan? ==> a.newPlanId in plans)
                  && a.gateway.Refuses? && st.subs[a.id].providerId != [])
            && (r in {SubscriptionNotFound, PlanNotFound, ProviderFailed} ==> st' == st)
            && (r !in {SubscriptionNotFound, PlanNotFound, ProviderFailed} ==>
                  && a.id in st'.subs && r == Ok(st'.subs[a.id]) && CallLeaves(st.subs[a.id], a, st'.subs[a.id])
                  && st'.subs == st.subs[a.id := st'.subs[a.id]])
  {
  }

  /** The first period is the plan's interval long, in days of 24 hours, weeks of seven such days, or calendar
      months, twelve to the year; a count of zero means one, and an unknown interval one month. */
  predicate FirstPeriod(calendar: Calendar, plan: Plan, start: Time, end: Time) {
    var n := if plan.intervalCount == 0 then 1 else plan.intervalCount;
    && (plan.interval.Day? ==> end - start == n * 86_400_000_000_000)
    && (plan.interval.Week? ==> end - start == n * 604_800_000_000_000)
    && (plan.interval.Month? ==> end == calendar(start, n))
    && (plan.interval.Year? ==> end == calendar(start, n * 12))
    && (plan.interval.OtherInterval? ==> end == calendar(start, 1))
  }

  predicate Joined(calendar: Calendar, plan: Plan, a: Action, sub: Subscription)
    requires a.Subscribe?
  {
    && sub.id == a.newId && sub.subscriberId == a.subscriberId && sub.planId == a.planId && sub.metadata == a.metadata
    && (a.gateway.Accepts? ==> sub.providerId == a.gateway.assignedId)
    && (!a.gateway.Accepts? ==> sub.providerId == [])
    && (plan.trialDays > 0 ==>
         && sub.status == Trialing && sub.trialStart == Some(a.now)
         && sub.trialEnd == Some(a.now + plan.trialDays * 86_400_000_000_000))
    && (plan.trialDays <= 0 ==> sub.status == Active && sub.trialStart == None && sub.trialEnd == None)
    && sub.periodStart == a.now && FirstPeriod(calendar, plan, a.now, sub.periodEnd)
    && sub.canceledAt == None && sub.pausedAt == None && sub.createdAt == a.now && sub.updatedAt == a.now
  }

  /** When subscribing fails, with which error, and what it stores otherwise: afterwards the active lookup
      finds the new subscription. */
  lemma SubscribeEffect(calendar: Calendar, st: StoreState, plans: map<Id, Plan>, a: Action)
    requires a.Subscribe?
    ensures var r, st' := OutcomeOf(calendar, st, plans, a), Step(calendar, st, plans, a);
            && (r == PlanNotFound <==> a.planId !in plans)
            && (r == ProviderFailed <==> a.planId in plans && a.gateway.Refuses?)
            && (r == AlreadySubscribed <==>
                  a.planId in plans && !a.gateway.Refuses? && ActiveOf(st, a.subscriberId) != Missing)
            && (r in {PlanNotFound, ProviderFailed, AlreadySubscribed} ==> st' == st)
            && (r !in {PlanNotFound, ProviderFailed, AlreadySubscribed} ==>
                  && a.newId in st'.subs && r == Ok(st'.subs[a.newId])
                  && Joined(calendar, plans[a.planId], a, st'.subs[a.newId])
                  && ActiveOf(st', a.subscriberId) == Found(st'.subs[a.newId])
                  && st'.subs == st.subs[a.newId := st'.subs[a.newId]])
  {
  }

  // ---------------------------------------------------------------- a canceled record over runs

  /** The calls and events that move a canceled record on. */
  predicate Revives(a: Action) {
    || a.Pause? || a.Resume?
    || (a.Webhook? && (a.kind.SubPaused? || a.kind.SubResumed? || a.kind.SubRenewed? || a.kind.PaymentFailed?))
  }

  /** The store finds the record for the action. */
  predicate Finds(st: StoreState, a: Action, id: Id) {
    match a
    case Subscribe(_, _, _, _, _, _) => false
    case Webhook(pid, _, _, _) => pid != [] && Get(st.byProvider, pid) == Some(id)
    case _ => a.id == id
  }

  /** The gateway is asked and refuses. */
  predicate Refused(st: StoreState, a: Action) {
    !a.Subscribe? && !a.Webhook? && a.gateway.Refuses? && a.id in st.subs && st.subs[a.id].providerId != []
  }

  predicate StaysCanceled(st: StoreState, a: Action, id: Id) {
    Revives(a) && Finds(st, a, id) ==> Refused(st, a)
  }

  /** A canceled record stays canceled across an action exactly if the action is no resume, pause, renewal or
      failed payment of it, or the gateway refused. */
  lemma CanceledStep(calendar: Calendar, st: StoreState, plans: map<Id, Plan>, a: Action, id: Id)
    requires Sound(st) && AllStaged(st) && Fresh(st, a) && id in st.subs && st.subs[id].status == Canceled
    ensures id in Step(calendar, st, plans, a).subs
    ensures Step(calendar, st, plans, a).subs[id].status == Canceled <==> StaysCanceled(st, a, id)
  {
    match a
    case Webhook(pid, _, _, _) =>
      if pid in st.byProvider {
        EventEffect(calendar, st, plans, a);
      }
    case Subscribe(_, _, _, _, _, _) => SubscribeEffect(calendar, st, plans, a);
    case _ => CallEffect(calendar, st, plans, a);
  }

  ghost predicate CanceledThroughout(calendar: Calendar, st: StoreState, run: seq<Timed>, id: Id) {
    && id in Trace(calendar, st, run).subs && Trace(calendar, st, run).subs[id].status == Canceled
    && (run == [] || CanceledThroughout(calendar, st, run[..|run| - 1], id))
  }

  predicate NeverRevived(calendar: Calendar, st: StoreState, run: seq<Timed>, id: Id) {
    run == [] ||
      var before, last := run[..|run| - 1], run[|run| - 1];
      NeverRevived(calendar, st, before, id) && StaysCanceled(Trace(calendar, st, before), last.action, id)
  }

  /** Over every run with fresh ids: a canceled record is canceled throughout exactly if no action of the run
      resumes, pauses or renews it or reports a failed payment of it. */
  lemma {:induction false} CanceledExactly(calendar: Calendar, st: StoreState, run: seq<Timed>, id: Id)
    requires Sound(st) && AllStaged(st) && FreshRun(calendar, st, run) && id in st.subs
    requires st.subs[id].status == Canceled
    ensures CanceledThroughout(calendar, st, run, id) <==> NeverRevived(calendar, st, run, id)
  {
    if run != [] {
      var before, last := run[..|run| - 1], run[|run| - 1];
      CanceledExactly(calendar, st, before, id);
      if CanceledThroughout(calendar, st, before, id) {
        RunKeeps(calendar, st, before);
        CanceledStep(calendar, Trace(calendar, st, before), last.plans, last.action, id);
      }
    }
  }

  /** Main result, by what a caller can check: a canceled record stays canceled through every run without a
      resume, pause, renewal or failed payment about it, whatever else happens, payments included. */
  lemma {:induction false} CanceledStays(calendar: Calendar, st: StoreState, run: seq<Timed>, id: Id)
    requires Sound(st) && AllStaged(st) && FreshRun(calendar, st, run) && id in st.subs
    requires st.subs[id].status == Canceled
    requires forall k :: 0 <= k < |run| ==> !(Revives(run[k].action) && About(run[k].action, st.subs[id]))
    ensures id in Trace(calendar, st, run).subs && Trace(calendar, st, run).subs[id].status == Canceled
  {
    if run != [] {
      var before, last := run[..|run| - 1], run[|run| - 1];
      CanceledStays(calendar, st, before, id);
      RunKeeps(calendar, st, before);
      KeptThrough(calendar, st, before, id);
      CanceledStep(calendar, Trace(calendar, st, before), last.plans, last.action, id);
    }
  }

  // ---------------------------------------------------------------- an active record over runs

  ghost predicate NoneOfAbout(st: StoreState, a: Action, subscriber: Text) {
    forall id :: id in st.subs && st.subs[id].subscriberId == subscriber ==> !About(a, st.subs[id])
  }

  /** The records of the subscriber are in `st'` as they are in `st`. */
  ghost predicate SameRecords(st: StoreState, st': StoreState, subscriber: Text) {
    forall id :: id in st'.subs && st'.subs[id].subscriberId == subscriber ==> Get(st.subs, id) == Some(st'.subs[id])
  }

  /** What is written meanwhile is of other subscribers. */
  lemma WritesOthers(calendar: Calendar, st: StoreState, plans: map<Id, Plan>, a: Action, subscriber: Text)
    requires Sound(st) && AllStaged(st) && Fresh(st, a) && subscriber in st.activeBy
    requires NoneOfAbout(st, a, subscriber)
    ensures var e := EffectOf(calendar, st, plans, a);
            e.Writes? ==> !e.op.Delete? && e.op.sub.subscriberId != subscriber && e.op.sub.id != st.activeBy[subscriber]
  {
    var e := EffectOf(calendar, st, plans, a);
    WritesEvolve(calendar, st, plans, a);
    if e.Writes? && e.op.Save? {
      SavesAbout(calendar, st, plans, a);
      assert About(a, st.subs[e.sub.id]);
    }
  }

  lemma UndisturbedStep(calendar: Calendar, st: StoreState, plans: map<Id, Plan>, a: Action, subscriber: Text)
    requires Sound(st) && AllStaged(st) && Fresh(st, a) && subscriber in st.activeBy
    requires NoneOfAbout(st, a, subscriber)
    ensures var st' := Step(calendar, st, plans, a);
            && Get(st'.activeBy, subscriber) == Get(st.activeBy, subscriber)
            && ActiveOf(st', subscriber) == ActiveOf(st, subscriber) && SameRecords(st, st', subscriber)
  {
    var e := EffectOf(calendar, st, plans, a);
    if e.Writes? {
      WritesOthers(calendar, st, plans, a, subscriber);
      ActiveStays(st, e.op, subscriber);
    }
  }

  /** Over every run with fresh ids, guarded or not: a subscriber's active subscription is found, as it is, for as
      long as no call or event is about a subscription of the subscriber; subscribing again is refused. */
  lemma {:induction false} ActiveUndisturbed(calendar: Calendar, st: StoreState, run: seq<Timed>, subscriber: Text)
    requires Sound(st) && AllStaged(st) && FreshRun(calendar, st, run) && subscriber in st.activeBy
    requires forall k :: 0 <= k < |run| ==> NoneOfAbout(st, run[k].action, subscriber)
    ensures var st' := Trace(calendar, st, run);
            && Get(st'.activeBy, subscriber) == Get(st.activeBy, subscriber)
            && ActiveOf(st', subscriber) == ActiveOf(st, subscriber) && SameRecords(st, st', subscriber)
  {
    if run != [] {
      var before, last := run[..|run| - 1], run[|run| - 1];
      var mid := Trace(calendar, st, before);
      ActiveUndisturbed(calendar, st, before, subscriber);
      RunKeeps(calendar, st, before);
      assert NoneOfAbout(st, last.action, subscriber);
      UndisturbedStep(calendar, mid, last.plans, last.action, subscriber);
    }
  }
}
