/** The manager's subscription calls over the in-memory store (subscriber.go, webhook.go). Each method
    is proved to take the lifecycle state machine one step; the clock, the id generator and the
    gateway's answers are parameters. */
module Managers {
  import opened Types
  import opened SubscriptionIndex
  import opened SubscriptionStores
  import L = Lifecycle

  class Manager {
    const subs: SubscriptionStore
    const calendar: L.Calendar
    var plans: map<Id, Plan>

    constructor (subs: SubscriptionStore, calendar: L.Calendar, plans: map<Id, Plan>)
      ensures this.subs == subs && this.calendar == calendar && this.plans == plans
    {
      this.subs, this.calendar, this.plans := subs, calendar, plans;
    }

    /** The store has taken the step of `a`, and `r` is what the caller of `a` is told. */
    twostate predicate Took(a: L.Action, r: L.Outcome)
      reads this, subs
    {
      && subs.State() == L.Step(calendar, old(subs.State()), plans, a)
      && r == L.OutcomeOf(calendar, old(subs.State()), plans, a)
    }

    method Subscribe(subscriberId: Text, planId: Id, metadata: map<Text, Text>, newId: Id, gateway: Gateway, now: Time)
      returns (r: L.Outcome)
      requires subs.Valid()
      modifies subs
      ensures subs.Valid() && Took(L.Subscribe(subscriberId, planId, metadata, newId, gateway, now), r)
    {
      if planId !in plans {
        return L.PlanNotFound;
      }
      var plan := plans[planId];
      var status, trialStart, trialEnd := Active, None, None;
      if plan.trialDays > 0 {
        status := Trialing;
        trialStart := Some(now);
        trialEnd := Some(now + plan.trialDays * L.DAY);
      }
      var sub := Subscription(newId, [], subscriberId, planId, status, now, L.PeriodEnd(calendar, now, plan),
                              trialStart, trialEnd, None, None, metadata, now, now);
      if !gateway.Unset? {
        if gateway.Refuses? {
          return L.ProviderFailed;
        }
        sub := sub.(providerId := gateway.assignedId);
      }
      var reply := subs.CreateSubscriptionIfNotActive(sub);
      if reply == AlreadyExists {
        return L.AlreadySubscribed;
      }
      r := L.Ok(sub);
    }

    method Cancel(id: Id, immediately: bool, gateway: Gateway, now: Time) returns (r: L.Outcome)
      requires subs.Valid()
      modifies subs
      ensures subs.Valid() && Took(L.Cancel(id, immediately, gateway, now), r)
    {
      var found := subs.GetSubscription(id);
      if found.None? {
        return L.SubscriptionNotFound;
      }
      var sub := found.value;
      if !gateway.Unset? && sub.providerId != [] {
        if gateway.Refuses? {
          return L.ProviderFailed;
        }
      }
      sub := sub.(canceledAt := Some(now));
      sub := sub.(updatedAt := now);
      if immediately {
        sub := sub.(status := Canceled);
      }
      subs.SaveSubscription(sub);
      r := L.Ok(sub);
    }

    method Pause(id: Id, gateway: Gateway, now: Time) returns (r: L.Outcome)
      requires subs.Valid()
      modifies subs
      ensures subs.Valid() && Took(L.Pause(id, gateway, now), r)
    {
      var found := subs.GetSubscription(id);
      if found.None? {
        return L.SubscriptionNotFound;
      }
      var sub := found.value;
      if !gateway.Unset? && sub.providerId != [] {
        if gateway.Refuses? {
          return L.ProviderFailed;
        }
      }
      sub := sub.(status := Paused);
      sub := sub.(pausedAt := Some(now));
      sub := sub.(updatedAt := now);
      subs.SaveSubscription(sub);
      r := L.Ok(sub);
    }

    method Resume(id: Id, gateway: Gateway, now: Time) returns (r: L.Outcome)
      requires subs.Valid()
      modifies subs
      ensures subs.Valid() && Took(L.Resume(id, gateway, now), r)
    {
      var found := subs.GetSubscription(id);
      if found.None? {
        return L.SubscriptionNotFound;
      }
      var sub := found.value;
      if !gateway.Unset? && sub.providerId != [] {
        if gateway.Refuses? {
          return L.ProviderFailed;
        }
      }
      sub := sub.(status := Active);
      sub := sub.(pausedAt := None);
      sub := sub.(updatedAt := now);
      subs.SaveSubscription(sub);
      r := L.Ok(sub);
    }

    method ChangePlan(id: Id, newPlanId: Id, gateway: Gateway, now: Time) returns (r: L.Outcome)
      requires subs.Valid()
      modifies subs
      ensures subs.Valid() && Took(L.ChangePlan(id, newPlanId, gateway, now), r)
    {
      var found := subs.GetSubscription(id);
      if found.None? {
        return L.SubscriptionNotFound;
      }
      if newPlanId !in plans {
        return L.PlanNotFound;
      }
      var sub := found.value;
      if !gateway.Unset? && sub.providerId != [] {
        if gateway.Refuses? {
          return L.ProviderFailed;
        }
      }
      sub := sub.(planId := newPlanId);
      sub := sub.(updatedAt := now);
      subs.SaveSubscription(sub);
      r := L.Ok(sub);
    }

    /** The part of a webhook between parsing and dispatch. */
    method HandleWebhook(providerSubId: Text, kind: L.EventKind, data: L.EventData, now: Time) returns (r: L.Outcome)
      requires subs.Valid()
      modifies subs
      ensures subs.Valid() && Took(L.Webhook(providerSubId, kind, data, now), r)
    {
      if providerSubId == [] {
        return L.Ignored;
      }
      var found := subs.GetSubscriptionByProviderID(providerSubId);
      match found {
        case Missing => return L.Ignored;
        case Panic => return L.Crashed;
        case Found(sub) =>
          var updated, edited := ApplyEventToSubscription(sub, kind, data, now);
          if updated {
            edited := edited.(updatedAt := now);
            subs.SaveSubscription(edited);
          }
          return L.Ok(edited);
      }
    }

    /** Updates the record step by step and says whether it must be saved. */
    static method ApplyEventToSubscription(sub0: Subscription, kind: L.EventKind, data: L.EventData, now: Time)
      returns (updated: bool, sub: Subscription)
      ensures var spec := L.ApplyEvent(sub0, kind, data, now);
              updated == spec.Some? && sub == if spec.Some? then spec.value else sub0
    {
      sub := sub0;
      match kind {
        case SubCanceled =>
          sub := sub.(status := Canceled);
          sub := sub.(canceledAt := Some(now));
          return true, sub;
        case SubPaused =>
          sub := sub.(status := Paused);
          sub := sub.(pausedAt := Some(now));
          return true, sub;
        case SubResumed =>
          sub := sub.(status := Active);
          sub := sub.(pausedAt := None);
          return true, sub;
        case SubRenewed =>
          sub := sub.(status := Active);
          var start := L.TimeFromData(data.periodStart);
          if start.Some? {
            sub := sub.(periodStart := start.value);
          }
          var end := L.TimeFromData(data.periodEnd);
          if end.Some? {
            sub := sub.(periodEnd := end.value);
          }
          return true, sub;
        case PaymentFailed =>
          sub := sub.(status := PastDue);
          return true, sub;
        case PaymentSucceeded =>
          if sub.status.PastDue? || sub.status.Trialing? {
            sub := sub.(status := Active);
            return true, sub;
          }
        case TrialEnded =>
          if sub.status.Trialing? {
            sub := sub.(status := Active);
            return true, sub;
          }
        case _ =>
      }
      return false, sub;
    }
  }
}
