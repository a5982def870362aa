/** Recording usage and enforcing plan limits (usage.go). Plans are read through the cache, which
    serves what the plan store holds (`PlanCatalogs.CacheInvisible`). */
module Metering {
  import opened Types
  import opened SubscriptionIndex
  import opened SubscriptionStores
  import opened UsageLog
  import opened UsageStores

  datatype LimitReply =
    | Allowed
    | SubscriptionMissing
    | PlanMissing
    | Exceeded(metric: Text, current: int, limit: int, delta: int)

  /** A usage call to the gateway. */
  datatype Report = Report(providerSubId: Text, metric: Text, quantity: int)

  // ---------------------------------------------------------------- the decision

  /** Usage of a metric in the subscription's current period, as the 64-bit sum the store returns. */
  function Current(log: seq<UsageRecord>, sub: Subscription, metric: Text): int {
    Wrap64(Usage(log, (sub.id, metric), sub.periodStart, sub.periodEnd))
  }

  /** A limit of zero is none. */
  predicate Limited(plan: Plan, metric: Text) {
    metric in plan.limits && plan.limits[metric] != 0
  }

  function PlanVerdict(plan: Plan, log: seq<UsageRecord>, sub: Subscription, metric: Text, delta: int): LimitReply {
    if Limited(plan, metric) && Wrap64(Current(log, sub, metric) + delta) > plan.limits[metric]
    then Exceeded(metric, Current(log, sub, metric), plan.limits[metric], delta)
    else Allowed
  }

  function Verdict(subs: map<Id, Subscription>, plans: map<Id, Plan>, log: seq<UsageRecord>, id: Id, metric: Text,
                   delta: int): LimitReply
  {
    if id !in subs then SubscriptionMissing
    else if subs[id].planId !in plans then PlanMissing
    else PlanVerdict(plans[subs[id].planId], log, subs[id], metric, delta)
  }

  predicate Fits64(x: int) {
    -TWO_63 <= x < TWO_63
  }

  /** What a check of a limited metric must answer. It refuses with the usage, limit and amount it compared, and
      makes the intended comparison exactly if the total fits 64 bits, or it wraps around to a value on the same
      side of the limit: above it from above, not above it from below. */
  ghost predicate Compares(log: seq<UsageRecord>, sub: Subscription, metric: Text, delta: int, limit: int,
                           r: LimitReply)
  {
    var used := Usage(log, (sub.id, metric), sub.periodStart, sub.periodEnd);
    var total := used + delta;
    && (r == Allowed || r == Exceeded(metric, Wrap64(used), limit, delta))
    && ((r == Allowed <==> total <= limit) <==>
          || Fits64(total)
          || (total >= TWO_63 && Wrap64(total) > limit)
          || (total < -TWO_63 && Wrap64(total) <= limit))
    && (TWO_63 <= total < TWO_64 ==> Wrap64(total) == total - TWO_64)
    && (-TWO_64 <= total < -TWO_63 ==> Wrap64(total) == total + TWO_64)
  }

  lemma WrapOnce(total: int)
    requires -TWO_64 <= total < TWO_64
    ensures total >= TWO_63 ==> Wrap64(total) == total - TWO_64
    ensures total < -TWO_63 ==> Wrap64(total) == total + TWO_64
  {
    var k :| Wrap64(total) == total + k * TWO_64;
    if total >= TWO_63 {
      assert k == -1;
    } else if total < -TWO_63 {
      assert k == 1;
    }
  }

  /** For every log and amount: a metric the plan does not mention, or gives the limit zero, is allowed, and every
      other one is compared. */
  lemma {:induction false} VerdictExactly(plan: Plan, log: seq<UsageRecord>, sub: Subscription, metric: Text,
                                          delta: int)
    ensures metric !in plan.limits || plan.limits[metric] == 0 ==> PlanVerdict(plan, log, sub, metric, delta) == Allowed
    ensures metric in plan.limits && plan.limits[metric] != 0 && Fits64(plan.limits[metric]) ==>
              Compares(log, sub, metric, delta, plan.limits[metric], PlanVerdict(plan, log, sub, metric, delta))
  {
    var used := Usage(log, (sub.id, metric), sub.periodStart, sub.periodEnd);
    WrapAdd(used, delta);
    if -TWO_64 <= used + delta < TWO_64 {
      WrapOnce(used + delta);
    }
  }

  /** And of a check of several metrics: a refusal is of a limited metric among them and compares it; success is
      success of each comparison; without a limited metric among them it succeeds. */
  ghost predicate JudgesAll(log: seq<UsageRecord>, sub: Subscription, limits: map<Text, int>, deltas: map<Text, int>,
                            r: LimitReply)
  {
    && (r == Allowed || r.Exceeded?)
    && (r.Exceeded? ==>
         && r.metric in deltas && r.metric in limits && limits[r.metric] != 0
         && (Fits64(limits[r.metric]) ==>
              Compares(log, sub, r.metric, deltas[r.metric], limits[r.metric], r)))
    && (r == Allowed ==>
         forall m :: m in deltas && m in limits && limits[m] != 0 && Fits64(limits[m]) ==>
           Compares(log, sub, m, deltas[m], limits[m], r))
  }

  lemma AllJudged(plan: Plan, log: seq<UsageRecord>, sub: Subscription, deltas: map<Text, int>)
    ensures (forall m :: m in deltas ==> PlanVerdict(plan, log, sub, m, deltas[m]) == Allowed) ==>
              JudgesAll(log, sub, plan.limits, deltas, Allowed)
    ensures forall m :: m in deltas && PlanVerdict(plan, log, sub, m, deltas[m]) != Allowed ==>
              JudgesAll(log, sub, plan.limits, deltas, PlanVerdict(plan, log, sub, m, deltas[m]))
  {
    forall m | m in deltas
      ensures m in plan.limits && plan.limits[m] != 0 && Fits64(plan.limits[m]) ==>
        Compares(log, sub, m, deltas[m], plan.limits[m], PlanVerdict(plan, log, sub, m, deltas[m]))
      ensures m !in plan.limits || plan.limits[m] == 0 ==> PlanVerdict(plan, log, sub, m, deltas[m]) == Allowed
    {
      VerdictExactly(plan, log, sub, m, deltas[m]);
    }
  }

  // ---------------------------------------------------------------- a cap over whole histories

  /** What can happen to the usage log while a plan and period stay fixed: the subscriber consumes a
      metric if a check allows it, anything else is recorded unchecked, records are marked. */
  datatype Act =
    | Consume(metric: Text, delta: int, at: Time, recordId: Id)
    | Elsewhere(record: UsageRecord)
    | Mark(place: nat, at: Time)

  /** The record counts for the metric in the subscription's period. */
  predicate CountsFor(sub: Subscription, metric: Text, r: UsageRecord) {
    CellOf(r) == (sub.id, metric) && Within(r, sub.periodStart, sub.periodEnd)
  }

  /** `Elsewhere` is whatever does not count for the metric: other subscriptions, the subscription's other metrics,
      checked or not, and other periods. */
  function Do(plan: Plan, sub: Subscription, metric: Text, log: seq<UsageRecord>, a: Act): seq<UsageRecord> {
    match a
    case Consume(m, delta, at, recordId) =>
      if PlanVerdict(plan, log, sub, m, delta) == Allowed
      then log + [UsageRecord(recordId, sub.id, m, delta, at, map[], None)]
      else log
    case Elsewhere(record) => if !CountsFor(sub, metric, record) then log + [record] else log
    case Mark(place, at) => if place < |log| then Marked(log, place, at) else log
  }

  function DoAll(plan: Plan, sub: Subscription, metric: Text, log: seq<UsageRecord>, acts: seq<Act>): seq<UsageRecord> {
    if acts == [] then log
    else Do(plan, sub, metric, DoAll(plan, sub, metric, log, acts[..|acts| - 1]), acts[|acts| - 1])
  }

  /** No total of `metric` leaves the 64-bit range on the way. */
  predicate NoOverflow(plan: Plan, sub: Subscription, log: seq<UsageRecord>, acts: seq<Act>, metric: Text) {
    && Fits64(Usage(log, (sub.id, metric), sub.periodStart, sub.periodEnd))
    && (acts != [] ==>
         var before, a := acts[..|acts| - 1], acts[|acts| - 1];
         && NoOverflow(plan, sub, log, before, metric)
         && (a.Consume? && a.metric == metric ==>
              Fits64(a.delta) && Fits64(a.delta + Usage(DoAll(plan, sub, metric, log, before), (sub.id, metric),
                                                         sub.periodStart, sub.periodEnd))))
  }

  lemma ActKeepsCap(plan: Plan, sub: Subscription, log: seq<UsageRecord>, a: Act, metric: Text)
    requires metric in plan.limits && plan.limits[metric] != 0 && Fits64(plan.limits[metric])
    requires var used := Usage(log, (sub.id, metric), sub.periodStart, sub.periodEnd);
             && Fits64(used) && used <= plan.limits[metric]
             && (a.Consume? && a.metric == metric ==> Fits64(a.delta) && Fits64(used + a.delta))
    ensures var used := Usage(Do(plan, sub, metric, log, a), (sub.id, metric), sub.periodStart, sub.periodEnd);
            Fits64(used) && used <= plan.limits[metric]
  {
    var cell := (sub.id, metric);
    match a
    case Consume(m, delta, at, recordId) =>
      if m == metric {
        VerdictExactly(plan, log, sub, metric, delta);
      }
      UsageAppend(log, UsageRecord(recordId, sub.id, m, delta, at, map[], None), cell, sub.periodStart, sub.periodEnd);
    case Elsewhere(record) =>
      UsageAppend(log, record, cell, sub.periodStart, sub.periodEnd);
    case Mark(place, at) =>
      if place < |log| {
        MarkKeepsUsage(log, place, at, cell, sub.periodStart, sub.periodEnd);
      }
  }

  /** Main result: a subscriber who records usage only after a check of the same amount never gets
      above the limit of a metric, whatever else is recorded or marked in between. */
  lemma {:induction false} CapHolds(plan: Plan, sub: Subscription, log: seq<UsageRecord>, acts: seq<Act>, metric: Text)
    requires metric in plan.limits && plan.limits[metric] != 0 && Fits64(plan.limits[metric])
    requires Usage(log, (sub.id, metric), sub.periodStart, sub.periodEnd) <= plan.limits[metric]
    requires NoOverflow(plan, sub, log, acts, metric)
    ensures var used := Usage(DoAll(plan, sub, metric, log, acts), (sub.id, metric), sub.periodStart, sub.periodEnd);
            Fits64(used) && used <= plan.limits[metric]
  {
    if acts != [] {
      var before := acts[..|acts| - 1];
      CapHolds(plan, sub, log, before, metric);
      ActKeepsCap(plan, sub, DoAll(plan, sub, metric, log, before), acts[|acts| - 1], metric);
    }
  }

  // ---------------------------------------------------------------- the calls

  class Meter {
    const subs: SubscriptionStore
    const usage: UsageStore
    var plans: map<Id, Plan>

    constructor (subs: SubscriptionStore, usage: UsageStore, plans: map<Id, Plan>)
      ensures this.subs == subs && this.usage == usage && this.plans == plans
    {
      this.subs, this.usage, this.plans := subs, usage, plans;
    }

    /** Stores the record first; the gateway is told directly only if asked for, and the record stays
        unreported even then. `told` is the call made, if any. */
    method RecordUsage(sub: Id, metric: Text, quantity: int, at: Option<Time>, metadata: map<Text, Text>,
                       reportToProvider: bool, hasProvider: bool, newId: Id, now: Time)
      returns (record: UsageRecord, told: Option<Report>)
      requires usage.Valid()
      modifies usage
      ensures usage.Valid() && usage.log == old(usage.log) + [record]
      ensures record == UsageRecord(newId, sub, metric, quantity, if at.Some? then at.value else now, metadata, None)
      ensures told ==
        if reportToProvider && hasProvider && sub in subs.subs && subs.subs[sub].providerId != []
        then Some(Report(subs.subs[sub].providerId, metric, quantity)) else None
    {
      var recordedAt := now;
      if at.Some? {
        recordedAt := at.value;
      }
      record := UsageRecord(newId, sub, metric, quantity, recordedAt, metadata, None);
      usage.SaveUsageRecord(record);
      told := None;
      if reportToProvider && hasProvider {
        var found := subs.GetSubscription(sub);
        if found.Some? && found.value.providerId != [] {
          told := Some(Report(found.value.providerId, metric, quantity));
        }
      }
    }

    method GetCurrentUsage(sub: Id, metric: Text) returns (r: Option<int>)
      requires subs.Valid() && usage.Valid()
      ensures r.None? <==> sub !in subs.subs
      ensures r.Some? ==>
                r.value == Wrap64(Usage(usage.log, (sub, metric), subs.subs[sub].periodStart, subs.subs[sub].periodEnd))
    {
      var found := subs.GetSubscription(sub);
      if found.None? {
        return None;
      }
      var total := usage.SumUsage(sub, metric, found.value.periodStart, found.value.periodEnd);
      r := Some(total);
    }

    method CheckLimit(sub: Id, metric: Text, delta: int) returns (r: LimitReply)
      requires subs.Valid() && usage.Valid()
      ensures r == SubscriptionMissing <==> sub !in subs.subs
      ensures r == PlanMissing <==> sub in subs.subs && subs.subs[sub].planId !in plans
      ensures sub in subs.subs && subs.subs[sub].planId in plans ==>
                var limits := plans[subs.subs[sub].planId].limits;
                && (metric !in limits || limits[metric] == 0 ==> r == Allowed)
                && (metric in limits && limits[metric] != 0 && Fits64(limits[metric]) ==>
                      Compares(usage.log, subs.subs[sub], metric, delta, limits[metric], r))
      ensures r == Verdict(subs.subs, plans, usage.log, sub, metric, delta)
    {
      if sub in subs.subs && subs.subs[sub].planId in plans {
        VerdictExactly(plans[subs.subs[sub].planId], usage.log, subs.subs[sub], metric, delta);
      }
      var found := subs.GetSubscription(sub);
      if found.None? {
        return SubscriptionMissing;
      }
      if found.value.planId !in plans {
        return PlanMissing;
      }
      var plan := plans[found.value.planId];
      if metric !in plan.limits || plan.limits[metric] == 0 {
        return Allowed;
      }
      var limit := plan.limits[metric];
      var current := usage.SumUsage(sub, metric, found.value.periodStart, found.value.periodEnd);
      if Wrap64(current + delta) > limit {
        return Exceeded(metric, current, limit, delta);
      }
      r := Allowed;
    }

    /** Checks several metrics in whatever order the map yields them. It allows exactly what the single
        check allows for every metric, and reports a refusal some single check would report. */
    method CheckLimits(sub: Id, deltas: map<Text, int>) returns (r: LimitReply)
      requires subs.Valid() && usage.Valid()
      ensures sub in subs.subs && subs.subs[sub].planId in plans ==>
                && (r == Allowed <==>
                      forall m :: m in deltas ==> Verdict(subs.subs, plans, usage.log, sub, m, deltas[m]) == Allowed)
                && (r != Allowed ==>
                      && r.Exceeded? && r.metric in deltas
                      && r == Verdict(subs.subs, plans, usage.log, sub, r.metric, deltas[r.metric]))
      ensures sub in subs.subs && subs.subs[sub].planId in plans ==>
                JudgesAll(usage.log, subs.subs[sub], plans[subs.subs[sub].planId].limits, deltas, r)
      ensures !(sub in subs.subs && subs.subs[sub].planId in plans) ==>
                forall m, delta :: r == Verdict(subs.subs, plans, usage.log, sub, m, delta)
    {
      var found := subs.GetSubscription(sub);
      if found.None? {
        return SubscriptionMissing;
      }
      if found.value.planId !in plans {
        return PlanMissing;
      }
      var plan := plans[found.value.planId];
      AllJudged(plan, usage.log, found.value, deltas);
      var rest := deltas.Keys;
      while rest != {}
        invariant rest <= deltas.Keys
        invariant forall m :: m in deltas && m !in rest ==>
                  PlanVerdict(plan, usage.log, found.value, m, deltas[m]) == Allowed
        decreases |rest|
      {
        var metric :| metric in rest;
        rest := rest - {metric};
        if metric in plan.limits && plan.limits[metric] != 0 {
          var limit := plan.limits[metric];
          var current := usage.SumUsage(sub, metric, found.value.periodStart, found.value.periodEnd);
          if Wrap64(current + deltas[metric]) > limit {
            return Exceeded(metric, current, limit, deltas[metric]);
          }
        }
      }
      r := Allowed;
    }
  }
}
