/** Values shared by every component: Go strings, optional values and the stored records
    (types.go, store/store.go). */
module Types {

  /** A Go string is a byte string; `[]` is the empty one. */
  type Text = seq<bv8>

  type Id = Text

  /** An instant, in nanoseconds since the Unix epoch. */
  type Time = int

  /** An unsigned 32-bit checksum. */
  type Sum32 = n: int | 0 <= n < 0x1_0000_0000

  datatype Option<+T> = None | Some(value: T)

  /** The status column. `Other` covers every string the engine itself never writes. */
  datatype Status = Trialing | Active | Paused | PastDue | Canceled | Expired | Other(text: Text)

  datatype Subscription = Subscription(
    id: Id,
    providerId: Text,
    subscriberId: Text,
    planId: Id,
    status: Status,
    periodStart: Time,
    periodEnd: Time,
    trialStart: Option<Time>,
    trialEnd: Option<Time>,
    canceledAt: Option<Time>,
    pausedAt: Option<Time>,
    metadata: map<Text, Text>,
    createdAt: Time,
    updatedAt: Time)

  datatype Plan = Plan(
    id: Id,
    providerId: Text,
    name: Text,
    description: Text,
    amount: int,
    currency: Text,
    interval: Interval,
    intervalCount: int,
    trialDays: int,
    features: seq<Text>,
    limits: map<Text, int>,
    metadata: map<Text, Text>,
    active: bool,
    createdAt: Time,
    updatedAt: Time)

  /** `OtherInterval` covers every string but the four the engine knows. */
  datatype Interval = Day | Week | Month | Year | OtherInterval(text: Text)

  /** A metered event; `reportedAt` is set once the gateway is known to have it. */
  datatype UsageRecord = UsageRecord(
    id: Id,
    subscriptionId: Id,
    metric: Text,
    quantity: int,
    recordedAt: Time,
    metadata: map<Text, Text>,
    reportedAt: Option<Time>)

  /** How a call to the payment gateway goes: not configured, accepted (with the id it assigned, where
      it assigns one), or refused. */
  datatype Gateway = Unset | Accepts(assignedId: Text) | Refuses

  /** Narrows a listing; an empty id and an absent status match everything. */
  datatype Filter = Filter(subscriberId: Text, planId: Id, status: Option<Status>)

  /** The two statuses that grant access. */
  predicate IsActive(sub: Subscription) {
    sub.status.Active? || sub.status.Trialing?
  }

  predicate Matches(f: Filter, sub: Subscription) {
    && (f.subscriberId == [] || sub.subscriberId == f.subscriberId)
    && (f.planId == [] || sub.planId == f.planId)
    && (f.status.None? || sub.status == f.status.value)
  }

  /** Map lookup that reports absence. */
  function Get<K, V>(m: map<K, V>, k: K): Option<V> {
    if k in m then Some(m[k]) else None
  }

  /** Go's map read: a missing key reads as the zero value, here the empty id. */
  function IdAt(m: map<Text, Id>, k: Text): Id {
    if k in m then m[k] else []
  }
}
