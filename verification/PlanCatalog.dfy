/** The plan half of the manager (plan.go, manager.go:238-255): the operations that write plans and the
    cached read, and why the cache cannot be noticed as long as they run one at a time. */
module PlanCatalogs {
  import opened Types
  import opened PlanCaches

  // ---------------------------------------------------------------- operations as values

  datatype PlanInput = PlanInput(
    name: Text,
    description: Text,
    amount: int,
    currency: Text,
    interval: Interval,
    intervalCount: int,
    trialDays: int,
    features: seq<Text>,
    limits: map<Text, int>,
    metadata: map<Text, Text>)

  /** Absent fields are left as they are. */
  datatype Patch = Patch(
    name: Option<Text>,
    description: Option<Text>,
    features: Option<seq<Text>>,
    limits: Option<map<Text, int>>,
    metadata: Option<map<Text, Text>>,
    active: Option<bool>)

  /** How one call goes: the gateway, whether the store answers reads and writes, and the two readings
      of the clock, which need not agree in any way. */
  datatype Env = Env(gateway: Gateway, readable: bool, writable: bool, now: Time, later: Time)

  datatype Command =
    | Create(input: PlanInput, id: Id)
    | Read(id: Id)
    | Update(id: Id, patch: Patch)
    | Delete(id: Id)

  datatype Answer = Done(plan: Plan) | Removed | NotFound | GatewayFailed | StoreFailed

  function Created(input: PlanInput, id: Id, providerId: Text, now: Time): Plan {
    Plan(id, providerId, input.name, input.description, input.amount, input.currency, input.interval,
         if input.intervalCount == 0 then 1 else input.intervalCount, input.trialDays, input.features,
         input.limits, input.metadata, true, now, now)
  }

  function Or<T>(o: Option<T>, otherwise: T): T {
    if o.Some? then o.value else otherwise
  }

  function Patched(plan: Plan, patch: Patch, now: Time): Plan {
    plan.(name := Or(patch.name, plan.name),
          description := Or(patch.description, plan.description),
          features := Or(patch.features, plan.features),
          limits := Or(patch.limits, plan.limits),
          metadata := Or(patch.metadata, plan.metadata),
          active := Or(patch.active, plan.active),
          updatedAt := now)
  }

  /** The plan store and, unless it is switched off, the cache in front of it. */
  datatype Memo = Memo(plans: map<Id, Plan>, entries: Option<map<Id, Entry>>, ttl: int)

  /** The same manager without a cache. */
  function Bare(s: Memo): Memo {
    s.(entries := None)
  }

  function Looked(s: Memo, id: Id, now: Time): Option<Plan> {
    if s.entries.Some? then Fresh(s.entries.value, id, now) else None
  }

  function Remember(s: Memo, plan: Plan, now: Time): Memo {
    if s.entries.Some? then s.(entries := Some(s.entries.value[plan.id := Entry(plan, now + s.ttl)])) else s
  }

  function Forget(s: Memo, id: Id): Memo {
    if s.entries.Some? then s.(entries := Some(s.entries.value - {id})) else s
  }

  /** The answer of one call. */
  function Reply(s: Memo, cmd: Command, env: Env): Answer {
    match cmd
    case Create(input, id) =>
      if env.gateway.Refuses? then GatewayFailed
      else if !env.writable then StoreFailed
      else Done(Created(input, id, if env.gateway.Accepts? then env.gateway.assignedId else [], env.now))
    case Read(id) =>
      if Looked(s, id, env.now).Some? then Done(Looked(s, id, env.now).value)
      else if !env.readable then StoreFailed
      else if id !in s.plans then NotFound
      else Done(s.plans[id])
    case Update(id, patch) =>
      if !env.readable then StoreFailed
      else if id !in s.plans then NotFound
      else if env.gateway.Refuses? && s.plans[id].providerId != [] then GatewayFailed
      else if !env.writable then StoreFailed
      else Done(Patched(s.plans[id], patch, env.now))
    case Delete(id) =>
      if !env.readable then StoreFailed
      else if id !in s.plans then NotFound
      else if env.gateway.Refuses? && s.plans[id].providerId != [] then GatewayFailed
      else if !env.writable then StoreFailed
      else Removed
  }

  /** The state after one call. */
  function Next(s: Memo, cmd: Command, env: Env): Memo {
    var reply := Reply(s, cmd, env);
    match cmd
    case Read(id) =>
      if reply.Done? && Looked(s, id, env.now).None? then Remember(s, reply.plan, env.later) else s
    case Delete(id) =>
      if reply.Removed? then Forget(s.(plans := s.plans - {id}), id) else s
    case _ =>
      if reply.Done? then Remember(s.(plans := s.plans[reply.plan.id := reply.plan]), reply.plan, env.later) else s
  }

  datatype Call = Call(cmd: Command, env: Env)

  function After(s: Memo, calls: seq<Call>): Memo {
    if calls == [] then s
    else
      var last := calls[|calls| - 1];
      Next(After(s, calls[..|calls| - 1]), last.cmd, last.env)
  }

  // ---------------------------------------------------------------- the manager

  const FIVE_MINUTES: int := 300_000_000_000

  /** The field by field update, in the order of the source. */
  method ApplyPatch(stored: Plan, patch: Patch, now: Time) returns (plan: Plan)
    ensures plan == Patched(stored, patch, now)
  {
    plan := stored;
    if patch.name.Some? {
      plan := plan.(name := patch.name.value);
    }
    if patch.description.Some? {
      plan := plan.(description := patch.description.value);
    }
    if patch.features.Some? {
      plan := plan.(features := patch.features.value);
    }
    if patch.limits.Some? {
      plan := plan.(limits := patch.limits.value);
    }
    if patch.metadata.Some? {
      plan := plan.(metadata := patch.metadata.value);
    }
    if patch.active.Some? {
      plan := plan.(active := patch.active.value);
    }
    plan := plan.(updatedAt := now);
  }

  class Catalog {
    var plans: map<Id, Plan>
    const cache: PlanCache?

    ghost function State(): Memo
      reads this, cache
    {
      Memo(plans, if cache == null then None else Some(cache.entries), if cache == null then 0 else cache.ttl)
    }

    /** No cache for a negative lifetime, five minutes for none given. */
    constructor (stored: map<Id, Plan>, ttl: int)
      ensures plans == stored
      ensures cache == null <==> ttl < 0
      ensures cache != null ==>
                fresh(cache) && cache.entries == map[] && cache.ttl == if ttl == 0 then 5 * 60 * 1_000_000_000 else ttl
    {
      plans := stored;
      var lifetime := if ttl == 0 then FIVE_MINUTES else ttl;
      if lifetime > 0 {
        cache := new PlanCache(lifetime);
      } else {
        cache := null;
      }
    }

    method CreatePlan(input: PlanInput, id: Id, env: Env) returns (answer: Answer)
      modifies this, cache
      ensures answer == Reply(old(State()), Create(input, id), env)
      ensures State() == Next(old(State()), Create(input, id), env)
    {
      var count := input.intervalCount;
      if count == 0 {
        count := 1;
      }
      var plan := Plan(id, [], input.name, input.description, input.amount, input.currency, input.interval,
                       count, input.trialDays, input.features, input.limits, input.metadata, true, env.now, env.now);
      if !env.gateway.Unset? {
        if env.gateway.Refuses? {
          return GatewayFailed;
        }
        plan := plan.(providerId := env.gateway.assignedId);
      }
      if !env.writable {
        return StoreFailed;
      }
      plans := plans[plan.id := plan];
      if cache != null {
        cache.Set(plan, env.later);
      }
      return Done(plan);
    }

    method GetPlan(id: Id, env: Env) returns (answer: Answer)
      modifies cache
      ensures answer == Reply(old(State()), Read(id), env)
      ensures State() == Next(old(State()), Read(id), env)
    {
      if cache != null {
        var hit := cache.Get(id, env.now);
        if hit.Some? {
          return Done(hit.value);
        }
      }
      if !env.readable {
        return StoreFailed;
      }
      if id !in plans {
        return NotFound;
      }
      var plan := plans[id];
      if cache != null {
        cache.Set(plan, env.later);
      }
      return Done(plan);
    }

    method UpdatePlan(id: Id, patch: Patch, env: Env) returns (answer: Answer)
      modifies this, cache
      ensures answer == Reply(old(State()), Update(id, patch), env)
      ensures State() == Next(old(State()), Update(id, patch), env)
    {
      if !env.readable {
        return StoreFailed;
      }
      if id !in plans {
        return NotFound;
      }
      var plan := plans[id];
      plan := ApplyPatch(plan, patch, env.now);
      if !env.gateway.Unset? && plan.providerId != [] && env.gateway.Refuses? {
        return GatewayFailed;
      }
      if !env.writable {
        return StoreFailed;
      }
      plans := plans[plan.id := plan];
      if cache != null {
        cache.Set(plan, env.later);
      }
      return Done(plan);
    }

    method DeletePlan(id: Id, env: Env) returns (answer: Answer)
      modifies this, cache
      ensures answer == Reply(old(State()), Delete(id), env)
      ensures State() == Next(old(State()), Delete(id), env)
    {
      if !env.readable {
        return StoreFailed;
      }
      if id !in plans {
        return NotFound;
      }
      var plan := plans[id];
      if !env.gateway.Unset? && plan.providerId != [] && env.gateway.Refuses? {
        return GatewayFailed;
      }
      if !env.writable {
        return StoreFailed;
      }
      plans := plans - {id};
      if cache != null {
        cache.Delete(id);
      }
      return Removed;
    }
  }

  // ---------------------------------------------------------------- the cache cannot be noticed

  predicate Keyed(plans: map<Id, Plan>) {
    forall id :: id in plans ==> plans[id].id == id
  }

  /** Every entry, expired or not, is the stored plan. */
  predicate Coherent(s: Memo) {
    s.entries.Some? ==> forall id :: id in s.entries.value ==> id in s.plans && s.plans[id] == s.entries.value[id].plan
  }

  lemma NextCoherent(s: Memo, cmd: Command, env: Env)
    requires Keyed(s.plans) && Coherent(s)
    ensures Keyed(Next(s, cmd, env).plans) && Coherent(Next(s, cmd, env))
  {
  }

  lemma {:induction false} RunCoherent(s: Memo, calls: seq<Call>)
    requires Keyed(s.plans) && Coherent(s)
    ensures Keyed(After(s, calls).plans) && Coherent(After(s, calls))
    ensures After(s, calls).plans == After(Bare(s), calls).plans && After(Bare(s), calls).entries.None?
  {
    if calls != [] {
      var before, last := calls[..|calls| - 1], calls[|calls| - 1];
      RunCoherent(s, before);
      NextCoherent(After(s, before), last.cmd, last.env);
      assert Bare(After(s, before)).plans == After(Bare(s), before).plans;
    }
  }

  /** Main result. After any calls whatsoever, one at a time, with any readings of the clock, the next
      call answers what it would have answered had there never been a cache; only a read that finds the
      store down can differ, and then it is answered as if the store were up. */
  lemma CacheInvisible(s: Memo, calls: seq<Call>, cmd: Command, env: Env)
    requires Keyed(s.plans) && Coherent(s)
    ensures var with, without := Reply(After(s, calls), cmd, env), Reply(After(Bare(s), calls), cmd, env);
            || with == without
            || (cmd.Read? && without.StoreFailed? && with == Reply(After(Bare(s), calls), cmd, env.(readable := true)))
  {
    RunCoherent(s, calls);
  }

  /** Coherence is also necessary: an entry that is not the stored plan is served at some instant. */
  lemma CoherentExactly(s: Memo)
    ensures Coherent(s) <==> forall id, env: Env :: env.readable ==>
            Reply(s, Read(id), env) == Reply(Bare(s), Read(id), env)
  {
    if !Coherent(s) {
      var id :| id in s.entries.value && !(id in s.plans && s.plans[id] == s.entries.value[id].plan);
      var env := Env(Unset, true, true, s.entries.value[id].expiresAt, 0);
      assert Reply(s, Read(id), env) != Reply(Bare(s), Read(id), env);
    }
  }

  // ---------------------------------------------------------------- what a plan keeps

  /** Nothing the catalog does changes what was sold under an id. */
  predicate SameTerms(a: Plan, b: Plan) {
    && a.id == b.id && a.providerId == b.providerId && a.amount == b.amount && a.currency == b.currency
    && a.interval == b.interval && a.intervalCount == b.intervalCount && a.trialDays == b.trialDays
    && a.createdAt == b.createdAt
  }

  ghost predicate FreshCreates(s: Memo, calls: seq<Call>) {
    calls != [] ==>
      var before, last := calls[..|calls| - 1], calls[|calls| - 1];
      FreshCreates(s, before) && (last.cmd.Create? ==> last.cmd.id !in After(s, before).plans)
  }

  /** While an id is stored, its price, billing interval, trial and gateway id never change; it can only
      go away by a delete. */
  lemma {:induction false} TermsNeverChange(s: Memo, calls: seq<Call>, id: Id)
    requires Keyed(s.plans) && Coherent(s) && FreshCreates(s, calls) && id in s.plans
    requires forall k :: 0 <= k < |calls| ==> calls[k].cmd != Delete(id)
    ensures id in After(s, calls).plans && SameTerms(s.plans[id], After(s, calls).plans[id])
  {
    if calls != [] {
      var before := calls[..|calls| - 1];
      TermsNeverChange(s, before, id);
      RunCoherent(s, before);
    }
  }

  /** A call that does not succeed changes neither the store nor the cache. */
  lemma FailureChangesNothing(s: Memo, cmd: Command, env: Env)
    requires !Reply(s, cmd, env).Done? && !Reply(s, cmd, env).Removed?
    ensures Next(s, cmd, env) == s
  {
  }

  /** What a successful write answers is what every read answers until the next write of that id, and after a
      successful delete the plan is not found. */
  lemma {:induction false} ReadsLastWrite(s: Memo, write: Call, calls: seq<Call>, env: Env)
    requires Keyed(s.plans) && Coherent(s) && env.readable
    requires Reply(s, write.cmd, write.env).Done? || Reply(s, write.cmd, write.env).Removed?
    requires forall k :: 0 <= k < |calls| ==> calls[k].cmd.Read? || calls[k].cmd.id != write.cmd.id
    ensures Reply(After(Next(s, write.cmd, write.env), calls), Read(write.cmd.id), env)
         == if write.cmd.Delete? then NotFound else Reply(s, write.cmd, write.env)
  {
    var after := Next(s, write.cmd, write.env);
    NextCoherent(s, write.cmd, write.env);
    RunCoherent(after, calls);
    OthersKeep(after, calls, write.cmd.id);
  }

  /** When a call fails, and with which error: the gateway is asked before anything is written, about existing
      plans only if it knows them, and a read answered from the cache needs no store. */
  lemma FailsExactly(s: Memo, cmd: Command, env: Env)
    ensures var r := Reply(s, cmd, env);
            && (r == NotFound <==>
                  !cmd.Create? && env.readable && cmd.id !in s.plans && !(cmd.Read? && Remembers(s, cmd.id, env.now)))
            && (r == GatewayFailed <==>
                  && env.gateway.Refuses? && !cmd.Read?
                  && (!cmd.Create? ==> env.readable && cmd.id in s.plans && s.plans[cmd.id].providerId != []))
            && (r == StoreFailed <==>
                  || (!cmd.Create? && !env.readable && !(cmd.Read? && Remembers(s, cmd.id, env.now)))
                  || (!cmd.Read? && !env.writable && r !in {NotFound, GatewayFailed}))
            && (r == Removed ==> cmd.Delete?)
  {
  }

  /** The cache has an entry of the plan that has not expired. */
  predicate Remembers(s: Memo, id: Id, now: Time) {
    s.entries.Some? && id in s.entries.value && now <= s.entries.value[id].expiresAt
  }

  predicate Sets<T(==)>(given: Option<T>, was: T, after: T) {
    (given.Some? ==> after == given.value) && (given.None? ==> after == was)
  }

  /** A patch: what is given is set, what is not stays, and so do the terms. */
  predicate PatchedBy(patch: Patch, now: Time, was: Plan, after: Plan) {
    && SameTerms(was, after) && after.updatedAt == now
    && Sets(patch.name, was.name, after.name) && Sets(patch.description, was.description, after.description)
    && Sets(patch.features, was.features, after.features) && Sets(patch.limits, was.limits, after.limits)
    && Sets(patch.metadata, was.metadata, after.metadata) && Sets(patch.active, was.active, after.active)
  }

  /** A new plan: active, with the fields of the input, an interval count of zero read as one. */
  predicate CreatedFrom(input: PlanInput, env: Env, plan: Plan) {
    && plan.name == input.name && plan.description == input.description && plan.amount == input.amount
    && plan.currency == input.currency && plan.interval == input.interval && plan.trialDays == input.trialDays
    && plan.features == input.features && plan.limits == input.limits && plan.metadata == input.metadata
    && plan.intervalCount == (if input.intervalCount == 0 then 1 else input.intervalCount)
    && plan.providerId == (if env.gateway.Accepts? then env.gateway.assignedId else [])
    && plan.active && plan.createdAt == env.now && plan.updatedAt == env.now
  }

  /** What a successful call leaves under its id, and that it touches no other plan. */
  lemma CallLeaves(s: Memo, cmd: Command, env: Env)
    requires Keyed(s.plans) && Coherent(s) && (Reply(s, cmd, env).Done? || Reply(s, cmd, env).Removed?)
    ensures var after := Get(Next(s, cmd, env).plans, cmd.id);
            match cmd
            case Create(input, id) => after.Some? && after.value.id == id && CreatedFrom(input, env, after.value)
            case Update(id, patch) =>
              after.Some? && id in s.plans && PatchedBy(patch, env.now, s.plans[id], after.value)
            case Delete(_) => after == None
            case Read(id) => after == Get(s.plans, id)
    ensures forall id :: id != cmd.id ==> Get(Next(s, cmd, env).plans, id) == Get(s.plans, id)
    ensures Reply(s, cmd, env).Done? ==> Get(Next(s, cmd, env).plans, cmd.id) == Some(Reply(s, cmd, env).plan)
  {
  }

  lemma {:induction false} OthersKeep(s: Memo, calls: seq<Call>, id: Id)
    requires Keyed(s.plans) && Coherent(s)
    requires forall k :: 0 <= k < |calls| ==> calls[k].cmd.Read? || calls[k].cmd.id != id
    ensures Get(After(s, calls).plans, id) == Get(s.plans, id)
  {
    if calls != [] {
      var before := calls[..|calls| - 1];
      OthersKeep(s, before, id);
      RunCoherent(s, before);
    }
  }
}
