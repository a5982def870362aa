/** The plan cache (plancache.go): entries with an expiry, evicted only by being overwritten or deleted. */
module PlanCaches {
  import opened Types

  datatype Entry = Entry(plan: Plan, expiresAt: Time)

  /** What the cache answers at an instant; the last instant of an entry is `expiresAt` itself. */
  function Fresh(entries: map<Id, Entry>, id: Id, now: Time): Option<Plan> {
    if id in entries && now <= entries[id].expiresAt then Some(entries[id].plan) else None
  }

  class PlanCache {
    var entries: map<Id, Entry>
    const ttl: int

    constructor (ttl: int)
      ensures entries == map[] && this.ttl == ttl
    {
      entries := map[];
      this.ttl := ttl;
    }

    method Get(id: Id, now: Time) returns (plan: Option<Plan>)
      ensures plan == Fresh(entries, id, now)
    {
      if id !in entries {
        return None;
      }
      var entry := entries[id];
      if now > entry.expiresAt {
        return None;
      }
      return Some(entry.plan);
    }

    method Set(plan: Plan, now: Time)
      modifies this
      ensures entries == old(entries)[plan.id := Entry(plan, now + ttl)]
      ensures forall at :: Fresh(entries, plan.id, at) == if at <= now + ttl then Some(plan) else None
      ensures forall id, at :: id != plan.id ==> Fresh(entries, id, at) == old(Fresh(entries, id, at))
    {
      entries := entries[plan.id := Entry(plan, now + ttl)];
    }

    method Delete(id: Id)
      modifies this
      ensures entries == old(entries) - {id}
      ensures forall at :: Fresh(entries, id, at) == None
      ensures forall other, at :: other != id ==> Fresh(entries, other, at) == old(Fresh(entries, other, at))
    {
      entries := entries - {id};
    }
  }
}
