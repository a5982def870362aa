/** The single-lock in-memory subscription store (store/memory/memory.go:91-249). Every operation
    holds the one lock throughout, so each method is one atomic step over the three maps. */
module SubscriptionStores {
  import opened Types
  import opened SubscriptionIndex

  /** What a listing must return, in any order. */
  ghost function Listing(subs: map<Id, Subscription>, ids: set<Id>, f: Filter): set<Subscription>
    requires ids <= subs.Keys
  {
    set id | id in ids && Matches(f, subs[id]) :: subs[id]
  }

  function Appended(out: seq<Subscription>, sub: Subscription, f: Filter): seq<Subscription> {
    if Matches(f, sub) then out + [sub] else out
  }

  /** One more scanned record adds exactly its own match to the listing. */
  lemma ListingGrows(subs: map<Id, Subscription>, ids: set<Id>, id: Id, f: Filter, out: seq<Subscription>)
    requires KeyedById(subs) && ids <= subs.Keys && id in subs && id !in ids
    requires multiset(out) == multiset(Listing(subs, ids, f))
    ensures multiset(Appended(out, subs[id], f)) == multiset(Listing(subs, ids + {id}, f))
  {
    var less, more := Listing(subs, ids, f), Listing(subs, ids + {id}, f);
    assert subs[id] !in less;
    forall sub | sub in less ensures sub in more {
      assert sub.id in ids + {id};
    }
    if Matches(f, subs[id]) {
      assert id in ids + {id};
      assert more == less + {subs[id]};
    } else {
      assert more == less;
    }
  }

  /** A listing holds a stored record once if each field the filter gives is the record's own, and nothing else. */
  lemma ListedExactly(subs: map<Id, Subscription>, f: Filter, out: seq<Subscription>)
    requires KeyedById(subs) && multiset(out) == multiset(Listing(subs, subs.Keys, f))
    ensures forall sub :: multiset(out)[sub] ==
              if && Get(subs, sub.id) == Some(sub)
                 && f.subscriberId in {[], sub.subscriberId} && f.planId in {[], sub.planId}
                 && f.status in {None, Some(sub.status)}
              then 1 else 0
  {
    forall sub ensures sub in Listing(subs, subs.Keys, f) <==> Get(subs, sub.id) == Some(sub) && Matches(f, sub) {
      if Get(subs, sub.id) == Some(sub) && Matches(f, sub) {
        assert sub.id in subs.Keys;
      }
    }
  }

  class SubscriptionStore {
    var subs: map<Id, Subscription>
    var byProviderID: map<Text, Id>
    var activeBySubscriber: map<Text, Id>

    ghost predicate Valid()
      reads this
    {
      KeyedById(subs)
    }

    ghost function State(): StoreState
      reads this
    {
      StoreState(subs, byProviderID, activeBySubscriber)
    }

    constructor ()
      ensures Valid() && State() == EMPTY && Exact(State())
    {
      subs, byProviderID, activeBySubscriber := map[], map[], map[];
    }

    method SaveSubscription(sub: Subscription)
      requires Valid()
      modifies this
      ensures Valid() && State() == Next(old(State()), Save(sub))
    {
      var was := Get(subs, sub.id);
      if was.Some? && was.value.providerId != [] {
        byProviderID := byProviderID - {was.value.providerId};
      }
      if sub.providerId != [] {
        byProviderID := byProviderID[sub.providerId := sub.id];
      }
      var newActive := IsActive(sub);
      if was.Some? {
        var oldActive := IsActive(was.value);
        if oldActive && !newActive {
          if IdAt(activeBySubscriber, was.value.subscriberId) == sub.id {
            activeBySubscriber := activeBySubscriber - {was.value.subscriberId};
          }
        }
      }
      if newActive {
        activeBySubscriber := activeBySubscriber[sub.subscriberId := sub.id];
      }
      subs := subs[sub.id := sub];
    }

    method GetSubscription(id: Id) returns (r: Option<Subscription>)
      ensures r == Get(subs, id)
    {
      r := Get(subs, id);
    }

    method GetSubscriptionByProviderID(pid: Text) returns (r: Lookup)
      ensures r == ByProvider(State(), pid)
    {
      if pid !in byProviderID {
        return Missing;
      }
      var id := byProviderID[pid];
      r := if id in subs then Found(subs[id]) else Panic;
    }

    method GetActiveSubscription(subscriber: Text) returns (r: Lookup)
      ensures r == ActiveOf(State(), subscriber)
    {
      if subscriber !in activeBySubscriber {
        return Missing;
      }
      var id := activeBySubscriber[subscriber];
      r := if id in subs then Found(subs[id]) else Panic;
    }

    method ListSubscriptions(f: Filter) returns (out: seq<Subscription>)
      requires Valid()
      ensures multiset(out) == multiset(Listing(subs, subs.Keys, f))
      ensures forall sub :: multiset(out)[sub] ==
                if && Get(subs, sub.id) == Some(sub)
                   && f.subscriberId in {[], sub.subscriberId} && f.planId in {[], sub.planId}
                   && f.status in {None, Some(sub.status)}
                then 1 else 0
    {
      out := [];
      var rest := subs.Keys;
      while rest != {}
        invariant rest <= subs.Keys
        invariant multiset(out) == multiset(Listing(subs, subs.Keys - rest, f))
        decreases |rest|
      {
        var id :| id in rest;
        ListingGrows(subs, subs.Keys - rest, id, f, out);
        assert subs.Keys - (rest - {id}) == subs.Keys - rest + {id};
        rest := rest - {id};
        if Matches(f, subs[id]) {
          out := out + [subs[id]];
        }
      }
      assert subs.Keys - {} == subs.Keys;
      ListedExactly(subs, f, out);
    }

    method DeleteSubscription(id: Id) returns (r: Reply)
      requires Valid()
      modifies this
      ensures Valid() && r == ReplyTo(old(State()), Delete(id)) && State() == Next(old(State()), Delete(id))
    {
      if id !in subs {
        return NotFound;
      }
      var sub := subs[id];
      if sub.providerId != [] {
        byProviderID := byProviderID - {sub.providerId};
      }
      if IdAt(activeBySubscriber, sub.subscriberId) == id {
        activeBySubscriber := activeBySubscriber - {sub.subscriberId};
      }
      subs := subs - {id};
      r := Done;
    }

    method CreateSubscriptionIfNotActive(sub: Subscription) returns (r: Reply)
      requires Valid()
      modifies this
      ensures Valid() && r == ReplyTo(old(State()), Create(sub)) && State() == Next(old(State()), Create(sub))
    {
      if sub.subscriberId in activeBySubscriber {
        return AlreadyExists;
      }
      subs := subs[sub.id := sub];
      if sub.providerId != [] {
        byProviderID := byProviderID[sub.providerId := sub.id];
      }
      if IsActive(sub) {
        activeBySubscriber := activeBySubscriber[sub.subscriberId := sub.id];
      }
      r := Done;
    }
  }
}
