/** The sharded in-memory subscription store run by one caller at a time
    (store/memory/memory.go:376-584): it refines the single-lock store operation by operation. */
module ShardedStores {
  import opened Types
  import opened SubscriptionIndex
  import opened SubscriptionStores

  const NUM_SHARDS := 256

  /** Any fixed 32-bit hash of the id; nothing below depends on which. */
  type Hash = Text -> Sum32

  type Shard = map<Id, Subscription>

  function Slot(hash: Hash, id: Id): (i: nat)
    ensures i < NUM_SHARDS
  {
    hash(id) % NUM_SHARDS
  }

  /** Every record sits in the shard its hash selects. */
  ghost predicate Placed(hash: Hash, shards: seq<Shard>) {
    && |shards| == NUM_SHARDS
    && (forall i, id :: 0 <= i < NUM_SHARDS && id in shards[i] ==> Slot(hash, id) == i)
  }

  ghost function Ids(shards: seq<Shard>): set<Id> {
    set i, id | 0 <= i < |shards| && id in shards[i] :: id
  }

  /** The primary map the shards make up together. */
  ghost function Union(hash: Hash, shards: seq<Shard>): map<Id, Subscription>
    requires Placed(hash, shards)
  {
    map id | id in Ids(shards) :: shards[Slot(hash, id)][id]
  }

  lemma UnionAt(hash: Hash, shards: seq<Shard>, id: Id)
    requires Placed(hash, shards)
    ensures Get(Union(hash, shards), id) == Get(shards[Slot(hash, id)], id)
  {
  }

  /** Writing or removing one record in its own shard does the same to the union. */
  lemma UnionPut(hash: Hash, shards: seq<Shard>, sub: Subscription)
    requires Placed(hash, shards)
    ensures var i := Slot(hash, sub.id);
            var after := shards[i := shards[i][sub.id := sub]];
            Placed(hash, after) && Union(hash, after) == Union(hash, shards)[sub.id := sub]
  {
    var i := Slot(hash, sub.id);
    var after := shards[i := shards[i][sub.id := sub]];
    forall id ensures Get(Union(hash, after), id) == Get(Union(hash, shards)[sub.id := sub], id) {
      UnionAt(hash, shards, id);
      UnionAt(hash, after, id);
    }
    SameByGet(Union(hash, after), Union(hash, shards)[sub.id := sub]);
  }

  /** What the parts of the store are after a save. */
  lemma SavedParts(hash: Hash, shards: seq<Shard>, st: StoreState, sub: Subscription)
    requires Placed(hash, shards) && st.subs == Union(hash, shards) && KeyedById(st.subs)
    ensures var i := Slot(hash, sub.id);
            var after, was := shards[i := shards[i][sub.id := sub]], Get(shards[i], sub.id);
            && Placed(hash, after) && KeyedById(Union(hash, after))
            && Next(st, Save(sub)) == StoreState(Union(hash, after), ProviderAfter(st.byProvider, Save(sub), was),
                                                 ActiveAfter(st.activeBy, Save(sub), was))
  {
    UnionAt(hash, shards, sub.id);
    UnionPut(hash, shards, sub);
  }

  lemma UnionRemove(hash: Hash, shards: seq<Shard>, id: Id)
    requires Placed(hash, shards)
    ensures var i := Slot(hash, id);
            var after := shards[i := shards[i] - {id}];
            Placed(hash, after) && Union(hash, after) == Union(hash, shards) - {id}
  {
    var i := Slot(hash, id);
    var after := shards[i := shards[i] - {id}];
    forall other ensures Get(Union(hash, after), other) == Get(Union(hash, shards) - {id}, other) {
      UnionAt(hash, shards, other);
      UnionAt(hash, after, other);
    }
    SameByGet(Union(hash, after), Union(hash, shards) - {id});
  }

  lemma SameByGet<K, V>(a: map<K, V>, b: map<K, V>)
    requires forall k :: Get(a, k) == Get(b, k)
    ensures a == b
  {
    forall k ensures k in a <==> k in b {
      assert Get(a, k) == Get(b, k);
    }
    forall k | k in a ensures a[k] == b[k] {
      assert Get(a, k) == Get(b, k);
    }
  }

  /** The ids held by the first `n` shards. */
  ghost function UpToSlot(hash: Hash, shards: seq<Shard>, n: nat): (ids: set<Id>)
    requires Placed(hash, shards)
    ensures ids <= Union(hash, shards).Keys
  {
    set id | id in Union(hash, shards) && Slot(hash, id) < n
  }

  lemma NextSlot(hash: Hash, shards: seq<Shard>, n: nat)
    requires Placed(hash, shards) && n < NUM_SHARDS
    ensures UpToSlot(hash, shards, n + 1) == UpToSlot(hash, shards, n) + shards[n].Keys
    ensures UpToSlot(hash, shards, n) !! shards[n].Keys
    ensures forall id :: id in shards[n] ==> Get(Union(hash, shards), id) == Some(shards[n][id])
  {
    forall id | id in shards[n] ensures Get(Union(hash, shards), id) == Some(shards[n][id]) {
      UnionAt(hash, shards, id);
    }
    forall id | id in Union(hash, shards) && Slot(hash, id) == n ensures id in shards[n] {
      UnionAt(hash, shards, id);
    }
  }

  /** What an index lookup returns here: a dangling entry reads as a missing record, because the
      shard is searched again instead of dereferenced. */
  function Reread(r: Lookup): Lookup {
    if r.Panic? then Missing else r
  }

  ghost predicate Parts<T>(a: set<T>, b: set<T>, all: set<T>) {
    a !! b && a + b == all && a <= all
  }

  lemma MoveOver<T>(a: set<T>, b: set<T>, all: set<T>, x: T)
    requires Parts(a, b, all) && x in b
    ensures Parts(a + {x}, b - {x}, all)
  {
  }

  /** The part of a listing done under one shard's read lock: appends the shard's matches. */
  method ScanShard(shard: Shard, f: Filter, out0: seq<Subscription>, ghost subs: map<Id, Subscription>,
                   ghost before: set<Id>)
    returns (out: seq<Subscription>)
    requires KeyedById(subs) && before <= subs.Keys && before !! shard.Keys
    requires forall id :: id in shard ==> Get(subs, id) == Some(shard[id])
    requires multiset(out0) == multiset(Listing(subs, before, f))
    ensures before + shard.Keys <= subs.Keys
    ensures multiset(out) == multiset(Listing(subs, before + shard.Keys, f))
  {
    out := out0;
    var rest := shard.Keys;
    ghost var seen, all := before, before + shard.Keys;
    while rest != {}
      invariant rest <= shard.Keys && Parts(seen, rest, all)
      invariant multiset(out) == multiset(Listing(subs, seen, f))
      decreases |rest|
    {
      var id :| id in rest;
      assert Get(subs, id) == Some(shard[id]);
      ListingGrows(subs, seen, id, f, out);
      MoveOver(seen, rest, all, id);
      seen := seen + {id};
      rest := rest - {id};
      if Matches(f, shard[id]) {
        out := out + [shard[id]];
      }
    }
  }

  class ShardedSubscriptionStore {
    const hash: Hash
    const shards: array<Shard>
    var byProviderID: map<Text, Id>
    var activeBySubscriber: map<Text, Id>

    ghost predicate Valid()
      reads this, shards
    {
      && Placed(hash, shards[..])
      && KeyedById(Union(hash, shards[..]))
    }

    /** The single-lock store this one stands for. */
    ghost function State(): StoreState
      reads this, shards
      requires Valid()
    {
      StoreState(Union(hash, shards[..]), byProviderID, activeBySubscriber)
    }

    constructor (hash: Hash)
      ensures Valid() && State() == EMPTY && this.hash == hash && fresh(shards)
    {
      this.hash := hash;
      shards := new Shard[NUM_SHARDS](_ => map[]);
      byProviderID, activeBySubscriber := map[], map[];
    }

    method SaveSubscription(sub: Subscription)
      requires Valid()
      modifies this, shards
      ensures Valid() && State() == Next(old(State()), Save(sub))
    {
      ghost var st := State();
      SavedParts(hash, shards[..], st, sub);
      var i := Slot(hash, sub.id);
      var was := Get(shards[i], sub.id);
      shards[i] := shards[i][sub.id := sub];
      assert shards[..] == old(shards[..])[i := old(shards[i])[sub.id := sub]];

      if was.Some? && was.value.providerId != [] {
        byProviderID := byProviderID - {was.value.providerId};
      }
      if sub.providerId != [] {
        byProviderID := byProviderID[sub.providerId := sub.id];
      }

      var newActive := IsActive(sub);
      if was.Some? && IsActive(was.value) && !newActive {
        if IdAt(activeBySubscriber, was.value.subscriberId) == sub.id {
          activeBySubscriber := activeBySubscriber - {was.value.subscriberId};
        }
      }
      if newActive {
        activeBySubscriber := activeBySubscriber[sub.subscriberId := sub.id];
      }
    }

    method GetSubscription(id: Id) returns (r: Option<Subscription>)
      requires Valid()
      ensures r == Get(State().subs, id)
    {
      UnionAt(hash, shards[..], id);
      r := Get(shards[Slot(hash, id)], id);
    }

    method GetSubscriptionByProviderID(pid: Text) returns (r: Lookup)
      requires Valid()
      ensures r == Reread(ByProvider(State(), pid))
    {
      if pid !in byProviderID {
        return Missing;
      }
      var sub := GetSubscription(byProviderID[pid]);
      r := if sub.Some? then Found(sub.value) else Missing;
    }

    method GetActiveSubscription(subscriber: Text) returns (r: Lookup)
      requires Valid()
      ensures r == Reread(ActiveOf(State(), subscriber))
    {
      if subscriber !in activeBySubscriber {
        return Missing;
      }
      var sub := GetSubscription(activeBySubscriber[subscriber]);
      r := if sub.Some? then Found(sub.value) else Missing;
    }

    method ListSubscriptions(f: Filter) returns (out: seq<Subscription>)
      requires Valid()
      ensures multiset(out) == multiset(Listing(State().subs, State().subs.Keys, f))
      ensures forall sub :: multiset(out)[sub] ==
                if && Get(State().subs, sub.id) == Some(sub)
                   && f.subscriberId in {[], sub.subscriberId} && f.planId in {[], sub.planId}
                   && f.status in {None, Some(sub.status)}
                then 1 else 0
    {
      out := [];
      ghost var all := shards[..];
      ghost var subs := State().subs;
      for i := 0 to NUM_SHARDS
        invariant multiset(out) == multiset(Listing(subs, UpToSlot(hash, all, i), f))
      {
        NextSlot(hash, all, i);
        out := ScanShard(shards[i], f, out, subs, UpToSlot(hash, all, i));
      }
      ListedExactly(subs, f, out);
    }

    method DeleteSubscription(id: Id) returns (r: Reply)
      requires Valid()
      modifies this, shards
      ensures Valid() && r == ReplyTo(old(State()), Delete(id)) && State() == Next(old(State()), Delete(id))
    {
      UnionAt(hash, shards[..], id);
      UnionRemove(hash, shards[..], id);
      var i := Slot(hash, id);
      if id !in shards[i] {
        return NotFound;
      }
      var sub := shards[i][id];
      shards[i] := shards[i] - {id};
      assert shards[..] == old(shards[..])[i := old(shards[i]) - {id}];

      if sub.providerId != [] {
        byProviderID := byProviderID - {sub.providerId};
      }
      if IdAt(activeBySubscriber, sub.subscriberId) == id {
        activeBySubscriber := activeBySubscriber - {sub.subscriberId};
      }
      r := Done;
    }

    method CreateSubscriptionIfNotActive(sub: Subscription) returns (r: Reply)
      requires Valid()
      modifies this, shards
      ensures Valid() && r == ReplyTo(old(State()), Create(sub)) && State() == Next(old(State()), Create(sub))
    {
      if sub.subscriberId in activeBySubscriber {
        return AlreadyExists;
      }
      UnionPut(hash, shards[..], sub);
      var i := Slot(hash, sub.id);
      shards[i] := shards[i][sub.id := sub];
      assert shards[..] == old(shards[..])[i := old(shards[i])[sub.id := sub]];
      if sub.providerId != [] {
        byProviderID := byProviderID[sub.providerId := sub.id];
      }
      if IsActive(sub) {
        activeBySubscriber := activeBySubscriber[sub.subscriberId := sub.id];
      }
      r := Done;
    }
  }

  /** Sequential refinement. Driven by the same writes from equal states, the two stores give the
      same replies and stay equal, whatever the writes are; lookups then differ only where the
      single-lock store would dereference a dangling entry. */
  method Lockstep(flat: SubscriptionStore, sharded: ShardedSubscriptionStore, ops: seq<Op>)
    returns (flatReplies: seq<Reply>, shardedReplies: seq<Reply>)
    requires flat.Valid() && sharded.Valid() && flat.State() == sharded.State()
    modifies flat, sharded, sharded.shards
    ensures flat.Valid() && sharded.Valid()
    ensures flatReplies == shardedReplies && |flatReplies| == |ops|
    ensures flat.State() == sharded.State() == Run(old(flat.State()), ops)
  {
    flatReplies, shardedReplies := [], [];
    assert ops[..0] == [];
    for i := 0 to |ops|
      invariant flat.Valid() && sharded.Valid()
      invariant flatReplies == shardedReplies && |flatReplies| == i
      invariant flat.State() == sharded.State() == Run(old(flat.State()), ops[..i])
    {
      assert ops[..i + 1][..i] == ops[..i];
      var a, b := Done, Done;
      match ops[i] {
        case Save(sub) =>
          flat.SaveSubscription(sub);
          sharded.SaveSubscription(sub);
        case Delete(id) =>
          a := flat.DeleteSubscription(id);
          b := sharded.DeleteSubscription(id);
        case Create(sub) =>
          a := flat.CreateSubscriptionIfNotActive(sub);
          b := sharded.CreateSubscriptionIfNotActive(sub);
      }
      flatReplies, shardedReplies := flatReplies + [a], shardedReplies + [b];
    }
    assert ops[..|ops|] == ops;
  }
}
