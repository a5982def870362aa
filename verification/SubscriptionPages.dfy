/** A page of subscriptions from the store up (pagination.go:127-170): the filtered listing comes back in
    map order, and the page must not depend on it. */
module SubscriptionPages {
  import opened Types
  import opened ByteOrder
  import opened Pagination
  import opened SubscriptionIndex
  import opened SubscriptionStores

  function IdOf(sub: Subscription): Text {
    sub.id
  }

  /** A sorted arrangement of a set without key clashes is strictly sorted. */
  lemma SortedSet<T>(listed: seq<T>, items: set<T>, key: KeyOf<T>)
    requires Sorted(listed, key) && multiset(listed) == multiset(items)
    requires forall x, y :: x in items && y in items && key(x) == key(y) ==> x == y
    ensures StrictlySorted(listed, key)
  {
    forall i, j | 0 <= i < j < |listed| ensures Below(key(listed[i]), key(listed[j])) {
      Trichotomy(key(listed[i]), key(listed[j]));
      if key(listed[i]) == key(listed[j]) {
        assert listed[i] in multiset(items) && listed[j] in multiset(items);
        CountsTwice(listed, i, j);
        assert false;
      }
    }
  }

  /** A strictly sorted arrangement of the records that match. */
  ghost predicate SortedMatches(subs: map<Id, Subscription>, f: Filter, sorted: seq<Subscription>) {
    StrictlySorted(sorted, IdOf) && multiset(sorted) == multiset(Listing(subs, subs.Keys, f))
  }

  /** There is such an arrangement, and the page is cut from it whichever way it is arrived at. */
  method ListSubscriptionsPage(store: SubscriptionStore, f: Filter, cursor: Text, limit: int)
    returns (page: Page<Subscription>)
    requires store.Valid()
    ensures exists sorted :: SortedMatches(store.subs, f, sorted)
    ensures forall sorted :: SortedMatches(store.subs, f, sorted) ==> page == PageOf(sorted, IdOf, cursor, limit)
    ensures limit > 0 ==> |page.items| <= limit && (page.nextCursor != [] ==> |page.items| == limit)
    ensures limit <= 0 ==> |page.items| <= 20 && (page.nextCursor != [] ==> |page.items| == 20)
  {
    var found := store.ListSubscriptions(f);
    var listed := new Subscription[|found|](i requires 0 <= i < |found| => found[i]);
    assert listed[..] == found;
    page := ListPage(listed, IdOf, cursor, limit);
    ghost var arranged := listed[..];
    SortedSet(arranged, Listing(store.subs, store.subs.Keys, f), IdOf);
    assert SortedMatches(store.subs, f, arranged);
    forall sorted | SortedMatches(store.subs, f, sorted) ensures sorted == arranged {
      SortedUnique(sorted, arranged, IdOf);
    }
  }

  /** Main result. Whatever orders the store lists in, following the cursors of an unchanged store until
      there is none returns every matching record exactly once, by id, unless the pages hold one record
      each and the first has the empty id. */
  lemma {:induction false} PagesReturnMatches(subs: map<Id, Subscription>, f: Filter, limit: int,
                                              sorted: seq<Subscription>,
                           pages: seq<Page<Subscription>>, sub: Subscription)
    requires KeyedById(subs) && StrictlySorted(sorted, IdOf)
    requires multiset(sorted) == multiset(Listing(subs, subs.Keys, f))
    requires IsTraversal(pages, Paged(sorted, IdOf, limit)) && !StopsShort(sorted, IdOf, limit)
    ensures multiset(Concat(pages))[sub] ==
            if && Get(subs, sub.id) == Some(sub)
               && f.subscriberId in {[], sub.subscriberId} && f.planId in {[], sub.planId}
               && f.status in {None, Some(sub.status)}
            then 1 else 0
  {
    ListedExactly(subs, f, sorted);
    TraversalComplete(pages, sorted, IdOf, limit);
  }
}
