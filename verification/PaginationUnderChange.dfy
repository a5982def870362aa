/** A traversal while items come and go between its calls (pagination.go:65-111, 127-170): what the
    pages add up to as long as the item each cursor names is still listed. */
module PaginationUnderChange {
  import opened Types
  import opened ByteOrder
  import opened Base64Cursor
  import opened Pagination

  // ---------------------------------------------------------------- ids only

  ghost predicate Increasing(ids: seq<Text>) {
    forall i, j :: 0 <= i < j < |ids| ==> Below(ids[i], ids[j])
  }

  ghost predicate AllAbove(ids: seq<Text>, lo: Text) {
    forall i :: 0 <= i < |ids| ==> Below(lo, ids[i])
  }

  ghost predicate AllAtMost(ids: seq<Text>, hi: Text) {
    forall i :: 0 <= i < |ids| ==> AtMost(ids[i], hi)
  }

  /** The page reaches up to the id its cursor names. */
  ghost predicate Capped(page: seq<Text>, next: Option<Text>, lo: Text) {
    next.Some? ==> AllAtMost(page, next.value) && Below(lo, next.value)
  }

  /** Of the ids listed beyond `lo` the page leaves out only those beyond its cursor. */
  ghost predicate Covers(page: seq<Text>, next: Option<Text>, listed: seq<Text>, lo: Text) {
    forall id :: id in listed && Below(lo, id) ==> id in page || (next.Some? && Below(next.value, id))
  }

  /** A page does its job: sorted, beyond `lo`, up to its cursor, and leaving nothing out. */
  ghost predicate Serves(page: seq<Text>, next: Option<Text>, listed: seq<Text>, lo: Text) {
    Increasing(page) && AllAbove(page, lo) && Capped(page, next, lo) && Covers(page, next, listed, lo)
  }

  lemma BelowAtMost(a: Text, b: Text, c: Text)
    requires AtMost(a, b) && Below(b, c)
    ensures Below(a, c)
  {
    Trichotomy(a, b);
    if a != b {
      Transitive(a, b, c);
    }
  }

  lemma IncreasingConcat(a: seq<Text>, b: seq<Text>, mid: Text)
    requires Increasing(a) && Increasing(b) && AllAtMost(a, mid) && AllAbove(b, mid)
    ensures Increasing(a + b)
  {
    forall i, j | 0 <= i < |a| <= j < |a| + |b| ensures Below((a + b)[i], (a + b)[j]) {
      BelowAtMost(a[i], mid, b[j - |a|]);
    }
  }

  lemma AtMostConcat(a: seq<Text>, b: seq<Text>, lo: Text, hi: Text)
    requires AllAtMost(a, lo) && Below(lo, hi) && AllAtMost(b, hi)
    ensures AllAtMost(a + b, hi)
  {
    forall i | 0 <= i < |a| ensures AtMost(a[i], hi) {
      Asymmetric(lo, hi);
      AtMostTransitive(a[i], lo, hi);
    }
  }

  /** A call by ids: what was listed, what was returned, and what its cursor names. */
  datatype Call = Call(page: seq<Text>, next: Option<Text>, listed: seq<Text>)

  /** The id that call `m` resumes behind. */
  ghost function From(calls: seq<Call>, m: nat): Text
    requires m <= |calls|
  {
    if m == 0 || calls[m - 1].next.None? then [] else calls[m - 1].next.value
  }

  /** Call `m` serves the listing of its moment, and has a cursor unless it is the last. */
  ghost predicate ServedAt(calls: seq<Call>, m: nat)
    requires m < |calls|
  {
    && Serves(calls[m].page, calls[m].next, calls[m].listed, From(calls, m))
    && (m < |calls| - 1 ==> calls[m].next.Some?)
  }

  ghost predicate Served(calls: seq<Call>) {
    forall m: nat :: m < |calls| ==> ServedAt(calls, m)
  }

  ghost function AllIds(calls: seq<Call>): seq<Text> {
    if calls == [] then [] else AllIds(calls[..|calls| - 1]) + calls[|calls| - 1].page
  }

  lemma AllIdsStep(calls: seq<Call>, m: nat)
    requires m < |calls|
    ensures AllIds(calls[..m + 1]) == AllIds(calls[..m]) + calls[m].page
  {
    assert calls[..m + 1][..m] == calls[..m];
  }

  lemma IncreaseStep(before: seq<Text>, page: seq<Text>, next: Option<Text>, lo: Text)
    requires Increasing(before)
    requires AllAtMost(before, lo)
    requires Increasing(page)
    requires AllAbove(page, lo)
    requires Capped(page, next, lo)
    ensures Increasing(before + page)
    ensures next.Some? ==> AllAtMost(before + page, next.value)
  {
    IncreasingConcat(before, page, lo);
    if next.Some? {
      AtMostConcat(before, page, lo, next.value);
    }
  }

  lemma {:induction false} PagesIncrease(calls: seq<Call>, m: nat)
    requires Served(calls) && m <= |calls|
    ensures Increasing(AllIds(calls[..m]))
    ensures (m == 0 || calls[m - 1].next.Some?) ==> AllAtMost(AllIds(calls[..m]), From(calls, m))
  {
    if m > 0 {
      PagesIncrease(calls, m - 1);
      AllIdsStep(calls, m - 1);
      assert ServedAt(calls, m - 1) && (m > 1 ==> ServedAt(calls, m - 2));
      IncreaseStep(AllIds(calls[..m - 1]), calls[m - 1].page, calls[m - 1].next, From(calls, m - 1));
    }
  }

  /** What has to be returned by now: everything up to the cursor, or everything once there is none. */
  ghost predicate Due(next: Option<Text>, id: Text) {
    next.None? || AtMost(id, next.value)
  }

  /** An id listed in every call is returned before the traversal passes it. */
  lemma {:induction false} NoneMissed(calls: seq<Call>, m: nat, id: Text)
    requires Served(calls) && m <= |calls| && id != []
    requires forall i :: 0 <= i < m ==> id in calls[i].listed
    ensures m > 0 && Due(calls[m - 1].next, id) ==> id in AllIds(calls[..m])
  {
    if m > 0 {
      NoneMissed(calls, m - 1, id);
      AllIdsStep(calls, m - 1);
      assert ServedAt(calls, m - 1) && (m > 1 ==> ServedAt(calls, m - 2));
    }
  }

  // ---------------------------------------------------------------- the listing call serves

  function Ids<T>(items: seq<T>, key: KeyOf<T>): seq<Text> {
    seq(|items|, i requires 0 <= i < |items| => key(items[i]))
  }

  ghost predicate NonEmptyIds<T>(items: seq<T>, key: KeyOf<T>) {
    forall i :: 0 <= i < |items| ==> key(items[i]) != []
  }

  /** What the next call will decode, if there is one. */
  function NextId<T>(page: Page<T>): Option<Text> {
    if page.nextCursor == [] then None else Some(DecodeCursor(page.nextCursor))
  }

  /** Where a listing with the cursor id `lo` begins: everything before is at most `lo`, everything from
      there on above it. */
  lemma StartSplits<T>(sorted: seq<T>, key: KeyOf<T>, lo: Text) returns (start: nat)
    requires StrictlySorted(sorted, key) && NonEmptyIds(sorted, key)
    requires lo == [] || exists k :: 0 <= k < |sorted| && key(sorted[k]) == lo
    ensures start == (if lo == [] then 0 else StartAfter(sorted, key, lo)) && start <= |sorted|
    ensures forall i :: 0 <= i < start ==> AtMost(key(sorted[i]), lo)
    ensures forall i :: start <= i < |sorted| ==> Below(lo, key(sorted[i]))
  {
    if lo == [] {
      start := 0;
    } else {
      var k :| 0 <= k < |sorted| && key(sorted[k]) == lo;
      Irreflexive(lo);
      StartAfterFirst(sorted, key, lo, k);
      start := k + 1;
      forall i | 0 <= i < k ensures AtMost(key(sorted[i]), lo) {
        Asymmetric(key(sorted[i]), lo);
      }
    }
  }

  lemma {:induction false} CutServes<T>(sorted: seq<T>, key: KeyOf<T>, lo: Text, start: nat, n: nat)
    requires StrictlySorted(sorted, key) && NonEmptyIds(sorted, key) && start <= |sorted| && n >= 1
    requires forall i :: 0 <= i < start ==> AtMost(key(sorted[i]), lo)
    requires forall i :: start <= i < |sorted| ==> Below(lo, key(sorted[i]))
    ensures var page := PageAt(sorted, key, start, n);
            Serves(Ids(page.items, key), NextId(page), Ids(sorted, key), lo)
  {
    var page := PageAt(sorted, key, start, n);
    var ids := Ids(page.items, key);
    assert forall i :: 0 <= i < |ids| ==> ids[i] == key(sorted[start + i]);
    if |sorted| - start > n {
      var last := key(sorted[start + n - 1]);
      CursorRoundTrip(last);
      forall i | 0 <= i < |ids| ensures AtMost(ids[i], last) {
        if start + i < start + n - 1 {
          Asymmetric(ids[i], last);
        } else {
          Irreflexive(last);
        }
      }
    }
    forall id | id in Ids(sorted, key) && Below(lo, id)
      ensures id in ids || (NextId(page).Some? && Below(NextId(page).value, id))
    {
      var i :| 0 <= i < |sorted| && Ids(sorted, key)[i] == id;
      if start <= i < start + |ids| {
        assert ids[i - start] == id;
      }
    }
  }

  lemma PageServes<T>(sorted: seq<T>, key: KeyOf<T>, cursor: Text, limit: int)
    requires StrictlySorted(sorted, key) && NonEmptyIds(sorted, key)
    requires DecodeCursor(cursor) == [] || exists k :: 0 <= k < |sorted| && key(sorted[k]) == DecodeCursor(cursor)
    ensures var page := PageOf(sorted, key, cursor, limit);
            Serves(Ids(page.items, key), NextId(page), Ids(sorted, key), DecodeCursor(cursor))
  {
    var start := StartSplits(sorted, key, DecodeCursor(cursor));
    CutServes(sorted, key, DecodeCursor(cursor), start, EffectiveLimit(limit));
  }

  // ---------------------------------------------------------------- whole traversals

  /** Call `m` lists `snapshots[m]` with the cursor of the page before, whose item is still in it. */
  ghost predicate CallMade<T>(pages: seq<Page<T>>, snapshots: seq<seq<T>>, key: KeyOf<T>, limit: int, m: nat)
    requires |pages| == |snapshots| && m < |pages|
  {
    var cursor := if m == 0 then [] else pages[m - 1].nextCursor;
    && StrictlySorted(snapshots[m], key) && NonEmptyIds(snapshots[m], key)
    && pages[m] == PageOf(snapshots[m], key, cursor, limit)
    && (m > 0 ==> cursor != [] && exists k :: 0 <= k < |snapshots[m]| && key(snapshots[m][k]) == DecodeCursor(cursor))
  }

  ghost predicate ChangingTraversal<T>(pages: seq<Page<T>>, snapshots: seq<seq<T>>, key: KeyOf<T>, limit: int) {
    |pages| == |snapshots| && forall m: nat :: m < |pages| ==> CallMade(pages, snapshots, key, limit, m)
  }

  ghost function Calls<T>(pages: seq<Page<T>>, snapshots: seq<seq<T>>, key: KeyOf<T>): seq<Call>
    requires |pages| == |snapshots|
  {
    seq(|pages|, m requires 0 <= m < |pages| => Call(Ids(pages[m].items, key), NextId(pages[m]),
        Ids(snapshots[m], key)))
  }

  lemma CallServes<T>(pages: seq<Page<T>>, snapshots: seq<seq<T>>, key: KeyOf<T>, limit: int, m: nat)
    requires |pages| == |snapshots| && m < |pages| && CallMade(pages, snapshots, key, limit, m)
    requires m < |pages| - 1 ==> CallMade(pages, snapshots, key, limit, m + 1)
    ensures ServedAt(Calls(pages, snapshots, key), m)
  {
    var cursor := if m == 0 then [] else pages[m - 1].nextCursor;
    assert From(Calls(pages, snapshots, key), m) == DecodeCursor(cursor);
    PageServes(snapshots[m], key, cursor, limit);
  }

  lemma CallsServed<T>(pages: seq<Page<T>>, snapshots: seq<seq<T>>, key: KeyOf<T>, limit: int)
    requires ChangingTraversal(pages, snapshots, key, limit)
    ensures Served(Calls(pages, snapshots, key))
  {
    forall m: nat | m < |pages| {
      CallServes(pages, snapshots, key, limit, m);
    }
  }

  /** Main result. Under arbitrary inserts and deletes between calls, as long as each cursor's item is
      still listed when it is used and ids are not empty, the returned ids are strictly increasing over
      all pages; and once the traversal has ended, an id listed in every call was returned exactly once. */
  lemma ChangingComplete<T>(pages: seq<Page<T>>, snapshots: seq<seq<T>>, key: KeyOf<T>, limit: int, id: Text)
    requires ChangingTraversal(pages, snapshots, key, limit)
    ensures Increasing(AllIds(Calls(pages, snapshots, key)))
    ensures (pages != [] && pages[|pages| - 1].nextCursor == [] && ListedThroughout(snapshots, key, id)
             ==> multiset(AllIds(Calls(pages, snapshots, key)))[id] == 1)
  {
    var calls := Calls(pages, snapshots, key);
    CallsServed(pages, snapshots, key, limit);
    PagesIncrease(calls, |calls|);
    assert calls[..|calls|] == calls;
    if pages != [] && pages[|pages| - 1].nextCursor == [] && ListedThroughout(snapshots, key, id) {
      assert CallMade(pages, snapshots, key, limit, 0) && id in Ids(snapshots[0], key);
      NoneMissed(calls, |calls|, id);
      OnceInIncreasing(AllIds(calls), id);
    }
  }

  ghost predicate ListedThroughout<T>(snapshots: seq<seq<T>>, key: KeyOf<T>, id: Text) {
    forall m :: 0 <= m < |snapshots| ==> id in Ids(snapshots[m], key)
  }

  lemma {:induction false} OnceInIncreasing(ids: seq<Text>, id: Text)
    requires Increasing(ids) && id in ids
    ensures multiset(ids)[id] == 1
  {
    var n := |ids| - 1;
    assert ids == ids[..n] + [ids[n]];
    if ids[n] == id {
      forall i | 0 <= i < n ensures ids[i] != id {
        Irreflexive(id);
      }
      assert id !in ids[..n];
    } else {
      OnceInIncreasing(ids[..n], id);
    }
  }

  /** The condition matters: a cursor whose item is gone starts over with the first page. */
  lemma LostCursorRestarts<T>(sorted: seq<T>, key: KeyOf<T>, cursor: Text, limit: int)
    requires forall k :: 0 <= k < |sorted| ==> key(sorted[k]) != DecodeCursor(cursor)
    ensures PageOf(sorted, key, cursor, limit) == PageOf(sorted, key, [], limit)
  {
    StartAfterNone(sorted, key, DecodeCursor(cursor));
  }

  /** So ids already behind the cursor are returned again, for every listing that still has one. */
  lemma LostCursorRepeats<T>(sorted: seq<T>, key: KeyOf<T>, cursor: Text, limit: int)
    requires StrictlySorted(sorted, key) && NonEmptyIds(sorted, key) && DecodeCursor(cursor) != [] && sorted != []
    ensures (forall i :: 0 <= i < |PageOf(sorted, key, cursor, limit).items| ==>
              Below(DecodeCursor(cursor), key(PageOf(sorted, key, cursor, limit).items[i])))
       <==> ((exists k :: 0 <= k < |sorted| && key(sorted[k]) == DecodeCursor(cursor))
             || Below(DecodeCursor(cursor), key(sorted[0])))
  {
    var lo, page := DecodeCursor(cursor), PageOf(sorted, key, cursor, limit);
    if exists k :: 0 <= k < |sorted| && key(sorted[k]) == lo {
      PageServes(sorted, key, cursor, limit);
      forall i | 0 <= i < |page.items| ensures Below(lo, key(page.items[i])) {
        assert Ids(page.items, key)[i] == key(page.items[i]);
      }
    } else {
      LostCursorRestarts(sorted, key, cursor, limit);
      assert page.items != [] && page.items[0] == sorted[0];
      if Below(lo, key(sorted[0])) {
        forall i | 0 <= i < |page.items| ensures Below(lo, key(page.items[i])) {
          assert page.items[i] == sorted[i];
          if i > 0 {
            Transitive(lo, key(sorted[0]), key(sorted[i]));
          }
        }
      }
    }
  }
}
