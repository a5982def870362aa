/** Cursor pagination (pagination.go): listing, in-place insertion sort, resume after the cursor, and
    what a whole traversal returns on a store that stays fixed or changes between calls. */
module Pagination {
  import opened Types
  import opened ByteOrder
  import opened Base64Cursor

  type KeyOf<!T> = T -> Text

  // ---------------------------------------------------------------- sorting

  ghost predicate Sorted<T>(s: seq<T>, key: KeyOf<T>) {
    forall i, j :: 0 <= i < j < |s| ==> AtMost(key(s[i]), key(s[j]))
  }

  ghost predicate StrictlySorted<T>(s: seq<T>, key: KeyOf<T>) {
    forall i, j :: 0 <= i < j < |s| ==> Below(key(s[i]), key(s[j]))
  }

  /** Sorted but for the element at `j`, which is not above anything to its right up to `i`. */
  ghost predicate Sinking<T>(s: seq<T>, key: KeyOf<T>, j: int, i: int) {
    && 0 <= j <= i < |s|
    && (forall p, q :: 0 <= p < q <= i && p != j && q != j ==> AtMost(key(s[p]), key(s[q])))
    && (forall q :: j < q <= i ==> AtMost(key(s[j]), key(s[q])))
  }

  lemma SinkStep<T>(s: seq<T>, key: KeyOf<T>, j: int, i: int)
    requires Sinking(s, key, j, i) && j > 0 && Below(key(s[j]), key(s[j - 1]))
    ensures Sinking(s[j - 1 := s[j]][j := s[j - 1]], key, j - 1, i)
  {
    Asymmetric(key(s[j]), key(s[j - 1]));
  }

  lemma SinkDone<T>(s: seq<T>, key: KeyOf<T>, j: int, i: int)
    requires Sinking(s, key, j, i) && (j == 0 || AtMost(key(s[j - 1]), key(s[j])))
    ensures Sorted(s[..i + 1], key)
  {
    forall p, q | 0 <= p < q < i + 1 ensures AtMost(key(s[p]), key(s[q])) {
      if q == j && p < j - 1 {
        AtMostTransitive(key(s[p]), key(s[j - 1]), key(s[j]));
      }
    }
  }

  lemma SwapPermutes<T>(s: seq<T>, i: nat, j: nat)
    requires i < |s| && j < |s|
    ensures multiset(s[i := s[j]][j := s[i]]) == multiset(s)
  {
  }

  /** Insertion sort by swaps, in place. */
  method SortByID<T>(a: array<T>, key: KeyOf<T>)
    modifies a
    ensures Sorted(a[..], key)
    ensures multiset(a[..]) == multiset(old(a[..]))
  {
    var i := 1;
    while i < a.Length
      invariant 1 <= i
      invariant i <= a.Length ==> Sorted(a[..i], key)
      invariant i > a.Length ==> a.Length == 0
      invariant multiset(a[..]) == multiset(old(a[..]))
    {
      var j := i;
      assert a[..][..i] == a[..i];
      while j > 0 && Below(key(a[j]), key(a[j - 1]))
        invariant Sinking(a[..], key, j, i)
        invariant multiset(a[..]) == multiset(old(a[..]))
      {
        SinkStep(a[..], key, j, i);
        SwapPermutes(a[..], j - 1, j);
        ghost var before := a[..];
        a[j - 1], a[j] := a[j], a[j - 1];
        assert a[..] == before[j - 1 := before[j]][j := before[j - 1]];
        j := j - 1;
      }
      SinkDone(a[..], key, j, i);
      assert a[..][..i + 1] == a[..i + 1];
      i := i + 1;
    }
    assert a[..a.Length] == a[..];
  }

  lemma SameFirst<T>(a: seq<T>, b: seq<T>, key: KeyOf<T>)
    requires StrictlySorted(a, key) && StrictlySorted(b, key) && multiset(a) == multiset(b) && a != [] && b != []
    ensures a[0] == b[0]
  {
    assert a[0] in multiset(b) && b[0] in multiset(a);
    var i :| 0 <= i < |b| && b[i] == a[0];
    var j :| 0 <= j < |a| && a[j] == b[0];
    if i != 0 && j != 0 {
      Asymmetric(key(a[0]), key(a[j]));
    }
  }

  lemma SameRest<T>(a: seq<T>, b: seq<T>)
    requires a != [] && b != [] && a[0] == b[0] && multiset(a) == multiset(b)
    ensures multiset(a[1..]) == multiset(b[1..])
  {
    assert a == [a[0]] + a[1..] && b == [b[0]] + b[1..];
    assert multiset(a[1..]) == multiset(a) - multiset{a[0]};
    assert multiset(b[1..]) == multiset(b) - multiset{b[0]};
  }

  /** With distinct keys there is only one sorted order, so the listing order does not matter. */
  lemma {:induction false} SortedUnique<T>(a: seq<T>, b: seq<T>, key: KeyOf<T>)
    requires StrictlySorted(a, key) && StrictlySorted(b, key) && multiset(a) == multiset(b)
    ensures a == b
  {
    assert |a| == |multiset(a)| == |b|;
    if a != [] {
      SameFirst(a, b, key);
      SameRest(a, b);
      SortedUnique(a[1..], b[1..], key);
      assert a == [a[0]] + a[1..] && b == [b[0]] + b[1..];
    }
  }

  lemma CountsTwice<T>(s: seq<T>, i: nat, j: nat)
    requires i < j < |s| && s[i] == s[j]
    ensures multiset(s)[s[i]] >= 2
  {
    assert s == s[..j] + s[j..];
    assert s[i] in s[..j] && s[j] in s[j..];
    assert multiset(s) == multiset(s[..j]) + multiset(s[j..]);
  }

  // ---------------------------------------------------------------- one page

  datatype Page<T> = Page(items: seq<T>, nextCursor: Text)

  /** The page size; 20 if none is asked for. */
  function EffectiveLimit(limit: int): (n: nat)
    ensures n >= 1
  {
    if limit <= 0 then 20 else limit
  }

  /** The place after the first item with the id, or the beginning. */
  function StartAfter<T>(sorted: seq<T>, key: KeyOf<T>, last: Text): (n: nat)
    ensures n <= |sorted|
  {
    if sorted == [] then 0
    else
      var n := StartAfter(sorted[..|sorted| - 1], key, last);
      if n == 0 && key(sorted[|sorted| - 1]) == last then |sorted| else n
  }

  /** Up to `limit` items from a place on, and a cursor if there are more. */
  function PageAt<T>(sorted: seq<T>, key: KeyOf<T>, start: nat, limit: nat): Page<T>
    requires start <= |sorted| && limit >= 1
  {
    if |sorted| - start > limit
    then Page(sorted[start..start + limit], EncodeCursor(key(sorted[start + limit - 1])))
    else Page(sorted[start..], [])
  }

  function PageOf<T>(sorted: seq<T>, key: KeyOf<T>, cursor: Text, limit: int): Page<T> {
    var last := DecodeCursor(cursor);
    PageAt(sorted, key, if last == [] then 0 else StartAfter(sorted, key, last), EffectiveLimit(limit))
  }

  lemma {:induction false} StartAfterFirst<T>(sorted: seq<T>, key: KeyOf<T>, last: Text, k: nat)
    requires k < |sorted| && key(sorted[k]) == last && forall i :: 0 <= i < k ==> key(sorted[i]) != last
    ensures StartAfter(sorted, key, last) == k + 1
  {
    var n := |sorted| - 1;
    if k < n {
      StartAfterFirst(sorted[..n], key, last, k);
    } else {
      StartAfterNone(sorted[..n], key, last);
    }
  }

  lemma {:induction false} StartAfterNone<T>(sorted: seq<T>, key: KeyOf<T>, last: Text)
    requires forall i :: 0 <= i < |sorted| ==> key(sorted[i]) != last
    ensures StartAfter(sorted, key, last) == 0
  {
    if sorted != [] {
      StartAfterNone(sorted[..|sorted| - 1], key, last);
    }
  }

  /** The place a listing goes on at: right behind the first item with the id the cursor names, or the beginning
      if it names none or no item has it. */
  ghost predicate GoesOnAt<T>(sorted: seq<T>, key: KeyOf<T>, last: Text, start: nat) {
    && start <= |sorted|
    && (forall i :: 0 <= i < start - 1 ==> key(sorted[i]) != last)
    && if start > 0 then last != [] && key(sorted[start - 1]) == last
       else last == [] || forall i :: 0 <= i < |sorted| ==> key(sorted[i]) != last
  }

  /** From there on as many items as asked for, 20 if the number is not positive, or all that are left; and if some
      are left over, the last item's id as cursor. */
  ghost predicate IsPage<T>(sorted: seq<T>, key: KeyOf<T>, start: nat, limit: int, page: Page<T>) {
    var n := if limit > 0 then limit else 20;
    && start <= |sorted|
    && page.items == sorted[start..if start + n < |sorted| then start + n else |sorted|]
    && (start + n < |sorted| ==>
         |page.items| == n && DecodeCursor(page.nextCursor) == key(page.items[n - 1])
         && (page.nextCursor == [] ==> key(page.items[n - 1]) == []))
    && (start + n >= |sorted| ==> page.nextCursor == [])
  }

  lemma {:induction false} StartAfterGoesOn<T>(sorted: seq<T>, key: KeyOf<T>, last: Text)
    requires last != []
    ensures GoesOnAt(sorted, key, last, StartAfter(sorted, key, last))
  {
    if sorted != [] {
      StartAfterGoesOn(sorted[..|sorted| - 1], key, last);
    }
  }

  /** What a page holds, told without how it is cut. */
  lemma PageExactly<T>(sorted: seq<T>, key: KeyOf<T>, cursor: Text, limit: int) returns (start: nat)
    ensures GoesOnAt(sorted, key, DecodeCursor(cursor), start)
    ensures IsPage(sorted, key, start, limit, PageOf(sorted, key, cursor, limit))
  {
    var last := DecodeCursor(cursor);
    start := if last == [] then 0 else StartAfter(sorted, key, last);
    if last != [] {
      StartAfterGoesOn(sorted, key, last);
    }
    var n := EffectiveLimit(limit);
    if start + n < |sorted| {
      CursorRoundTrip(key(sorted[start + n - 1]));
    }
  }

  /** Never more items than asked for, and exactly as many on a page with a cursor. */
  lemma PageSize<T>(sorted: seq<T>, key: KeyOf<T>, cursor: Text, limit: int)
    ensures var page, n := PageOf(sorted, key, cursor, limit), if limit > 0 then limit else 20;
            |page.items| <= n && (page.nextCursor != [] ==> |page.items| == n)
  {
    var start := PageExactly(sorted, key, cursor, limit);
  }

  /** Advance past the cursor. */
  method Advance<T>(items: seq<T>, key: KeyOf<T>, last: Text) returns (start: nat)
    ensures start <= |items|
    ensures start == if last == [] then 0 else StartAfter(items, key, last)
  {
    start := 0;
    if last != [] {
      for i := 0 to |items|
        invariant forall k :: 0 <= k < i ==> key(items[k]) != last
      {
        if key(items[i]) == last {
          StartAfterFirst(items, key, last, i);
          return i + 1;
        }
      }
      StartAfterNone(items, key, last);
    }
  }

  /** Cut to the limit and make the cursor. */
  method Cut<T>(sorted: seq<T>, key: KeyOf<T>, start: nat, limit: nat) returns (page: Page<T>)
    requires start <= |sorted| && limit >= 1
    ensures page == PageAt(sorted, key, start, limit)
  {
    var items := sorted[start..];
    var hasMore := |items| > limit;
    if hasMore {
      items := items[..limit];
      assert items == sorted[start..start + limit];
    }
    var nextCursor := [];
    if hasMore && |items| > 0 {
      nextCursor := EncodeCursor(key(items[|items| - 1]));
    }
    page := Page(items, nextCursor);
  }

  /** The listing methods past the store call, on the slice the store returned. */
  method ListPage<T>(listed: array<T>, key: KeyOf<T>, cursor: Text, limit: int) returns (page: Page<T>)
    modifies listed
    ensures Sorted(listed[..], key) && multiset(listed[..]) == multiset(old(listed[..]))
    ensures page == PageOf(listed[..], key, cursor, limit)
    ensures limit > 0 ==> |page.items| <= limit && (page.nextCursor != [] ==> |page.items| == limit)
    ensures limit <= 0 ==> |page.items| <= 20 && (page.nextCursor != [] ==> |page.items| == 20)
  {
    var n := if limit <= 0 then 20 else limit;
    SortByID(listed, key);
    var start := Advance(listed[..], key, DecodeCursor(cursor));
    page := Cut(listed[..], key, start, n);
    PageSize(listed[..], key, cursor, limit);
  }

  // ---------------------------------------------------------------- a store that stays fixed

  ghost function Concat<T>(pages: seq<Page<T>>): seq<T> {
    if pages == [] then [] else Concat(pages[..|pages| - 1]) + pages[|pages| - 1].items
  }

  /** A paginated call, cursor in, page out. */
  type Fetch<!T> = Text -> Page<T>

  ghost predicate Follows<T>(a: Page<T>, b: Page<T>, fetch: Fetch<T>) {
    a.nextCursor != [] && b == fetch(a.nextCursor)
  }

  /** Pages fetched one after the other from the beginning, each with the cursor of the one before. */
  ghost predicate Linked<T>(pages: seq<Page<T>>, fetch: Fetch<T>) {
    && pages != []
    && pages[0] == fetch([])
    && (forall i :: 0 <= i < |pages| - 1 ==> Follows(pages[i], pages[i + 1], fetch))
  }

  /** Until a page carries no cursor. */
  ghost predicate IsTraversal<T>(pages: seq<Page<T>>, fetch: Fetch<T>) {
    Linked(pages, fetch) && pages[|pages| - 1].nextCursor == []
  }

  /** The listing call on a fixed store. */
  ghost function Paged<T>(sorted: seq<T>, key: KeyOf<T>, limit: int): Fetch<T> {
    cursor => PageOf(sorted, key, cursor, limit)
  }

  /** A cursor made of the id at `k` resumes right behind it. */
  lemma Resumes<T>(sorted: seq<T>, key: KeyOf<T>, k: nat, limit: int)
    requires StrictlySorted(sorted, key) && k < |sorted| && key(sorted[k]) != []
    ensures PageOf(sorted, key, EncodeCursor(key(sorted[k])), limit) ==
            PageAt(sorted, key, k + 1, EffectiveLimit(limit))
  {
    CursorRoundTrip(key(sorted[k]));
    forall i | 0 <= i < k ensures key(sorted[i]) != key(sorted[k]) {
      Irreflexive(key(sorted[k]));
    }
    StartAfterFirst(sorted, key, key(sorted[k]), k);
  }

  /** The only id that makes an empty cursor can only be the very first. */
  lemma OnlyFirstEmpty<T>(sorted: seq<T>, key: KeyOf<T>, k: nat)
    requires StrictlySorted(sorted, key) && 0 < k < |sorted|
    ensures key(sorted[k]) != []
  {
    assert Below(key(sorted[0]), key(sorted[k]));
  }

  /** One item per page, and the first has the empty id: its cursor looks like the end. */
  predicate StopsShort<T>(sorted: seq<T>, key: KeyOf<T>, limit: int) {
    limit == 1 && |sorted| > 1 && key(sorted[0]) == []
  }

  /** A cut that is not the last carries the cursor of the next. */
  lemma CutCursor<T>(sorted: seq<T>, key: KeyOf<T>, start: nat, limit: int)
    requires StrictlySorted(sorted, key) && !StopsShort(sorted, key, limit)
    requires start + EffectiveLimit(limit) < |sorted|
    ensures var n := EffectiveLimit(limit); var page := PageAt(sorted, key, start, n);
            page.nextCursor != [] && PageOf(sorted, key, page.nextCursor, limit) == PageAt(sorted, key, start + n, n)
  {
    var k := start + EffectiveLimit(limit) - 1;
    if k > 0 {
      OnlyFirstEmpty(sorted, key, k);
    }
    CursorRoundTrip(key(sorted[k]));
    Resumes(sorted, key, k, limit);
  }

  lemma CutShape<T>(sorted: seq<T>, key: KeyOf<T>, start: nat, limit: int)
    requires StrictlySorted(sorted, key) && !StopsShort(sorted, key, limit) && start <= |sorted|
    ensures var n := EffectiveLimit(limit); var page := PageAt(sorted, key, start, n);
            && sorted[..start] + page.items == sorted[..if start + n <= |sorted| then start + n else |sorted|]
            && (page.nextCursor == [] <==> |sorted| <= start + n)
  {
    var end := if start + EffectiveLimit(limit) <= |sorted| then start + EffectiveLimit(limit) else |sorted|;
    assert sorted[..start] + sorted[start..end] == sorted[..end];
    if start + EffectiveLimit(limit) < |sorted| {
      CutCursor(sorted, key, start, limit);
    }
  }

  /** `cut(start)` is the page that begins at `start`, and `fetch` hands the cuts out in order. */
  ghost predicate Chained<T>(all: seq<T>, n: nat, fetch: Fetch<T>, cut: nat -> Page<T>) {
    && n >= 1 && fetch([]) == cut(0)
    && (forall start: nat :: start <= |all| ==> Link(all, n, fetch, cut, start))
  }

  ghost predicate Link<T>(all: seq<T>, n: nat, fetch: Fetch<T>, cut: nat -> Page<T>, start: nat)
    requires start <= |all|
  {
    if start + n < |all| then
      Follows(cut(start), cut(start + n), fetch) && all[..start] + cut(start).items == all[..start + n]
    else
      cut(start).nextCursor == [] && all[..start] + cut(start).items == all
  }

  lemma PagedChained<T>(sorted: seq<T>, key: KeyOf<T>, limit: int) returns (cut: nat -> Page<T>)
    requires StrictlySorted(sorted, key) && !StopsShort(sorted, key, limit)
    ensures Chained(sorted, EffectiveLimit(limit), Paged(sorted, key, limit), cut)
  {
    var n := EffectiveLimit(limit);
    cut := (start: nat) => if start <= |sorted| then PageAt(sorted, key, start, n) else Page([], []);
    forall start: nat | start <= |sorted| ensures Link(sorted, n, Paged(sorted, key, limit), cut, start) {
      CutShape(sorted, key, start, limit);
      if start + n < |sorted| {
        CutCursor(sorted, key, start, limit);
      } else {
        assert sorted[..|sorted|] == sorted;
      }
    }
  }

  /** `m` full pages. */
  function Full(m: nat, n: nat): nat {
    if m == 0 then 0 else Full(m - 1, n) + n
  }

  lemma {:induction false} FullIsProduct(m: nat, n: nat)
    ensures Full(m, n) == m * n
  {
    if m > 0 {
      FullIsProduct(m - 1, n);
      assert m * n == (m - 1) * n + n;
    }
  }

  lemma ConcatStep<T>(pages: seq<Page<T>>, m: nat)
    requires m < |pages|
    ensures Concat(pages[..m + 1]) == Concat(pages[..m]) + pages[m].items
  {
    assert pages[..m + 1][..m] == pages[..m];
  }

  /** Page `m` of a traversal is the cut behind `m` full pages. */
  lemma {:induction false} PagesAreCuts<T>(pages: seq<Page<T>>, all: seq<T>, n: nat, fetch: Fetch<T>,
                                           cut: nat -> Page<T>, m: nat)
    requires Chained(all, n, fetch, cut) && Linked(pages, fetch) && m < |pages|
    ensures (m == 0 || Full(m, n) < |all|) && Full(m, n) <= |all|
    ensures pages[m] == cut(Full(m, n)) && Concat(pages[..m]) == all[..Full(m, n)]
  {
    if m > 0 {
      PagesAreCuts(pages, all, n, fetch, cut, m - 1);
      assert Follows(pages[m - 1], pages[m], fetch);
      assert Link(all, n, fetch, cut, Full(m - 1, n));
      ConcatStep(pages, m - 1);
    }
  }

  lemma {:induction false} ChainedComplete<T>(pages: seq<Page<T>>, all: seq<T>, n: nat, fetch: Fetch<T>,
                                              cut: nat -> Page<T>)
    requires Chained(all, n, fetch, cut) && IsTraversal(pages, fetch)
    ensures Concat(pages) == all
    ensures |all| <= |pages| * n && (|pages| == 1 || (|pages| - 1) * n < |all|)
  {
    var last := |pages| - 1;
    PagesAreCuts(pages, all, n, fetch, cut, last);
    assert Link(all, n, fetch, cut, Full(last, n));
    ConcatStep(pages, last);
    assert pages[..last + 1] == pages;
    FullIsProduct(|pages|, n);
    FullIsProduct(last, n);
  }

  /** Main result. On a fixed store with distinct ids a traversal returns exactly the sorted listing if
      and only if it is not cut short by an empty first id with one item per page. */
  lemma TraversalComplete<T>(pages: seq<Page<T>>, sorted: seq<T>, key: KeyOf<T>, limit: int)
    requires StrictlySorted(sorted, key) && IsTraversal(pages, Paged(sorted, key, limit))
    ensures Concat(pages) == sorted <==> !StopsShort(sorted, key, limit)
  {
    if StopsShort(sorted, key, limit) {
      ShortTraversal(pages, sorted, key, limit);
    } else {
      var cut := PagedChained(sorted, key, limit);
      ChainedComplete(pages, sorted, EffectiveLimit(limit), Paged(sorted, key, limit), cut);
    }
  }

  /** It takes one page if everything fits, and otherwise as many full pages as needed and a last one
      that is not empty. */
  lemma TraversalLength<T>(pages: seq<Page<T>>, sorted: seq<T>, key: KeyOf<T>, limit: int)
    requires StrictlySorted(sorted, key) && IsTraversal(pages, Paged(sorted, key, limit))
    requires !StopsShort(sorted, key, limit)
    ensures limit > 0 ==> |sorted| <= |pages| * limit && (|pages| == 1 || (|pages| - 1) * limit < |sorted|)
    ensures limit <= 0 ==> |sorted| <= |pages| * 20 && (|pages| == 1 || (|pages| - 1) * 20 < |sorted|)
  {
    var cut := PagedChained(sorted, key, limit);
    ChainedComplete(pages, sorted, EffectiveLimit(limit), Paged(sorted, key, limit), cut);
  }

  lemma ShortTraversal<T>(pages: seq<Page<T>>, sorted: seq<T>, key: KeyOf<T>, limit: int)
    requires StopsShort(sorted, key, limit) && Linked(pages, Paged(sorted, key, limit))
    ensures |pages| == 1 && |Concat(pages)| == 1
  {
    CursorRoundTrip([]);
    assert pages[0].nextCursor == [] && |pages[0].items| == 1;
    assert |pages| > 1 ==> Follows(pages[0], pages[1], Paged(sorted, key, limit));
    assert pages[..0] == [];
  }

  /** And there is one: following the cursors ends. */
  lemma {:induction false} ChainedTraversal<T>(pages: seq<Page<T>>, start: nat, all: seq<T>, n: nat, fetch: Fetch<T>,
                                               cut: nat -> Page<T>)
    returns (traversal: seq<Page<T>>)
    requires Chained(all, n, fetch, cut) && start <= |all| && Linked(pages, fetch) && pages[|pages| - 1] == cut(start)
    ensures IsTraversal(traversal, fetch)
    decreases |all| - start
  {
    assert Link(all, n, fetch, cut, start);
    if start + n < |all| {
      traversal := ChainedTraversal(pages + [cut(start + n)], start + n, all, n, fetch, cut);
    } else {
      traversal := pages;
    }
  }

  lemma TraversalExists<T>(sorted: seq<T>, key: KeyOf<T>, limit: int) returns (pages: seq<Page<T>>)
    requires StrictlySorted(sorted, key)
    ensures IsTraversal(pages, Paged(sorted, key, limit))
  {
    var fetch := Paged(sorted, key, limit);
    if StopsShort(sorted, key, limit) {
      CursorRoundTrip([]);
      pages := [fetch([])];
    } else {
      var cut := PagedChained(sorted, key, limit);
      pages := ChainedTraversal([cut(0)], 0, sorted, EffectiveLimit(limit), fetch, cut);
    }
  }
}
