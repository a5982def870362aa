/** Metered usage as a flat append-only log: the simple form the nested usage index must agree with
    (store/memory/memory.go:251-374, store/store.go:127-137). */
module UsageLog {
  import opened Types

  /** A bucket of the index: one subscription, one metric. */
  type Cell = (Id, Text)

  function CellOf(r: UsageRecord): Cell {
    (r.subscriptionId, r.metric)
  }

  /** Half-open: `from` is inside, `to` is not. */
  predicate Within(r: UsageRecord, from: Time, to: Time) {
    from <= r.recordedAt < to
  }

  /** Total quantity of one subscription and metric recorded in a window. */
  function Usage(log: seq<UsageRecord>, cell: Cell, from: Time, to: Time): int {
    if log == [] then 0 else
      var last := log[|log| - 1];
      Usage(log[..|log| - 1], cell, from, to)
      + (if CellOf(last) == cell && Within(last, from, to) then last.quantity else 0)
  }

  /** A new record counts for its own subscription and metric, from the first instant of a window up to but not
      including the last. */
  lemma UsageAppend(log: seq<UsageRecord>, r: UsageRecord, cell: Cell, from: Time, to: Time)
    ensures Usage(log + [r], cell, from, to) == Usage(log, cell, from, to) +
            if (r.subscriptionId, r.metric) == cell && from <= r.recordedAt < to then r.quantity else 0
  {
    assert (log + [r])[..|log|] == log;
  }

  /** The records of some cells, in the order they were appended. */
  function InCells(log: seq<UsageRecord>, cells: set<Cell>): seq<UsageRecord> {
    if log == [] then [] else
      var last := log[|log| - 1];
      InCells(log[..|log| - 1], cells) + (if CellOf(last) in cells then [last] else [])
  }

  function InWindow(log: seq<UsageRecord>, from: Time, to: Time): seq<UsageRecord> {
    if log == [] then [] else
      var last := log[|log| - 1];
      InWindow(log[..|log| - 1], from, to) + (if Within(last, from, to) then [last] else [])
  }

  function Unreported(log: seq<UsageRecord>): seq<UsageRecord> {
    if log == [] then [] else
      var last := log[|log| - 1];
      Unreported(log[..|log| - 1]) + (if last.reportedAt.None? then [last] else [])
  }

  function OfSubscription(log: seq<UsageRecord>, sub: Id): seq<UsageRecord> {
    if log == [] then [] else
      var last := log[|log| - 1];
      OfSubscription(log[..|log| - 1], sub) + (if last.subscriptionId == sub then [last] else [])
  }

  function Sum(records: seq<UsageRecord>): int {
    if records == [] then 0 else Sum(records[..|records| - 1]) + records[|records| - 1].quantity
  }

  // ---------------------------------------------------------------- selections, record by record

  lemma {:induction false} InCellsCount(log: seq<UsageRecord>, cells: set<Cell>, r: UsageRecord)
    ensures multiset(InCells(log, cells))[r] == if CellOf(r) in cells then multiset(log)[r] else 0
  {
    if log != [] {
      InCellsCount(log[..|log| - 1], cells, r);
      assert log == log[..|log| - 1] + [log[|log| - 1]];
    }
  }

  lemma {:induction false} OfSubscriptionCount(log: seq<UsageRecord>, sub: Id, r: UsageRecord)
    ensures multiset(OfSubscription(log, sub))[r] == if r.subscriptionId == sub then multiset(log)[r] else 0
  {
    if log != [] {
      OfSubscriptionCount(log[..|log| - 1], sub, r);
      assert log == log[..|log| - 1] + [log[|log| - 1]];
    }
  }

  lemma {:induction false} InWindowCount(log: seq<UsageRecord>, from: Time, to: Time, r: UsageRecord)
    ensures multiset(InWindow(log, from, to))[r] == if Within(r, from, to) then multiset(log)[r] else 0
  {
    if log != [] {
      InWindowCount(log[..|log| - 1], from, to, r);
      assert log == log[..|log| - 1] + [log[|log| - 1]];
    }
  }

  lemma {:induction false} UnreportedCount(log: seq<UsageRecord>, r: UsageRecord)
    ensures multiset(Unreported(log))[r] == if r.reportedAt.None? then multiset(log)[r] else 0
  {
    if log != [] {
      UnreportedCount(log[..|log| - 1], r);
      assert log == log[..|log| - 1] + [log[|log| - 1]];
    }
  }

  // ---------------------------------------------------------------- sums

  lemma CancelOne<T>(a: multiset<T>, b: multiset<T>, x: T)
    requires a + multiset{x} == b + multiset{x}
    ensures a == b
  {
    assert a == a + multiset{x} - multiset{x};
    assert b == b + multiset{x} - multiset{x};
  }

  /** A sum does not depend on the order of its records. */
  lemma {:induction false} SumOrder(a: seq<UsageRecord>, b: seq<UsageRecord>)
    requires multiset(a) == multiset(b)
    ensures Sum(a) == Sum(b)
  {
    if a == [] {
      assert multiset(a) == multiset{};
      assert |b| == |multiset(b)|;
    } else {
      var last := a[|a| - 1];
      assert a == a[..|a| - 1] + [last];
      assert last in multiset(b);
      var i :| 0 <= i < |b| && b[i] == last;
      assert b == b[..i] + [last] + b[i + 1..];
      CancelOne(multiset(a[..|a| - 1]), multiset(b[..i] + b[i + 1..]), last);
      SumOrder(a[..|a| - 1], b[..i] + b[i + 1..]);
      SumConcat(b[..i], b[i + 1..]);
      SumConcat(b[..i] + [last], b[i + 1..]);
      assert (b[..i] + [last])[..i] == b[..i];
    }
  }

  lemma {:induction false} SumConcat(a: seq<UsageRecord>, b: seq<UsageRecord>)
    ensures Sum(a + b) == Sum(a) + Sum(b)
  {
    if b == [] {
      assert a + b == a;
    } else {
      SumConcat(a, b[..|b| - 1]);
      assert (a + b)[..|a + b| - 1] == a + b[..|b| - 1];
    }
  }

  /** One more record adds its quantity if it lies in the window. */
  lemma SumWindowStep(records: seq<UsageRecord>, i: nat, from: Time, to: Time)
    requires i < |records|
    ensures Sum(InWindow(records[..i + 1], from, to))
         == Sum(InWindow(records[..i], from, to)) + (if Within(records[i], from, to) then records[i].quantity else 0)
  {
    var kept := InWindow(records[..i], from, to);
    assert records[..i + 1][..i] == records[..i];
    assert (kept + [records[i]])[..|kept|] == kept && kept + [] == kept;
  }

  lemma SumWindowAppend(records: seq<UsageRecord>, r: UsageRecord, from: Time, to: Time)
    ensures Sum(InWindow(records + [r], from, to))
         == Sum(InWindow(records, from, to)) + (if Within(r, from, to) then r.quantity else 0)
  {
    assert (records + [r])[..|records|] == records && (records + [r])[..|records| + 1] == records + [r];
    SumWindowStep(records + [r], |records|, from, to);
  }

  lemma InCellsLast(log: seq<UsageRecord>, cell: Cell)
    requires log != []
    ensures CellOf(log[|log| - 1]) == cell ==>
            InCells(log, {cell}) == InCells(log[..|log| - 1], {cell}) + [log[|log| - 1]]
    ensures CellOf(log[|log| - 1]) != cell ==> InCells(log, {cell}) == InCells(log[..|log| - 1], {cell})
  {
  }

  /** The fold over the whole log is the sum of the selected records. */
  lemma {:induction false} UsageIsSum(log: seq<UsageRecord>, cell: Cell, from: Time, to: Time)
    ensures Usage(log, cell, from, to) == Sum(InWindow(InCells(log, {cell}), from, to))
  {
    if log != [] {
      var n := |log| - 1;
      UsageIsSum(log[..n], cell, from, to);
      InCellsLast(log, cell);
      SumWindowAppend(InCells(log[..n], {cell}), log[n], from, to);
    }
  }

  /** Adjacent windows add up, whatever was recorded. */
  lemma {:induction false} WindowsAdd(log: seq<UsageRecord>, cell: Cell, from: Time, mid: Time, to: Time)
    requires from <= mid <= to
    ensures Usage(log, cell, from, to) == Usage(log, cell, from, mid) + Usage(log, cell, mid, to)
  {
    if log != [] {
      WindowsAdd(log[..|log| - 1], cell, from, mid, to);
    }
  }

  /** The log with record `j` marked as reported. */
  function Marked(log: seq<UsageRecord>, j: nat, at: Time): seq<UsageRecord>
    requires j < |log|
  {
    log[j := log[j].(reportedAt := Some(at))]
  }

  /** Marking a record as reported changes no total. */
  lemma {:induction false} MarkKeepsUsage(log: seq<UsageRecord>, j: nat, at: Time, cell: Cell, from: Time, to: Time)
    requires j < |log|
    ensures Usage(Marked(log, j, at), cell, from, to) == Usage(log, cell, from, to)
  {
    var n := |log| - 1;
    if j < n {
      MarkKeepsUsage(log[..n], j, at, cell, from, to);
      assert Marked(log, j, at)[..n] == Marked(log[..n], j, at);
    } else {
      assert Marked(log, j, at)[..n] == log[..n];
    }
  }

  // ---------------------------------------------------------------- buckets

  /** Marking record `j` marks the record at the corresponding place of its bucket. */
  lemma {:induction false} InCellsMark(log: seq<UsageRecord>, j: nat, at: Time, cells: set<Cell>)
    requires j < |log|
    ensures var k := |InCells(log[..j], cells)|;
            if CellOf(log[j]) in cells then
              k < |InCells(log, cells)| && InCells(log, cells)[k] == log[j]
              && InCells(Marked(log, j, at), cells) == Marked(InCells(log, cells), k, at)
            else InCells(Marked(log, j, at), cells) == InCells(log, cells)
  {
    var n := |log| - 1;
    if j < n {
      InCellsMark(log[..n], j, at, cells);
      assert log[..n][..j] == log[..j];
      assert Marked(log, j, at)[..n] == Marked(log[..n], j, at);
    } else {
      assert Marked(log, j, at)[..n] == log[..n];
    }
  }

  /** Every place of a bucket comes from a place of the log. */
  lemma {:induction false} PlaceInLog(log: seq<UsageRecord>, cells: set<Cell>, k: nat) returns (j: nat)
    requires k < |InCells(log, cells)|
    ensures j < |log| && |InCells(log[..j], cells)| == k && log[j] == InCells(log, cells)[k] && CellOf(log[j]) in cells
  {
    var n := |log| - 1;
    if k < |InCells(log[..n], cells)| {
      j := PlaceInLog(log[..n], cells, k);
      assert log[..n][..j] == log[..j];
    } else {
      j := n;
    }
  }

  /** Selecting one more cell adds that cell's selection. */
  lemma WindowCells(log: seq<UsageRecord>, cells: set<Cell>, cell: Cell, from: Time, to: Time)
    requires cell !in cells
    ensures multiset(InWindow(InCells(log, cells + {cell}), from, to))
         == multiset(InWindow(InCells(log, cells), from, to)) + multiset(InWindow(InCells(log, {cell}), from, to))
  {
    var all, less, one := InCells(log, cells + {cell}), InCells(log, cells), InCells(log, {cell});
    forall r
      ensures multiset(InWindow(all, from, to))[r]
           == multiset(InWindow(less, from, to))[r] + multiset(InWindow(one, from, to))[r]
    {
      InWindowCount(all, from, to, r);
      InWindowCount(less, from, to, r);
      InWindowCount(one, from, to, r);
      InCellsCount(log, cells + {cell}, r);
      InCellsCount(log, cells, r);
      InCellsCount(log, {cell}, r);
    }
  }

  lemma {:induction false} UnreportedCells(log: seq<UsageRecord>, cells: set<Cell>, cell: Cell)
    requires cell !in cells
    ensures multiset(Unreported(InCells(log, cells + {cell})))
         == multiset(Unreported(InCells(log, cells))) + multiset(Unreported(InCells(log, {cell})))
  {
    var all, less, one := InCells(log, cells + {cell}), InCells(log, cells), InCells(log, {cell});
    forall r ensures multiset(Unreported(all))[r] == multiset(Unreported(less))[r] + multiset(Unreported(one))[r] {
      UnreportedCount(all, r);
      UnreportedCount(less, r);
      UnreportedCount(one, r);
      InCellsCount(log, cells + {cell}, r);
      InCellsCount(log, cells, r);
      InCellsCount(log, {cell}, r);
    }
  }

  /** A selection by cells is part of the whole, and all of it once every cell in use is covered. */
  lemma {:induction false} UnreportedPart(log: seq<UsageRecord>, cells: set<Cell>)
    ensures multiset(Unreported(InCells(log, cells))) <= multiset(Unreported(log))
    ensures (forall r :: r in log ==> CellOf(r) in cells) ==>
              multiset(Unreported(InCells(log, cells))) == multiset(Unreported(log))
  {
    forall r
      ensures multiset(Unreported(InCells(log, cells)))[r]
           == if CellOf(r) in cells then multiset(Unreported(log))[r] else 0
      ensures r !in log ==> multiset(Unreported(log))[r] == 0
    {
      UnreportedCount(InCells(log, cells), r);
      UnreportedCount(log, r);
      InCellsCount(log, cells, r);
    }
  }

  lemma SubscriptionCells(log: seq<UsageRecord>, sub: Id, cells: set<Cell>, from: Time, to: Time)
    requires forall c :: c in cells ==> c.0 == sub
    requires forall r :: r in log && r.subscriptionId == sub ==> CellOf(r) in cells
    ensures multiset(InWindow(InCells(log, cells), from, to)) == multiset(InWindow(OfSubscription(log, sub), from, to))
  {
    forall r
      ensures multiset(InWindow(InCells(log, cells), from, to))[r] ==
              multiset(InWindow(OfSubscription(log, sub), from, to))[r]
    {
      InWindowCount(InCells(log, cells), from, to, r);
      InWindowCount(OfSubscription(log, sub), from, to, r);
      InCellsCount(log, cells, r);
      OfSubscriptionCount(log, sub, r);
    }
  }

  lemma {:induction false} NoCells(log: seq<UsageRecord>)
    ensures InCells(log, {}) == []
  {
    if log != [] {
      NoCells(log[..|log| - 1]);
    }
  }

  /** Main result: the total of a metric is the sum of the listed records of the subscription that
      carry the metric, in whatever order they were listed. */
  lemma UsageFromListing(log: seq<UsageRecord>, sub: Id, metric: Text, from: Time, to: Time, listed: seq<UsageRecord>)
    requires multiset(listed) == multiset(InWindow(OfSubscription(log, sub), from, to))
    ensures Sum(InCells(listed, {(sub, metric)})) == Usage(log, (sub, metric), from, to)
  {
    var cell := (sub, metric);
    UsageIsSum(log, cell, from, to);
    var a, b := InCells(listed, {cell}), InWindow(InCells(log, {cell}), from, to);
    forall r ensures multiset(a)[r] == multiset(b)[r] {
      InCellsCount(listed, {cell}, r);
      InWindowCount(OfSubscription(log, sub), from, to, r);
      OfSubscriptionCount(log, sub, r);
      InWindowCount(InCells(log, {cell}), from, to, r);
      InCellsCount(log, {cell}, r);
    }
    assert multiset(a) == multiset(b);
    SumOrder(a, b);
  }
}
