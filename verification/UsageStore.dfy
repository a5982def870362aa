/** The in-memory usage store (store/memory/memory.go:251-374): a nested index that stands for the
    flat log `log` of everything recorded. */
module UsageStores {
  import opened Types
  import opened UsageLog

  const TWO_63 := 0x8000_0000_0000_0000
  const TWO_64 := 0x1_0000_0000_0000_0000

  /** The value a 64-bit signed integer keeps of `x`. */
  function Wrap64(x: int): (w: int)
    ensures -TWO_63 <= w < TWO_63
    ensures -TWO_63 <= x < TWO_63 ==> w == x
    ensures exists k :: w == x + k * TWO_64
  {
    var w := (x + TWO_63) % TWO_64 - TWO_63;
    assert w == x + -((x + TWO_63) / TWO_64) * TWO_64;
    w
  }

  lemma WrapAdd(x: int, y: int)
    ensures Wrap64(Wrap64(x) + y) == Wrap64(x + y)
  {
    var k :| Wrap64(x) == x + k * TWO_64;
    var j :| Wrap64(Wrap64(x) + y) == Wrap64(x) + y + j * TWO_64;
    var i :| Wrap64(x + y) == x + y + i * TWO_64;
    assert Wrap64(Wrap64(x) + y) - Wrap64(x + y) == (k + j - i) * TWO_64;
  }

  type Index = map<Id, map<Text, seq<UsageRecord>>>

  function Bucket(index: Index, cell: Cell): seq<UsageRecord> {
    if cell.0 in index && cell.1 in index[cell.0] then index[cell.0][cell.1] else []
  }

  /** The index holds, cell by cell, the records of the log in the order they were appended. */
  ghost predicate Represents(index: Index, log: seq<UsageRecord>) {
    forall cell :: Bucket(index, cell) == InCells(log, {cell})
  }

  /** A record of the log is found in the bucket of its cell. */
  lemma InItsBucket(index: Index, log: seq<UsageRecord>, r: UsageRecord)
    requires Represents(index, log) && r in log
    ensures r in Bucket(index, CellOf(r))
  {
    InCellsCount(log, {CellOf(r)}, r);
    assert multiset(log)[r] > 0;
    assert Bucket(index, CellOf(r)) == InCells(log, {CellOf(r)});
    assert r in multiset(Bucket(index, CellOf(r)));
  }

  lemma Append(index: Index, log: seq<UsageRecord>, index': Index, record: UsageRecord)
    requires Represents(index, log)
    requires forall cell ::
               Bucket(index', cell) == Bucket(index, cell) + (if cell == CellOf(record) then [record] else [])
    ensures Represents(index', log + [record])
  {
    forall cell ensures Bucket(index', cell) == InCells(log + [record], {cell}) {
      assert Bucket(index, cell) == InCells(log, {cell});
    }
  }

  /** Marking the record at place `k` of a bucket marks one record of the log. */
  lemma MarkInBucket(index: Index, log: seq<UsageRecord>, index': Index, cell: Cell, k: nat, at: Time) returns (j: nat)
    requires Represents(index, log) && k < |Bucket(index, cell)|
    requires forall c :: Bucket(index', c) == if c == cell then Marked(Bucket(index, c), k, at) else Bucket(index, c)
    ensures j < |log| && log[j] == Bucket(index, cell)[k] && Represents(index', Marked(log, j, at))
  {
    assert Bucket(index, cell) == InCells(log, {cell});
    j := PlaceInLog(log, {cell}, k);
    forall c ensures Bucket(index', c) == InCells(Marked(log, j, at), {c}) {
      assert Bucket(index, c) == InCells(log, {c});
      InCellsMark(log, j, at, {c});
    }
  }

  function Min(a: int, b: int): int {
    if a < b then a else b
  }

  function Max(a: int, b: int): int {
    if a < b then b else a
  }

  /** Appends the records of one bucket that lie in the window. */
  method ScanWindow(bucket: seq<UsageRecord>, from: Time, to: Time, out0: seq<UsageRecord>)
      returns (out: seq<UsageRecord>)
    ensures out == out0 + InWindow(bucket, from, to)
  {
    out := out0;
    for i := 0 to |bucket|
      invariant out == out0 + InWindow(bucket[..i], from, to)
    {
      assert bucket[..i + 1][..i] == bucket[..i];
      if !(bucket[i].recordedAt < from) && bucket[i].recordedAt < to {
        out := out + [bucket[i]];
      }
    }
    assert bucket[..|bucket|] == bucket;
  }

  /** Appends unreported records of one bucket until `limit` are collected. */
  method ScanUnreported(bucket: seq<UsageRecord>, limit: int, out0: seq<UsageRecord>)
      returns (out: seq<UsageRecord>, full: bool)
    requires out0 == [] || |out0| < limit
    ensures full ==> |out| == Max(limit, 1) && out <= out0 + Unreported(bucket)
    ensures !full ==> (out == [] || |out| < limit) && out == out0 + Unreported(bucket)
  {
    out := out0;
    for i := 0 to |bucket|
      invariant out == out0 + Unreported(bucket[..i])
      invariant out == [] || |out| < limit
    {
      assert bucket[..i + 1][..i] == bucket[..i];
      if bucket[i].reportedAt.None? {
        out := out + [bucket[i]];
        if |out| >= limit {
          UnreportedPrefix(bucket, i + 1);
          return out, true;
        }
      }
    }
    assert bucket[..|bucket|] == bucket;
    full := false;
  }

  lemma {:induction false} UnreportedPrefix(bucket: seq<UsageRecord>, n: nat)
    requires n <= |bucket|
    ensures Unreported(bucket[..n]) <= Unreported(bucket)
  {
    if n < |bucket| {
      UnreportedPrefix(bucket[..|bucket| - 1], n);
      assert bucket[..|bucket| - 1][..n] == bucket[..n];
    } else {
      assert bucket[..n] == bucket;
    }
  }

  /** The same over all buckets of one subscription `s`, after the cells `done0` were scanned. */
  method ScanSubscription(metrics: map<Text, seq<UsageRecord>>, s: Id, limit: int, out0: seq<UsageRecord>,
                          ghost log: seq<UsageRecord>, ghost done0: set<Cell>, ghost cells: set<Cell>)
    returns (out: seq<UsageRecord>, full: bool)
    requires out0 == [] || |out0| < limit
    requires forall c :: c in done0 ==> c.0 != s
    requires forall c :: c in cells <==> c.0 == s && c.1 in metrics
    requires forall m :: m in metrics ==> metrics[m] == InCells(log, {(s, m)})
    requires multiset(out0) == multiset(Unreported(InCells(log, done0)))
    ensures full ==> |out| == Max(limit, 1) && multiset(out) <= multiset(Unreported(log))
    ensures !full ==> out == [] || |out| < limit
    ensures !full ==> multiset(out) == multiset(Unreported(InCells(log, done0 + cells)))
  {
    out := out0;
    var rest := metrics.Keys;
    ghost var done := done0;
    while rest != {}
      invariant rest <= metrics.Keys
      invariant done0 <= done && forall c :: c in done ==> c in done0 || (c in cells && c.1 !in rest)
      invariant forall c :: c in cells ==> c in done || c.1 in rest
      invariant multiset(out) == multiset(Unreported(InCells(log, done)))
      invariant out == [] || |out| < limit
      decreases |rest|
    {
      var m :| m in rest;
      rest := rest - {m};
      UnreportedCells(log, done, (s, m));
      done := done + {(s, m)};
      ghost var all := out + Unreported(metrics[m]);
      assert multiset(all) == multiset(Unreported(InCells(log, done)));
      out, full := ScanUnreported(metrics[m], limit, out);
      if full {
        PrefixPart(out, all);
        UnreportedPart(log, done);
        return;
      }
    }
    assert done == done0 + cells;
    full := false;
  }

  lemma PrefixPart<T>(a: seq<T>, b: seq<T>)
    requires a <= b
    ensures multiset(a) <= multiset(b)
  {
    assert b == a + b[|a|..];
  }

  class UsageStore {
    var index: Index
    ghost var log: seq<UsageRecord>

    ghost predicate Valid()
      reads this
    {
      Represents(index, log)
    }

    constructor ()
      ensures Valid() && log == []
    {
      index, log := map[], [];
    }

    method SaveUsageRecord(record: UsageRecord)
      requires Valid()
      modifies this
      ensures Valid() && log == old(log) + [record]
    {
      if record.subscriptionId !in index {
        index := index[record.subscriptionId := map[]];
      }
      var metrics := index[record.subscriptionId];
      var bucket := if record.metric in metrics then metrics[record.metric] else [];
      index := index[record.subscriptionId := metrics[record.metric := bucket + [record]]];
      Append(old(index), log, index, record);
      log := log + [record];
    }

    /** Scans one bucket only, adding up in 64 bits. */
    method SumUsage(sub: Id, metric: Text, from: Time, to: Time) returns (total: int)
      requires Valid()
      ensures total == Wrap64(Usage(log, (sub, metric), from, to))
    {
      UsageIsSum(log, (sub, metric), from, to);
      assert Bucket(index, (sub, metric)) == InCells(log, {(sub, metric)});
      total := 0;
      if sub !in index {
        return;
      }
      var metrics := index[sub];
      if metric !in metrics {
        return;
      }
      var bucket := metrics[metric];
      for i := 0 to |bucket|
        invariant total == Wrap64(Sum(InWindow(bucket[..i], from, to)))
      {
        SumWindowStep(bucket, i, from, to);
        if !(bucket[i].recordedAt < from) && bucket[i].recordedAt < to {
          WrapAdd(Sum(InWindow(bucket[..i], from, to)), bucket[i].quantity);
          total := Wrap64(total + bucket[i].quantity);
        }
      }
      assert bucket[..|bucket|] == bucket;
    }

    /** All records of a subscription in a window, in any order. */
    method ListUsageRecords(sub: Id, from: Time, to: Time) returns (out: seq<UsageRecord>)
      requires Valid()
      ensures multiset(out) == multiset(InWindow(OfSubscription(log, sub), from, to))
      ensures forall r :: multiset(out)[r] ==
                          if r.subscriptionId == sub && from <= r.recordedAt < to then multiset(log)[r] else 0
    {
      out := [];
      var metrics := if sub in index then index[sub] else map[];
      var rest := metrics.Keys;
      ghost var done: set<Cell> := {};
      NoCells(log);
      while rest != {}
        invariant rest <= metrics.Keys
        invariant forall c :: c in done <==> c.0 == sub && c.1 in metrics && c.1 !in rest
        invariant multiset(out) == multiset(InWindow(InCells(log, done), from, to))
        decreases |rest|
      {
        var m :| m in rest;
        WindowCells(log, done, (sub, m), from, to);
        assert metrics[m] == Bucket(index, (sub, m)) == InCells(log, {(sub, m)});
        out := ScanWindow(metrics[m], from, to, out);
        rest := rest - {m};
        done := done + {(sub, m)};
      }
      forall r | r in log && r.subscriptionId == sub ensures CellOf(r) in done {
        InItsBucket(index, log, r);
      }
      SubscriptionCells(log, sub, done, from, to);
      forall r ensures multiset(out)[r] ==
                       if r.subscriptionId == sub && from <= r.recordedAt < to then multiset(log)[r] else 0
      {
        InWindowCount(OfSubscription(log, sub), from, to, r);
        OfSubscriptionCount(log, sub, r);
      }
    }

    /** Up to `limit` unreported records, any of them; one even when `limit` is not positive. */
    method ListUnreportedUsage(limit: int) returns (out: seq<UsageRecord>)
      requires Valid()
      ensures multiset(out) <= multiset(Unreported(log))
      ensures |out| == Min(Max(limit, 1), |Unreported(log)|)
      ensures |out| < |Unreported(log)| ==> |out| == if limit >= 1 then limit else 1
      ensures forall r :: multiset(out)[r] <= if r.reportedAt.None? then multiset(log)[r] else 0
    {
      out := [];
      var subs := index.Keys;
      ghost var done: set<Cell> := {};
      NoCells(log);
      while subs != {}
        invariant subs <= index.Keys
        invariant forall c :: c in done <==> c.0 in index && c.0 !in subs && c.1 in index[c.0]
        invariant multiset(out) == multiset(Unreported(InCells(log, done)))
        invariant out == [] || |out| < limit
        decreases |subs|
      {
        var s :| s in subs;
        subs := subs - {s};
        assert forall m :: m in index[s] ==> index[s][m] == Bucket(index, (s, m));
        var full;
        ghost var cells := set m | m in index[s] :: (s, m);
        out, full := ScanSubscription(index[s], s, limit, out, log, done, cells);
        if full {
          PartLength(out, Unreported(log));
          OnlyUnreported(out, log);
          return;
        }
        done := done + cells;
      }
      forall r | r in log ensures CellOf(r) in done {
        InItsBucket(index, log, r);
      }
      UnreportedPart(log, done);
      OnlyUnreported(out, log);
      PartLength(out, Unreported(log));
      PartLength(Unreported(log), out);
    }

    /** Marks a record that carries the id, if there is one. */
    method MarkUsageReported(id: Id, at: Time) returns (found: bool)
      requires Valid()
      modifies this
      ensures Valid()
      ensures found <==> exists r :: r in old(log) && r.id == id
      ensures found ==>
                exists j: nat :: j < |old(log)| && old(log)[j].id == id && log == Marked(old(log), j, at)
                  && log == old(log)[j := old(log)[j].(reportedAt := Some(at))]
      ensures !found ==> log == old(log) && index == old(index)
    {
      var subs := index.Keys;
      ghost var done: set<Cell> := {};
      while subs != {}
        invariant subs <= index.Keys && index == old(index) && log == old(log)
        invariant forall c :: c in done <==> c.0 in index && c.0 !in subs && c.1 in index[c.0]
        invariant forall c, r :: c in done && r in Bucket(index, c) ==> r.id != id
        decreases |subs|
      {
        var s :| s in subs;
        subs := subs - {s};
        var metrics := index[s].Keys;
        while metrics != {}
          invariant index == old(index) && log == old(log) && s in index && metrics <= index[s].Keys
          invariant forall c ::
                      c in done <==> c.0 in index && c.0 !in subs && c.1 in index[c.0] && !(c.0 == s && c.1 in metrics)
          invariant forall c, r :: c in done && r in Bucket(index, c) ==> r.id != id
          decreases |metrics|
        {
          var m :| m in metrics;
          metrics := metrics - {m};
          var bucket := index[s][m];
          assert bucket == Bucket(index, (s, m));
          var k := FindId(bucket, id);
          if k < |bucket| {
            index := index[s := index[s][m := bucket[k := bucket[k].(reportedAt := Some(at))]]];
            ghost var j := MarkInBucket(old(index), log, index, (s, m), k, at);
            assert log[j] in log;
            log := Marked(log, j, at);
            return true;
          }
          done := done + {(s, m)};
        }
      }
      forall r | r in log ensures r.id != id {
        InItsBucket(index, log, r);
      }
      found := false;
    }
  }

  /** The first place of a bucket holding the id, or its length. */
  method FindId(bucket: seq<UsageRecord>, id: Id) returns (k: nat)
    ensures k <= |bucket|
    ensures k < |bucket| ==> bucket[k].id == id
    ensures forall i :: 0 <= i < k ==> bucket[i].id != id
  {
    k := 0;
    while k < |bucket|
      invariant k <= |bucket|
      invariant forall i :: 0 <= i < k ==> bucket[i].id != id
    {
      if bucket[k].id == id {
        return;
      }
      k := k + 1;
    }
  }

  lemma OnlyUnreported(out: seq<UsageRecord>, log: seq<UsageRecord>)
    requires multiset(out) <= multiset(Unreported(log))
    ensures forall r :: multiset(out)[r] <= if r.reportedAt.None? then multiset(log)[r] else 0
  {
    forall r ensures multiset(out)[r] <= if r.reportedAt.None? then multiset(log)[r] else 0 {
      UnreportedCount(log, r);
    }
  }

  lemma PartLength(a: seq<UsageRecord>, b: seq<UsageRecord>)
    requires multiset(a) <= multiset(b)
    ensures |a| <= |b|
  {
    assert multiset(b) == multiset(a) + (multiset(b) - multiset(a));
    assert |multiset(a)| == |a| && |multiset(b)| == |b|;
  }
}
