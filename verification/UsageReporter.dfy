/** The background sweeper over the in-memory stores (usage_reporter.go): one sweep, the run loop with
    its final flush, and how fast a backlog drains. */
module UsageReporters {
  import opened Types
  import opened SubscriptionIndex
  import opened SubscriptionStores
  import opened UsageLog
  import opened UsageStores
  import opened ReportProtocol

  const DEFAULT_BATCH := 100

  /** Marking one pending record leaves one fewer pending. */
  lemma {:induction false} MarkReduces(log: seq<UsageRecord>, j: nat, at: Time)
    requires j < |log| && log[j].reportedAt.None?
    ensures |Unreported(Marked(log, j, at))| == |Unreported(log)| - 1
  {
    var n := |log| - 1;
    if j < n {
      MarkReduces(log[..n], j, at);
      assert Marked(log, j, at)[..n] == Marked(log[..n], j, at);
    } else {
      assert Marked(log, j, at)[..n] == log[..n];
    }
  }

  /** `after` is `before` with exactly the records in `ids` marked. */
  ghost predicate MarkedJust(before: seq<UsageRecord>, after: seq<UsageRecord>, ids: set<Id>) {
    && |after| == |before|
    && (forall j :: 0 <= j < |before| ==>
         if before[j].id in ids then
           after[j].reportedAt.Some? && after[j] == before[j].(reportedAt := after[j].reportedAt)
         else after[j] == before[j])
  }

  /** The gateway takes a report of the record in this sweep. */
  predicate Goes(subs: map<Id, Subscription>, refused: set<Id>, r: UsageRecord) {
    r.subscriptionId in subs && subs[r.subscriptionId].providerId != [] && r.id !in refused
  }

  /** The acceptances of a batch, in order. */
  function Taken(subs: map<Id, Subscription>, refused: set<Id>, batch: seq<UsageRecord>): seq<Acceptance> {
    if batch == [] then [] else
      var last := batch[|batch| - 1];
      Taken(subs, refused, batch[..|batch| - 1])
      + (if Goes(subs, refused, last) then [Acceptance(last, subs[last.subscriptionId].providerId)] else [])
  }

  lemma TakenStep(subs: map<Id, Subscription>, refused: set<Id>, batch: seq<UsageRecord>, i: nat)
    requires i < |batch|
    ensures Taken(subs, refused, batch[..i + 1]) == Taken(subs, refused, batch[..i]) + Taken(subs, refused, [batch[i]])
  {
    assert batch[..i + 1][..i] == batch[..i] && [batch[i]][..0] == [];
  }

  ghost function IdsOf(taken: seq<Acceptance>): set<Id> {
    set i | 0 <= i < |taken| :: taken[i].record.id
  }

  /** The state of the log after the batch records `done` were dealt with. */
  ghost predicate SweptSo(log0: seq<UsageRecord>, log: seq<UsageRecord>, taken: seq<Acceptance>) {
    && MarkedJust(log0, log, IdsOf(taken))
    && |Unreported(log)| == |Unreported(log0)| - |taken|
  }

  lemma NoneTaken(log: seq<UsageRecord>)
    ensures SweptSo(log, log, [])
  {
  }

  lemma OneMore(log0: seq<UsageRecord>, log: seq<UsageRecord>, taken: seq<Acceptance>, a: Acceptance, p: nat, at: Time)
    requires DistinctIds(log0) && SweptSo(log0, log, taken)
    requires p < |log0| && log0[p] == a.record && a.record.reportedAt.None? && a.record.id !in IdsOf(taken)
    ensures p < |log| && SweptSo(log0, Marked(log, p, at), taken + [a])
  {
    assert log[p] == log0[p];
    MarkReduces(log, p, at);
    assert IdsOf(taken + [a]) == IdsOf(taken) + {a.record.id} by {
      assert (taken + [a])[|taken|] == a;
      assert forall i :: 0 <= i < |taken| ==> (taken + [a])[i] == taken[i];
    }
  }

  lemma MarkedDistinct(log0: seq<UsageRecord>, log: seq<UsageRecord>, ids: set<Id>)
    requires DistinctIds(log0) && MarkedJust(log0, log, ids)
    ensures DistinctIds(log)
  {
    assert forall j :: 0 <= j < |log| ==> log[j].id == log0[j].id;
  }

  lemma {:induction false} TakenIds(subs: map<Id, Subscription>, refused: set<Id>, batch: seq<UsageRecord>, id: Id)
    requires forall i :: 0 <= i < |batch| ==> batch[i].id != id
    ensures id !in IdsOf(Taken(subs, refused, batch))
  {
    if batch != [] {
      TakenIds(subs, refused, batch[..|batch| - 1], id);
    }
  }

  lemma ListedPlace(log: seq<UsageRecord>, chosen: seq<UsageRecord>, i: nat) returns (p: nat)
    requires DistinctIds(log) && multiset(chosen) <= multiset(Unreported(log)) && i < |chosen|
    ensures p < |log| && log[p] == chosen[i] && chosen[i].reportedAt.None?
    ensures forall k :: 0 <= k < i ==> chosen[k].id != chosen[i].id
  {
    var s := State(log, map[], [], None, [], [], []);
    ChosenCurrent(s, chosen);
    assert IsCurrent(s, chosen[i]);
    p :| p < |log| && log[p] == chosen[i];
  }

  // ---------------------------------------------------------------- records that stay pending

  predicate IsStuck(subs: map<Id, Subscription>, refused: set<Id>, r: UsageRecord) {
    r.reportedAt.None? && !Goes(subs, refused, r)
  }

  /** The pending records a sweep cannot get through. */
  function StuckOf(subs: map<Id, Subscription>, refused: set<Id>, records: seq<UsageRecord>): seq<UsageRecord> {
    if records == [] then [] else
      var last := records[|records| - 1];
      StuckOf(subs, refused, records[..|records| - 1]) + (if IsStuck(subs, refused, last) then [last] else [])
  }

  lemma {:induction false} StuckCount(subs: map<Id, Subscription>, refused: set<Id>, records: seq<UsageRecord>,
                                      r: UsageRecord)
    ensures multiset(StuckOf(subs, refused, records))[r] ==
            if IsStuck(subs, refused, r) then multiset(records)[r] else 0
  {
    if records != [] {
      StuckCount(subs, refused, records[..|records| - 1], r);
      assert records == records[..|records| - 1] + [records[|records| - 1]];
    }
  }

  lemma StuckPending(subs: map<Id, Subscription>, refused: set<Id>, log: seq<UsageRecord>)
    ensures |StuckOf(subs, refused, log)| <= |Unreported(log)|
  {
    forall r ensures multiset(StuckOf(subs, refused, log))[r] <= multiset(Unreported(log))[r] {
      StuckCount(subs, refused, log, r);
      UnreportedCount(log, r);
    }
    PartLength(StuckOf(subs, refused, log), Unreported(log));
  }

  /** What a sweep leaves of its batch is stuck. */
  lemma {:induction false} TakenRest(subs: map<Id, Subscription>, refused: set<Id>, chosen: seq<UsageRecord>)
    requires forall i :: 0 <= i < |chosen| ==> chosen[i].reportedAt.None?
    ensures |Taken(subs, refused, chosen)| + |StuckOf(subs, refused, chosen)| == |chosen|
  {
    if chosen != [] {
      TakenRest(subs, refused, chosen[..|chosen| - 1]);
    }
  }

  lemma {:induction false} ChosenStuck(subs: map<Id, Subscription>, refused: set<Id>, log: seq<UsageRecord>,
                                       chosen: seq<UsageRecord>)
    requires DistinctIds(log) && multiset(chosen) <= multiset(Unreported(log))
    ensures |chosen| - |StuckOf(subs, refused, log)| <= |Taken(subs, refused, chosen)| <= |chosen|
  {
    forall i | 0 <= i < |chosen| ensures chosen[i].reportedAt.None? {
      var p := ListedPlace(log, chosen, i);
    }
    TakenRest(subs, refused, chosen);
    forall r ensures multiset(StuckOf(subs, refused, chosen))[r] <= multiset(StuckOf(subs, refused, log))[r] {
      StuckCount(subs, refused, chosen, r);
      StuckCount(subs, refused, log, r);
      UnreportedCount(log, r);
      assert multiset(chosen)[r] <= multiset(Unreported(log))[r];
    }
    PartLength(StuckOf(subs, refused, chosen), StuckOf(subs, refused, log));
  }

  lemma {:induction false} TakenFrom(subs: map<Id, Subscription>, refused: set<Id>, batch: seq<UsageRecord>, id: Id)
    requires id in IdsOf(Taken(subs, refused, batch))
    ensures exists i :: 0 <= i < |batch| && batch[i].id == id && Goes(subs, refused, batch[i])
  {
    var n := |batch| - 1;
    if batch != [] {
      var taken, less := Taken(subs, refused, batch), Taken(subs, refused, batch[..n]);
      var k :| 0 <= k < |taken| && taken[k].record.id == id;
      if k < |less| {
        assert less[k].record.id == id;
        TakenFrom(subs, refused, batch[..n], id);
        var i :| 0 <= i < n && batch[..n][i].id == id && Goes(subs, refused, batch[..n][i]);
        assert batch[i].id == id;
      } else {
        assert batch[n].id == id && Goes(subs, refused, batch[n]);
      }
    }
  }

  /** A stuck record is not marked. */
  lemma {:induction false} StuckUnmarked(subs: map<Id, Subscription>, refused: set<Id>, log: seq<UsageRecord>,
                                         chosen: seq<UsageRecord>, j: nat)
    requires DistinctIds(log) && multiset(chosen) <= multiset(Unreported(log)) && j < |log|
    requires IsStuck(subs, refused, log[j])
    ensures log[j].id !in IdsOf(Taken(subs, refused, chosen))
  {
    if log[j].id in IdsOf(Taken(subs, refused, chosen)) {
      TakenFrom(subs, refused, chosen, log[j].id);
      var i :| 0 <= i < |chosen| && chosen[i].id == log[j].id && Goes(subs, refused, chosen[i]);
      var p := ListedPlace(log, chosen, i);
    }
  }

  lemma {:induction false} TakenIfGoes(subs: map<Id, Subscription>, refused: set<Id>, batch: seq<UsageRecord>, i: nat)
    requires i < |batch| && Goes(subs, refused, batch[i])
    ensures batch[i].id in IdsOf(Taken(subs, refused, batch))
  {
    var n := |batch| - 1;
    var taken, less := Taken(subs, refused, batch), Taken(subs, refused, batch[..n]);
    if i < n {
      TakenIfGoes(subs, refused, batch[..n], i);
      var k :| 0 <= k < |less| && less[k].record.id == batch[i].id;
      assert taken[k] == less[k];
    } else {
      assert taken[|less|].record == batch[n];
    }
  }

  /** The gateway was asked about the record in this sweep and took it. */
  predicate WentThrough(subs: map<Id, Subscription>, refused: set<Id>, chosen: seq<UsageRecord>, r: UsageRecord) {
    r in chosen && r.id !in refused && r.subscriptionId in subs && subs[r.subscriptionId].providerId != []
  }

  /** Exactly the listed records whose subscription is stored with a provider id and whose report was not refused
      are marked; every other record, refused ones included, is as it was. */
  ghost predicate MarkedExactly(subs: map<Id, Subscription>, refused: set<Id>, chosen: seq<UsageRecord>,
                                before: seq<UsageRecord>, after: seq<UsageRecord>)
  {
    && |after| == |before|
    && (forall j :: 0 <= j < |before| ==>
         if WentThrough(subs, refused, chosen, before[j]) then
           after[j].reportedAt.Some? && after[j] == before[j].(reportedAt := after[j].reportedAt)
         else after[j] == before[j])
  }

  lemma SweptExactly(subs: map<Id, Subscription>, refused: set<Id>, chosen: seq<UsageRecord>, log0: seq<UsageRecord>,
                     log: seq<UsageRecord>)
    requires DistinctIds(log0) && multiset(chosen) <= multiset(Unreported(log0))
    requires MarkedJust(log0, log, IdsOf(Taken(subs, refused, chosen)))
    ensures MarkedExactly(subs, refused, chosen, log0, log)
  {
    forall j | 0 <= j < |log0|
      ensures WentThrough(subs, refused, chosen, log0[j]) <==> log0[j].id in IdsOf(Taken(subs, refused, chosen))
    {
      if WentThrough(subs, refused, chosen, log0[j]) {
        var i :| 0 <= i < |chosen| && chosen[i] == log0[j];
        TakenIfGoes(subs, refused, chosen, i);
      } else if log0[j].id in IdsOf(Taken(subs, refused, chosen)) {
        TakenFrom(subs, refused, chosen, log0[j].id);
        var i :| 0 <= i < |chosen| && chosen[i].id == log0[j].id && Goes(subs, refused, chosen[i]);
        var p := ListedPlace(log0, chosen, i);
      }
    }
  }

  /** Every acceptance is of a listed record, with the provider id its subscription is stored with, and not refused. */
  lemma {:induction false} TakenTruly(subs: map<Id, Subscription>, refused: set<Id>, chosen: seq<UsageRecord>, k: nat)
    requires k < |Taken(subs, refused, chosen)|
    ensures var a := Taken(subs, refused, chosen)[k];
            && a.record in chosen && a.record.id !in refused && a.providerSubId != []
            && a.record.subscriptionId in subs && subs[a.record.subscriptionId].providerId == a.providerSubId
  {
    var n := |chosen| - 1;
    if k < |Taken(subs, refused, chosen[..n])| {
      TakenTruly(subs, refused, chosen[..n], k);
    }
  }

  lemma {:induction false} SameStuck(subs: map<Id, Subscription>, refused: set<Id>, a: seq<UsageRecord>,
                                     b: seq<UsageRecord>)
    requires |a| == |b|
    requires forall j :: 0 <= j < |a| ==> IsStuck(subs, refused, a[j]) == IsStuck(subs, refused, b[j])
    ensures |StuckOf(subs, refused, a)| == |StuckOf(subs, refused, b)|
  {
    if a != [] {
      SameStuck(subs, refused, a[..|a| - 1], b[..|b| - 1]);
    }
  }

  lemma StuckKept(subs: map<Id, Subscription>, refused: set<Id>, log0: seq<UsageRecord>, log: seq<UsageRecord>,
                  chosen: seq<UsageRecord>)
    requires DistinctIds(log0) && multiset(chosen) <= multiset(Unreported(log0))
    requires MarkedJust(log0, log, IdsOf(Taken(subs, refused, chosen)))
    ensures |StuckOf(subs, refused, log)| == |StuckOf(subs, refused, log0)|
  {
    forall j | 0 <= j < |log0| ensures IsStuck(subs, refused, log0[j]) == IsStuck(subs, refused, log[j]) {
      if IsStuck(subs, refused, log0[j]) {
        StuckUnmarked(subs, refused, log0, chosen, j);
      }
    }
    SameStuck(subs, refused, log0, log);
  }

  /** What is left of a backlog of `n` after `k` full sweeps. */
  function Left(n: nat, batch: nat, k: nat): nat {
    if n <= k * batch then 0 else n - k * batch
  }

  lemma LeftStep(n: nat, batch: nat, k: nat)
    ensures Left(n, batch, k + 1) == Left(Left(n, batch, k), batch, 1)
  {
    assert (k + 1) * batch == k * batch + batch;
  }

  /** Less left before a sweep is less left after it. */
  lemma LeftLess(m: nat, n: nat, batch: nat)
    requires m <= n
    ensures Left(m, batch, 1) <= Left(n, batch, 1)
  {
  }

  class UsageReporter {
    const subs: SubscriptionStore
    const usage: UsageStore
    const batch: int
    ghost var accepted: seq<Acceptance>

    constructor (subs: SubscriptionStore, usage: UsageStore, batch: int)
      ensures this.subs == subs && this.usage == usage && accepted == []
      ensures this.batch == (if batch <= 0 then 100 else batch) && this.batch >= 1
    {
      this.subs, this.usage := subs, usage;
      this.batch := if batch <= 0 then DEFAULT_BATCH else batch;
      accepted := [];
    }

    ghost predicate Valid()
      reads this, subs, usage
    {
      subs.Valid() && usage.Valid() && DistinctIds(usage.log) && batch >= 1
    }

    ghost function Pending(): nat
      reads this, usage
    {
      |Unreported(usage.log)|
    }

    /** One sweep. `refused` are the records whose report the gateway turns down this time; `clock` is
        what it reads after each acceptance. The records of the batch that went through, and no
        others, end up marked. */
    method Sweep(refused: set<Id>, clock: nat -> Time) returns (ghost chosen: seq<UsageRecord>)
      requires Valid()
      modifies this, usage
      ensures Valid()
      ensures multiset(chosen) <= multiset(Unreported(old(usage.log)))
      ensures |chosen| == Min(batch, old(Pending()))
      ensures accepted == old(accepted) + Taken(subs.subs, refused, chosen)
      ensures MarkedJust(old(usage.log), usage.log, IdsOf(Taken(subs.subs, refused, chosen)))
      ensures MarkedExactly(subs.subs, refused, chosen, old(usage.log), usage.log)
      ensures Pending() == old(Pending()) - |Taken(subs.subs, refused, chosen)|
    {
      var records := usage.ListUnreportedUsage(batch);
      chosen := records;
      ghost var log0 := usage.log;
      ReportBatch(records, refused, clock);
      MarkedDistinct(log0, usage.log, IdsOf(Taken(subs.subs, refused, chosen)));
      SweptExactly(subs.subs, refused, chosen, log0, usage.log);
    }

    /** The listed records one after the other. */
    method ReportBatch(records: seq<UsageRecord>, refused: set<Id>, clock: nat -> Time)
      requires usage.Valid() && DistinctIds(usage.log) && multiset(records) <= multiset(Unreported(usage.log))
      modifies this`accepted, usage
      ensures usage.Valid() && SweptSo(old(usage.log), usage.log, Taken(subs.subs, refused, records))
      ensures accepted == old(accepted) + Taken(subs.subs, refused, records)
    {
      ghost var log0, accepted0 := usage.log, accepted;
      ghost var taken := [];
      NoneTaken(log0);
      for i := 0 to |records|
        invariant usage.Valid() && taken == Taken(subs.subs, refused, records[..i])
        invariant accepted == accepted0 + taken
        invariant SweptSo(log0, usage.log, taken)
      {
        TakenStep(subs.subs, refused, records, i);
        ghost var p := ListedPlace(log0, records, i);
        TakenIds(subs.subs, refused, records[..i], records[i].id);
        ReportOne(records[i], refused, clock(i), log0, p, accepted0, taken);
        taken := taken + Taken(subs.subs, refused, [records[i]]);
      }
      assert records[..|records|] == records;
    }

    /** One record of the batch: skipped, refused, or reported and marked. */
    method ReportOne(r: UsageRecord, refused: set<Id>, at: Time, ghost log0: seq<UsageRecord>, ghost p: nat,
                     ghost accepted0: seq<Acceptance>, ghost taken: seq<Acceptance>)
      requires usage.Valid() && DistinctIds(log0) && SweptSo(log0, usage.log, taken)
      requires p < |log0| && log0[p] == r && r.reportedAt.None? && r.id !in IdsOf(taken)
      requires accepted == accepted0 + taken
      modifies this`accepted, usage
      ensures usage.Valid()
      ensures var more := taken + Taken(subs.subs, refused, [r]);
              SweptSo(log0, usage.log, more) && accepted == accepted0 + more
    {
      assert [r][..0] == [] && taken + [] == taken;
      var found := subs.GetSubscription(r.subscriptionId);
      if found.None? || found.value.providerId == [] {
        assert Taken(subs.subs, refused, [r]) == [];
        return;
      }
      if r.id in refused {
        assert Taken(subs.subs, refused, [r]) == [];
        return;
      }
      assert Taken(subs.subs, refused, [r]) == [Acceptance(r, found.value.providerId)];
      Accepted(Acceptance(r, found.value.providerId), at, log0, p, accepted0, taken);
    }

    /** The gateway took the report `a`: its record is marked. */
    method Accepted(a: Acceptance, at: Time, ghost log0: seq<UsageRecord>, ghost p: nat,
                    ghost accepted0: seq<Acceptance>, ghost taken: seq<Acceptance>)
      requires usage.Valid() && DistinctIds(log0) && SweptSo(log0, usage.log, taken)
      requires p < |log0| && log0[p] == a.record && a.record.reportedAt.None? && a.record.id !in IdsOf(taken)
      requires accepted == accepted0 + taken
      modifies this`accepted, usage
      ensures usage.Valid() && SweptSo(log0, usage.log, taken + [a]) && accepted == accepted0 + (taken + [a])
    {
      accepted := accepted + [a];
      assert accepted0 + taken + [a] == accepted0 + (taken + [a]);
      ghost var before := usage.log;
      MarkedDistinct(log0, before, IdsOf(taken));
      MarkStored(a.record.id, p, at);
      OneMore(log0, before, taken, a, p, at);
    }

    /** Marking an id marks the one place that has it. */
    method MarkStored(id: Id, ghost p: nat, at: Time)
      requires usage.Valid() && DistinctIds(usage.log) && p < |usage.log| && usage.log[p].id == id
      modifies usage
      ensures usage.Valid() && usage.log == Marked(old(usage.log), p, at)
    {
      assert usage.log[p] in usage.log;
      ghost var before := usage.log;
      var _ := usage.MarkUsageReported(id, at);
      ghost var j: nat :| j < |before| && before[j].id == id && usage.log == Marked(before, j, at);
    }

    /** The pending records that will not go through in any sweep. */
    ghost function Stuck(refused: set<Id>): nat
      reads this, subs, usage
    {
      |StuckOf(subs.subs, refused, usage.log)|
    }

    /** The pending records that will. */
    ghost function Going(refused: set<Id>): nat
      reads this, subs, usage
    {
      StuckPending(subs.subs, refused, usage.log);
      Pending() - Stuck(refused)
    }

    /** The sweeper's life: a sweep per tick, and a final flush when it is told to stop, with the same
        records refused each time. Stuck records stay, and while there are fewer than a batch of them
        every sweep clears the rest of its batch. With none stuck each sweep clears a full batch, and the
        flush alone suffices exactly when the backlog fits one batch. */
    method Run(refused: set<Id>, ticks: nat, clock: nat -> Time)
      requires Valid()
      modifies this, usage
      ensures Valid() && Stuck(refused) == old(Stuck(refused))
      ensures old(Stuck(refused)) < batch ==>
                Going(refused) <= Left(old(Going(refused)), batch - old(Stuck(refused)), ticks + 1)
      ensures old(Stuck(refused)) == 0 ==> Pending() == Left(old(Pending()), batch, ticks + 1)
      ensures old(Stuck(refused)) == 0 && ticks == 0 ==> (Pending() == 0 <==> old(Pending()) <= batch)
    {
      ghost var stuck, going, pending := Stuck(refused), Going(refused), Pending();
      for i := 0 to ticks
        invariant Valid() && Stuck(refused) == stuck
        invariant stuck < batch ==> Going(refused) <= Left(going, batch - stuck, i)
        invariant stuck == 0 ==> Pending() == Left(pending, batch, i)
      {
        ghost var before := Going(refused);
        SweepPast(refused, clock);
        LeftStep(pending, batch, i);
        if stuck < batch {
          LeftStep(going, batch - stuck, i);
          LeftLess(before, Left(going, batch - stuck, i), batch - stuck);
        }
      }
      ghost var before := Going(refused);
      SweepPast(refused, clock);
      LeftStep(pending, batch, ticks);
      if stuck < batch {
        LeftStep(going, batch - stuck, ticks);
        LeftLess(before, Left(going, batch - stuck, ticks), batch - stuck);
      }
    }

    /** One sweep past the stuck records. */
    method SweepPast(refused: set<Id>, clock: nat -> Time)
      requires Valid()
      modifies this, usage
      ensures Valid() && Stuck(refused) == old(Stuck(refused))
      ensures old(Stuck(refused)) < batch ==>
              Going(refused) <= Left(old(Going(refused)), batch - old(Stuck(refused)), 1)
      ensures old(Stuck(refused)) == 0 ==> Pending() == Left(old(Pending()), batch, 1)
    {
      ghost var log0 := usage.log;
      ghost var chosen := Sweep(refused, clock);
      StuckKept(subs.subs, refused, log0, usage.log, chosen);
      ChosenStuck(subs.subs, refused, log0, chosen);
    }
  }
}
