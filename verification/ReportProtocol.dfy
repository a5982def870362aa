/** The persist-then-report protocol (usage_reporter.go, usage.go:26-53): records are stored first, one
    sweeper reports them to the gateway and marks them, and the process may crash at any point. The
    ledgers `accepted`, `direct` and `lost` record what the gateway took and which marks never
    happened; no step reads them. */
module ReportProtocol {
  import opened Types
  import opened UsageLog
  import opened UsageStores

  /** A report the gateway took: the record reported and the provider subscription it was billed to. */
  datatype Acceptance = Acceptance(record: UsageRecord, providerSubId: Text)

  datatype State = State(
    log: seq<UsageRecord>,
    providerOf: map<Id, Text>,
    batch: seq<UsageRecord>,
    unmarked: Option<UsageRecord>,
    accepted: seq<Acceptance>,
    direct: seq<Acceptance>,
    lost: seq<UsageRecord>)

  datatype Event =
    | Record(record: UsageRecord)
    | ReportDirectly(place: nat)
    | AddSubscription(id: Id, providerSubId: Text)
    | BeginSweep(chosen: seq<UsageRecord>)
    | Skip
    | Refuse
    | Accept
    | MarkDone(at: Time)
    | MarkFails
    | Crash

  predicate Reportable(s: State, r: UsageRecord) {
    r.subscriptionId in s.providerOf && s.providerOf[r.subscriptionId] != []
  }

  ghost predicate IsPlaceOf(s: State, j: int, id: Id) {
    0 <= j < |s.log| && s.log[j].id == id
  }

  /** What may happen: record ids are new, a sweep starts from what the store lists. */
  ghost predicate Enabled(limit: int, s: State, e: Event) {
    match e
    case Record(r) => r.reportedAt.None? && forall j :: !IsPlaceOf(s, j, r.id)
    case ReportDirectly(j) => j < |s.log| && Reportable(s, s.log[j])
    case AddSubscription(id, _) => id !in s.providerOf
    case BeginSweep(chosen) =>
      && s.batch == [] && s.unmarked.None?
      && multiset(chosen) <= multiset(Unreported(s.log))
      && |chosen| == Min(Max(limit, 1), |Unreported(s.log)|)
    case Skip => s.batch != [] && s.unmarked.None? && !Reportable(s, s.batch[0])
    case Refuse => s.batch != [] && s.unmarked.None? && Reportable(s, s.batch[0])
    case Accept => s.batch != [] && s.unmarked.None? && Reportable(s, s.batch[0])
    case MarkDone(_) => s.unmarked.Some? && exists j :: IsPlaceOf(s, j, s.unmarked.value.id)
    case MarkFails => s.unmarked.Some?
    case Crash => true
  }

  ghost function Apply(limit: int, s: State, e: Event): State
    requires Enabled(limit, s, e)
  {
    match e
    case Record(r) => s.(log := s.log + [r])
    case ReportDirectly(j) =>
      s.(direct := s.direct + [Acceptance(s.log[j], s.providerOf[s.log[j].subscriptionId])])
    case AddSubscription(id, pid) => s.(providerOf := s.providerOf[id := pid])
    case BeginSweep(chosen) => s.(batch := chosen)
    case Skip => s.(batch := s.batch[1..])
    case Refuse => s.(batch := s.batch[1..])
    case Accept =>
      var r := s.batch[0];
      s.(batch := s.batch[1..], unmarked := Some(r),
         accepted := s.accepted + [Acceptance(r, s.providerOf[r.subscriptionId])])
    case MarkDone(at) =>
      var j :| IsPlaceOf(s, j, s.unmarked.value.id);
      s.(log := Marked(s.log, j, at), unmarked := None)
    case MarkFails => s.(lost := s.lost + [s.unmarked.value], unmarked := None)
    case Crash =>
      s.(batch := [], lost := s.lost + (if s.unmarked.Some? then [s.unmarked.value] else []), unmarked := None)
  }

  const INITIAL := State([], map[], [], None, [], [], [])

  ghost predicate Possible(limit: int, events: seq<Event>)
    decreases |events|, 0
  {
    events == [] ||
      var before := events[..|events| - 1];
      Possible(limit, before) && Enabled(limit, Exec(limit, before), events[|events| - 1])
  }

  ghost function Exec(limit: int, events: seq<Event>): State
    requires Possible(limit, events)
    decreases |events|, 1
  {
    if events == [] then INITIAL else
      Apply(limit, Exec(limit, events[..|events| - 1]), events[|events| - 1])
  }

  ghost predicate Reaches(limit: int, events: seq<Event>, s: State) {
    Possible(limit, events) && Exec(limit, events) == s
  }

  // ---------------------------------------------------------------- the books

  /** What a record counts for; it may not depend on the mark. */
  type Weight = UsageRecord -> int

  ghost predicate IgnoresMark(w: Weight) {
    forall r: UsageRecord, mark :: w(r.(reportedAt := mark)) == w(r)
  }

  ghost function Weigh(w: Weight, records: seq<UsageRecord>): int {
    if records == [] then 0 else Weigh(w, records[..|records| - 1]) + w(records[|records| - 1])
  }

  ghost function WeighReported(w: Weight, log: seq<UsageRecord>): int {
    if log == [] then 0 else
      var last := log[|log| - 1];
      WeighReported(w, log[..|log| - 1]) + (if last.reportedAt.Some? then w(last) else 0)
  }

  ghost function WeighAccepted(w: Weight, accepted: seq<Acceptance>): int {
    if accepted == [] then 0 else
      WeighAccepted(w, accepted[..|accepted| - 1]) + w(accepted[|accepted| - 1].record)
  }

  /** Everything the gateway took in sweeps is marked, lost, or about to be marked. */
  ghost predicate Balanced(w: Weight, s: State) {
    WeighAccepted(w, s.accepted)
      == WeighReported(w, s.log) + Weigh(w, s.lost) + (if s.unmarked.Some? then w(s.unmarked.value) else 0)
  }

  // ---------------------------------------------------------------- the invariant

  ghost predicate DistinctIds(log: seq<UsageRecord>) {
    forall i, j :: 0 <= i < j < |log| ==> log[i].id != log[j].id
  }

  /** A copy a sweep holds is still the stored record, and still unreported. */
  ghost predicate IsCurrent(s: State, r: UsageRecord) {
    r in s.log && r.reportedAt.None?
  }

  ghost predicate SweepsCurrent(s: State) {
    && DistinctIds(s.log)
    && (forall i :: 0 <= i < |s.batch| ==> IsCurrent(s, s.batch[i]))
    && (forall i, j :: 0 <= i < j < |s.batch| ==> s.batch[i].id != s.batch[j].id)
    && (s.unmarked.Some? ==>
         && IsCurrent(s, s.unmarked.value)
         && forall i :: 0 <= i < |s.batch| ==> s.batch[i].id != s.unmarked.value.id)
  }

  /** An acceptance names a stored record and carries its own data and provider subscription. */
  ghost predicate Truthful(s: State, a: Acceptance) {
    && (exists j :: IsPlaceOf(s, j, a.record.id) && s.log[j].(reportedAt := a.record.reportedAt) == a.record)
    && Get(s.providerOf, a.record.subscriptionId) == Some(a.providerSubId) && a.providerSubId != []
  }

  ghost predicate AllTruthful(s: State) {
    && (forall i :: 0 <= i < |s.accepted| ==> Truthful(s, s.accepted[i]))
    && (forall i :: 0 <= i < |s.direct| ==> Truthful(s, s.direct[i]))
  }

  // ---------------------------------------------------------------- steps

  lemma {:induction false} WeighMark(w: Weight, log: seq<UsageRecord>, j: nat, at: Time)
    requires IgnoresMark(w) && j < |log| && log[j].reportedAt.None?
    ensures WeighReported(w, Marked(log, j, at)) == WeighReported(w, log) + w(log[j])
  {
    var n := |log| - 1;
    if j < n {
      WeighMark(w, log[..n], j, at);
      assert Marked(log, j, at)[..n] == Marked(log[..n], j, at);
    } else {
      assert Marked(log, j, at)[..n] == log[..n];
    }
  }

  lemma UniquePlace(s: State, r: UsageRecord, j: nat)
    requires DistinctIds(s.log) && r in s.log && IsPlaceOf(s, j, r.id)
    ensures s.log[j] == r
  {
    var i :| 0 <= i < |s.log| && s.log[i] == r;
  }

  lemma BalanceStep(limit: int, w: Weight, s: State, e: Event)
    requires IgnoresMark(w) && Enabled(limit, s, e) && SweepsCurrent(s) && Balanced(w, s)
    ensures Balanced(w, Apply(limit, s, e))
  {
    var s' := Apply(limit, s, e);
    match e
    case Record(r) => assert s'.log[..|s.log|] == s.log;
    case Accept => assert s'.accepted[..|s.accepted|] == s.accepted;
    case MarkDone(at) =>
      var j :| IsPlaceOf(s, j, s.unmarked.value.id) && s'.log == Marked(s.log, j, at);
      UniquePlace(s, s.unmarked.value, j);
      WeighMark(w, s.log, j, at);
    case MarkFails => assert s'.lost[..|s.lost|] == s.lost;
    case Crash =>
      assert s.unmarked.None? ==> s'.lost == s.lost;
      assert s.unmarked.Some? ==> s'.lost[..|s.lost|] == s.lost;
    case _ =>
  }

  lemma UnreportedMember(log: seq<UsageRecord>, r: UsageRecord)
    requires multiset(Unreported(log))[r] > 0
    ensures r in log && r.reportedAt.None?
  {
    UnreportedCount(log, r);
    assert r in multiset(log);
  }

  /** With distinct ids no record occurs twice in the log. */
  lemma {:induction false} OccursOnce(log: seq<UsageRecord>, r: UsageRecord)
    requires DistinctIds(log)
    ensures multiset(log)[r] <= 1
  {
    if log != [] {
      var n := |log| - 1;
      OccursOnce(log[..n], r);
      assert log == log[..n] + [log[n]];
      assert forall i :: 0 <= i < n ==> log[..n][i].id != log[n].id;
      assert log[n] !in log[..n];
    }
  }

  lemma TwiceInSeq<T>(a: seq<T>, i: nat, j: nat)
    requires i < j < |a| && a[i] == a[j]
    ensures multiset(a)[a[i]] >= 2
  {
    assert a == a[..i] + [a[i]] + a[i + 1..j] + [a[j]] + a[j + 1..];
  }

  lemma ChosenCurrent(s: State, chosen: seq<UsageRecord>)
    requires DistinctIds(s.log) && multiset(chosen) <= multiset(Unreported(s.log))
    ensures forall i :: 0 <= i < |chosen| ==> IsCurrent(s, chosen[i])
    ensures forall i, j :: 0 <= i < j < |chosen| ==> chosen[i].id != chosen[j].id
  {
    forall i | 0 <= i < |chosen| ensures IsCurrent(s, chosen[i]) {
      assert chosen[i] in multiset(chosen);
      UnreportedMember(s.log, chosen[i]);
    }
    forall i, j | 0 <= i < j < |chosen| ensures chosen[i].id != chosen[j].id {
      if chosen[i].id == chosen[j].id {
        var p :| 0 <= p < |s.log| && s.log[p] == chosen[i];
        UniquePlace(s, chosen[j], p);
        TwiceInSeq(chosen, i, j);
        UnreportedCount(s.log, chosen[i]);
        OccursOnce(s.log, chosen[i]);
      }
    }
  }

  lemma CurrentStep(limit: int, s: State, e: Event)
    requires Enabled(limit, s, e) && SweepsCurrent(s)
    ensures SweepsCurrent(Apply(limit, s, e))
  {
    var s' := Apply(limit, s, e);
    match e
    case Record(r) =>
      forall i | 0 <= i < |s.log| ensures s.log[i].id != r.id {
        assert !IsPlaceOf(s, i, r.id);
      }
    case BeginSweep(chosen) => ChosenCurrent(s, chosen);
    case MarkDone(at) =>
      var j :| IsPlaceOf(s, j, s.unmarked.value.id) && s'.log == Marked(s.log, j, at);
      forall r | r in s.log && r.id != s.unmarked.value.id ensures r in s'.log {
        var i :| 0 <= i < |s.log| && s.log[i] == r;
        assert s'.log[i] == r;
      }
    case _ =>
  }

  lemma TruthKept(s: State, s': State, a: Acceptance)
    requires Truthful(s, a)
    requires |s.log| <= |s'.log|
    requires forall j :: 0 <= j < |s.log| ==> s'.log[j] == s.log[j].(reportedAt := s'.log[j].reportedAt)
    requires forall id :: id in s.providerOf ==> Get(s'.providerOf, id) == Some(s.providerOf[id])
    ensures Truthful(s', a)
  {
    var j :| IsPlaceOf(s, j, a.record.id) && s.log[j].(reportedAt := a.record.reportedAt) == a.record;
    assert IsPlaceOf(s', j, a.record.id);
  }

  lemma TruthStep(limit: int, s: State, e: Event)
    requires Enabled(limit, s, e) && SweepsCurrent(s) && AllTruthful(s)
    ensures AllTruthful(Apply(limit, s, e))
  {
    var s' := Apply(limit, s, e);
    forall a | Truthful(s, a) ensures Truthful(s', a) {
      TruthKept(s, s', a);
    }
    if e.Accept? {
      var j :| 0 <= j < |s.log| && s.log[j] == s.batch[0];
      assert IsPlaceOf(s', j, s.batch[0].id);
    }
    if e.ReportDirectly? {
      assert IsPlaceOf(s', e.place, s.log[e.place].id);
    }
  }

  lemma {:induction false} RunSteady(limit: int, events: seq<Event>, s: State)
    requires Reaches(limit, events, s)
    ensures SweepsCurrent(s) && AllTruthful(s)
  {
    if events != [] {
      var before, e := events[..|events| - 1], events[|events| - 1];
      RunSteady(limit, before, Exec(limit, before));
      CurrentStep(limit, Exec(limit, before), e);
      TruthStep(limit, Exec(limit, before), e);
    }
  }

  lemma {:induction false} RunBalanced(limit: int, w: Weight, events: seq<Event>, s: State)
    requires IgnoresMark(w) && Reaches(limit, events, s)
    ensures Balanced(w, s)
  {
    if events != [] {
      var before := events[..|events| - 1];
      RunSteady(limit, before, Exec(limit, before));
      RunBalanced(limit, w, before, Exec(limit, before));
      BalanceStep(limit, w, Exec(limit, before), events[|events| - 1]);
    }
  }

  // ---------------------------------------------------------------- what it means

  ghost function ById(id: Id): Weight {
    (r: UsageRecord) => if r.id == id then 1 else 0
  }

  ghost function ByCell(cell: Cell): Weight {
    (r: UsageRecord) => if CellOf(r) == cell then r.quantity else 0
  }

  lemma {:induction false} ReportedOnce(log: seq<UsageRecord>, id: Id)
    requires DistinctIds(log)
    ensures WeighReported(ById(id), log)
         == if exists j :: 0 <= j < |log| && log[j].id == id && log[j].reportedAt.Some? then 1 else 0
  {
    if log != [] {
      var n := |log| - 1;
      ReportedOnce(log[..n], id);
      if j :| 0 <= j < n && log[..n][j].id == id && log[..n][j].reportedAt.Some? {
        assert log[j].id != log[n].id && log[j].reportedAt.Some?;
      } else if log[n].id == id && log[n].reportedAt.Some? {
      } else {
        forall j | 0 <= j < |log| ensures !(log[j].id == id && log[j].reportedAt.Some?) {
          assert j < n ==> log[..n][j] == log[j];
        }
      }
    }
  }

  lemma {:induction false} AcceptedWitness(accepted: seq<Acceptance>, id: Id)
    ensures WeighAccepted(ById(id), accepted) >= 0
    ensures WeighAccepted(ById(id), accepted) > 0 ==> exists i :: 0 <= i < |accepted| && accepted[i].record.id == id
  {
    if accepted != [] {
      var n := |accepted| - 1;
      AcceptedWitness(accepted[..n], id);
      if accepted[n].record.id != id && WeighAccepted(ById(id), accepted) > 0 {
        var i :| 0 <= i < n && accepted[..n][i].record.id == id;
        assert accepted[i].record.id == id;
      }
    }
  }

  lemma {:induction false} LostNonNegative(lost: seq<UsageRecord>, id: Id)
    ensures Weigh(ById(id), lost) >= 0
  {
    if lost != [] {
      LostNonNegative(lost[..|lost| - 1], id);
    }
  }

  ghost predicate IsMarked(s: State, id: Id) {
    exists j :: 0 <= j < |s.log| && s.log[j].id == id && s.log[j].reportedAt.Some?
  }

  /** Main result. In every run the number of times the gateway took a record in sweeps is one if it is
      marked, plus one for each mark of it that was lost, plus one if its mark is still to come. */
  lemma {:induction false} AcceptancesAccounted(limit: int, events: seq<Event>, s: State, id: Id)
    requires Reaches(limit, events, s)
    ensures WeighAccepted(ById(id), s.accepted)
              == (if IsMarked(s, id) then 1 else 0) + Weigh(ById(id), s.lost)
                 + (if s.unmarked.Some? && s.unmarked.value.id == id then 1 else 0)
  {
    RunSteady(limit, events, s);
    RunBalanced(limit, ById(id), events, s);
    ReportedOnce(s.log, id);
  }

  /** Main result. A record marked as reported was taken by the gateway at least once, with its own
      metric, quantity and provider subscription. */
  lemma {:induction false} MarkedWasAccepted(limit: int, events: seq<Event>, s: State, j: nat)
    requires Reaches(limit, events, s) && j < |s.log| && s.log[j].reportedAt.Some?
    ensures exists i :: 0 <= i < |s.accepted|
              && s.accepted[i].record == s.log[j].(reportedAt := None)
              && Get(s.providerOf, s.log[j].subscriptionId) == Some(s.accepted[i].providerSubId)
  {
    var id := s.log[j].id;
    AcceptancesAccounted(limit, events, s, id);
    LostNonNegative(s.lost, id);
    AcceptedWitness(s.accepted, id);
    var i :| 0 <= i < |s.accepted| && s.accepted[i].record.id == id;
    RunSteady(limit, events, s);
    AcceptedUnreported(limit, events, s);
    assert Truthful(s, s.accepted[i]);
    var p :| IsPlaceOf(s, p, id) && s.log[p].(reportedAt := s.accepted[i].record.reportedAt) == s.accepted[i].record;
  }

  /** Sweeps report copies taken before the mark. */
  lemma {:induction false} AcceptedUnreported(limit: int, events: seq<Event>, s: State)
    requires Reaches(limit, events, s)
    ensures forall i :: 0 <= i < |s.accepted| ==> s.accepted[i].record.reportedAt.None?
  {
    if events != [] {
      var before := events[..|events| - 1];
      AcceptedUnreported(limit, before, Exec(limit, before));
      RunSteady(limit, before, Exec(limit, before));
    }
  }

  /** Main result. While no mark was lost and none is outstanding, the totals the gateway took in sweeps
      equal the totals of the marked records, per subscription and metric. */
  lemma {:induction false} TotalsAgree(limit: int, events: seq<Event>, s: State, cell: Cell)
    requires Reaches(limit, events, s) && s.lost == [] && s.unmarked.None?
    ensures WeighAccepted(ByCell(cell), s.accepted) == WeighReported(ByCell(cell), s.log)
  {
    RunBalanced(limit, ByCell(cell), events, s);
  }

  /** A record with a direct report is taken again by the sweeper: once marked, and no mark of it lost,
      it has been taken exactly once if and only if it was never reported directly. */
  lemma {:induction false} ExactlyOnce(limit: int, events: seq<Event>, s: State, id: Id)
    requires Reaches(limit, events, s) && IsMarked(s, id) && Weigh(ById(id), s.lost) == 0
    requires s.unmarked.Some? ==> s.unmarked.value.id != id
    ensures (WeighAccepted(ById(id), s.accepted) + WeighAccepted(ById(id), s.direct) == 1)
            <==> (forall i :: 0 <= i < |s.direct| ==> s.direct[i].record.id != id)
  {
    AcceptancesAccounted(limit, events, s, id);
    AcceptedWitness(s.direct, id);
    DirectCounts(s.direct, id);
  }

  lemma {:induction false} DirectCounts(direct: seq<Acceptance>, id: Id)
    ensures (exists i :: 0 <= i < |direct| && direct[i].record.id == id) ==> WeighAccepted(ById(id), direct) > 0
  {
    if direct != [] {
      var n := |direct| - 1;
      DirectCounts(direct[..n], id);
      AcceptedWitness(direct[..n], id);
      if i :| 0 <= i < |direct| && direct[i].record.id == id {
        assert i < n ==> direct[..n][i] == direct[i];
      }
    }
  }

  // ---------------------------------------------------------------- starvation

  /** The unreported records whose subscription has no provider id. */
  function Blocked(s: State, records: seq<UsageRecord>): seq<UsageRecord> {
    if records == [] then [] else
      var last := records[|records| - 1];
      Blocked(s, records[..|records| - 1]) + (if Reportable(s, last) then [] else [last])
  }

  lemma {:induction false} BlockedCount(s: State, records: seq<UsageRecord>, r: UsageRecord)
    ensures multiset(Blocked(s, records))[r] == if Reportable(s, r) then 0 else multiset(records)[r]
  {
    if records != [] {
      BlockedCount(s, records[..|records| - 1], r);
      assert records == records[..|records| - 1] + [records[|records| - 1]];
    }
  }

  lemma {:induction false} BlockedEach(s: State, records: seq<UsageRecord>, i: nat)
    requires i < |Blocked(s, records)|
    ensures !Reportable(s, Blocked(s, records)[i])
  {
    var n := |records| - 1;
    if i < |Blocked(s, records[..n])| {
      BlockedEach(s, records[..n], i);
    }
  }

  lemma BlockedPrefix(s: State, records: seq<UsageRecord>, n: nat)
    requires n <= |Blocked(s, records)|
    ensures multiset(Blocked(s, records)[..n]) <= multiset(records)
    ensures |Blocked(s, records)| <= |records|
  {
    var blocked := Blocked(s, records);
    forall r ensures multiset(blocked)[r] <= multiset(records)[r] {
      BlockedCount(s, records, r);
    }
    PrefixPart(blocked[..n], blocked);
    PartLength(blocked, records);
  }

  lemma Extend(limit: int, events: seq<Event>, e: Event)
    requires Possible(limit, events) && Enabled(limit, Exec(limit, events), e)
    ensures Possible(limit, events + [e]) && Exec(limit, events + [e]) == Apply(limit, Exec(limit, events), e)
  {
    assert (events + [e])[..|events|] == events;
  }

  /** Main result. A crash can come at any point of any run and loses no record, mark or acceptance; what is
      unmarked then can be listed by the next sweep, whatever the interrupted one had in hand. */
  lemma CrashLosesNothing(limit: int, events: seq<Event>, s: State, chosen: seq<UsageRecord>)
    requires Reaches(limit, events, s) && multiset(chosen) <= multiset(Unreported(s.log))
    requires |chosen| == Min(Max(limit, 1), |Unreported(s.log)|)
    ensures Possible(limit, events + [Crash] + [BeginSweep(chosen)])
    ensures var s' := Exec(limit, events + [Crash] + [BeginSweep(chosen)]);
            && s'.log == s.log && s'.accepted == s.accepted && s'.direct == s.direct && s'.batch == chosen
            && s'.providerOf == s.providerOf && s'.unmarked == None
  {
    Extend(limit, events, Crash);
    Extend(limit, events + [Crash], BeginSweep(chosen));
  }

  /** The sweeper passes over a whole batch of blocked records. */
  lemma {:induction false} SkipAll(limit: int, events: seq<Event>) returns (events': seq<Event>)
    requires Possible(limit, events)
    requires var s := Exec(limit, events);
             s.unmarked.None? && forall i :: 0 <= i < |s.batch| ==> !Reportable(s, s.batch[i])
    ensures Possible(limit, events') && Exec(limit, events') == Exec(limit, events).(batch := [])
    ensures |events'| >= |events|
    decreases |Exec(limit, events).batch|
  {
    events' := events;
    if Exec(limit, events).batch != [] {
      Extend(limit, events, Skip);
      events' := SkipAll(limit, events + [Skip]);
    }
  }

  lemma BlockedChoice(limit: int, s: State) returns (chosen: seq<UsageRecord>)
    requires s.batch == [] && s.unmarked.None? && |Blocked(s, Unreported(s.log))| >= Max(limit, 1)
    ensures Enabled(limit, s, BeginSweep(chosen)) && |chosen| == Max(limit, 1)
    ensures forall i :: 0 <= i < |chosen| ==> !Reportable(s, chosen[i])
  {
    var pending := Unreported(s.log);
    BlockedPrefix(s, pending, Max(limit, 1));
    chosen := Blocked(s, pending)[..Max(limit, 1)];
    forall i | 0 <= i < |chosen| ensures !Reportable(s, chosen[i]) {
      BlockedEach(s, pending, i);
    }
  }

  /** A sweep may find nothing it can report. */
  ghost predicate CanStall(limit: int, s: State) {
    exists chosen :: Enabled(limit, s, BeginSweep(chosen)) && NoneReportable(s, chosen)
  }

  ghost predicate NoneReportable(s: State, records: seq<UsageRecord>) {
    forall r :: r in records ==> !Reportable(s, r)
  }

  lemma WholePart(a: seq<UsageRecord>, b: seq<UsageRecord>, r: UsageRecord)
    requires multiset(a) <= multiset(b) && |a| >= |b| && r in b
    ensures r in a
  {
    if r !in a {
      PartLength(a + [r], b);
    }
  }

  /** A batch without a reportable record is made of blocked ones. */
  lemma StalledPart(s: State, records: seq<UsageRecord>, chosen: seq<UsageRecord>)
    requires multiset(chosen) <= multiset(records) && NoneReportable(s, chosen)
    ensures |chosen| <= |Blocked(s, records)|
  {
    forall r ensures multiset(chosen)[r] <= multiset(Blocked(s, records))[r] {
      BlockedCount(s, records, r);
      assert r in chosen ==> !Reportable(s, r);
      assert multiset(chosen)[r] <= multiset(records)[r];
    }
    PartLength(chosen, Blocked(s, records));
  }

  lemma StalledChoice(limit: int, s: State, chosen: seq<UsageRecord>)
    requires Enabled(limit, s, BeginSweep(chosen)) && NoneReportable(s, chosen)
    ensures |Blocked(s, Unreported(s.log))| >= Max(limit, 1) || NoneReportable(s, Unreported(s.log))
  {
    var pending := Unreported(s.log);
    if |pending| < Max(limit, 1) {
      forall r | r in pending ensures !Reportable(s, r) {
        WholePart(chosen, pending, r);
      }
    } else {
      StalledPart(s, pending, chosen);
    }
  }

  /** Main result. A sweep can pass without reporting anything exactly if a full batch of blocked records
      is pending, or nothing reportable is. */
  lemma StallExactly(limit: int, s: State)
    requires s.batch == [] && s.unmarked.None?
    ensures CanStall(limit, s) <==>
              |Blocked(s, Unreported(s.log))| >= Max(limit, 1) || NoneReportable(s, Unreported(s.log))
  {
    var pending := Unreported(s.log);
    if chosen :| Enabled(limit, s, BeginSweep(chosen)) && NoneReportable(s, chosen) {
      StalledChoice(limit, s, chosen);
    }
    if |Blocked(s, pending)| >= Max(limit, 1) {
      var chosen := BlockedChoice(limit, s);
      assert NoneReportable(s, chosen);
    } else if NoneReportable(s, pending) {
      var chosen := pending[..Min(Max(limit, 1), |pending|)];
      PrefixPart(chosen, pending);
      assert Enabled(limit, s, BeginSweep(chosen)) && NoneReportable(s, chosen);
    }
  }

  /** Records that cannot be reported stay in the way. Once a full batch of them is pending the store
      may list just those, and a whole sweep then leaves every record as it was, as often as it runs. */
  lemma {:induction false} SweepStarves(limit: int, events: seq<Event>, s: State)
    returns (chosen: seq<UsageRecord>, events': seq<Event>)
    requires Reaches(limit, events, s)
    requires s.batch == [] && s.unmarked.None? && |Blocked(s, Unreported(s.log))| >= Max(limit, 1)
    ensures Enabled(limit, s, BeginSweep(chosen)) && |chosen| == Max(limit, 1)
    ensures Reaches(limit, events', s) && |events'| > |events|
  {
    chosen := BlockedChoice(limit, s);
    Extend(limit, events, BeginSweep(chosen));
    events' := SkipAll(limit, events + [BeginSweep(chosen)]);
  }
}
