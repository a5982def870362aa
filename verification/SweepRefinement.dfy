/** The sweeper's loop is a run of the reporting protocol: what one sweep of the code does to the store
    and to the gateway, a sequence of protocol steps does (usage_reporter.go:82-114). */
module SweepRefinement {
  import opened Types
  import opened UsageLog
  import opened UsageStores
  import opened ReportProtocol
  import opened UsageReporters

  /** The protocol knows the provider ids the subscription store holds. */
  ghost predicate Knows(s: State, subs: map<Id, Subscription>) {
    forall id :: Get(s.providerOf, id) == if id in subs then Some(subs[id].providerId) else None
  }

  /** `s'` is `s` with the sweep at `rest` and these acceptances made and marked. */
  ghost predicate SweptTo(s: State, s': State, rest: seq<UsageRecord>, taken: seq<Acceptance>) {
    && s' == s.(batch := rest, log := s'.log, accepted := s.accepted + taken)
    && MarkedJust(s.log, s'.log, IdsOf(taken))
  }

  lemma MarkOne(log: seq<UsageRecord>, j: nat, at: Time, a: Acceptance)
    requires DistinctIds(log) && j < |log| && log[j].id == a.record.id
    ensures MarkedJust(log, Marked(log, j, at), IdsOf([a]))
  {
    forall i | 0 <= i < |log| && i != j ensures log[i].id !in IdsOf([a]) {
      if log[i].id == log[j].id {
      }
    }
    assert [a][0].record.id in IdsOf([a]);
  }

  /** Marks add up. */
  lemma MarkBoth(a: seq<UsageRecord>, b: seq<UsageRecord>, c: seq<UsageRecord>, x: seq<Acceptance>, y: seq<Acceptance>)
    requires MarkedJust(a, b, IdsOf(x)) && MarkedJust(b, c, IdsOf(y))
    ensures MarkedJust(a, c, IdsOf(x + y))
  {
    IdsConcat(x, y);
  }

  lemma IdsConcat(x: seq<Acceptance>, y: seq<Acceptance>)
    ensures IdsOf(x + y) == IdsOf(x) + IdsOf(y)
  {
    forall id | id in IdsOf(x) + IdsOf(y) ensures id in IdsOf(x + y) {
      if id in IdsOf(x) {
        var i :| 0 <= i < |x| && x[i].record.id == id;
        assert (x + y)[i].record.id == id;
      } else {
        var i :| 0 <= i < |y| && y[i].record.id == id;
        assert (x + y)[|x| + i].record.id == id;
      }
    }
  }

  /** The gateway takes the record and the mark succeeds: two steps. */
  lemma TakeAndMark(limit: int, events: seq<Event>, at: Time) returns (events': seq<Event>)
    requires Possible(limit, events)
    requires var s := Exec(limit, events); s.batch != [] && s.unmarked.None? && Reportable(s, s.batch[0])
    ensures Possible(limit, events')
    ensures var s, s' := Exec(limit, events), Exec(limit, events');
            var r := s.batch[0];
            SweptTo(s, s', s.batch[1..], [Acceptance(r, s.providerOf[r.subscriptionId])])
  {
    var s := Exec(limit, events);
    var r := s.batch[0];
    var a := Acceptance(r, s.providerOf[r.subscriptionId]);
    RunSteady(limit, events, s);
    Extend(limit, events, Accept);
    var mid := Apply(limit, s, Accept);
    assert IsCurrent(s, r);
    var p :| 0 <= p < |s.log| && s.log[p] == r;
    assert IsPlaceOf(mid, p, r.id);
    Extend(limit, events + [Accept], MarkDone(at));
    events' := events + [Accept] + [MarkDone(at)];
    var s' := Apply(limit, mid, MarkDone(at));
    var j :| IsPlaceOf(mid, j, r.id) && s'.log == Marked(mid.log, j, at);
    MarkOne(s.log, j, at, a);
  }

  /** One record of the batch, as the loop body deals with it. */
  lemma OneRecord(limit: int, events: seq<Event>, subs: map<Id, Subscription>, refused: set<Id>, at: Time)
    returns (events': seq<Event>)
    requires Possible(limit, events)
    requires var s := Exec(limit, events); s.batch != [] && s.unmarked.None? && Knows(s, subs)
    ensures Possible(limit, events')
    ensures var s, s' := Exec(limit, events), Exec(limit, events');
            SweptTo(s, s', s.batch[1..], Taken(subs, refused, [s.batch[0]]))
  {
    var s := Exec(limit, events);
    var r := s.batch[0];
    assert [r][..0] == [];
    assert Get(s.providerOf, r.subscriptionId) ==
           if r.subscriptionId in subs then Some(subs[r.subscriptionId].providerId) else None;
    if Goes(subs, refused, r) {
      events' := TakeAndMark(limit, events, at);
      assert Taken(subs, refused, [r]) == [Acceptance(r, s.providerOf[r.subscriptionId])];
    } else {
      var e := if Reportable(s, r) then Refuse else Skip;
      Extend(limit, events, e);
      events' := events + [e];
      assert Taken(subs, refused, [r]) == [];
      assert s.accepted + [] == s.accepted;
    }
  }

  lemma {:induction false} TakenFront(subs: map<Id, Subscription>, refused: set<Id>, batch: seq<UsageRecord>)
    requires batch != []
    ensures Taken(subs, refused, batch) == Taken(subs, refused, [batch[0]]) + Taken(subs, refused, batch[1..])
  {
    var n := |batch| - 1;
    if n == 0 {
      assert batch == [batch[0]];
    } else {
      TakenFront(subs, refused, batch[..n]);
      assert batch[..n][1..] == batch[1..][..n - 1];
      assert batch[1..][n - 1] == batch[n];
    }
  }

  lemma SweptOn(s: State, mid: State, s': State, rest: seq<UsageRecord>, x: seq<Acceptance>, y: seq<Acceptance>)
    requires SweptTo(s, mid, rest, x) && SweptTo(mid, s', [], y)
    ensures SweptTo(s, s', [], x + y)
  {
    MarkBoth(s.log, mid.log, s'.log, x, y);
    assert s.accepted + x + y == s.accepted + (x + y);
  }

  /** The rest of a sweep, record by record; `at` are the instants of the marks. */
  lemma {:induction false} RestOfSweep(limit: int, events: seq<Event>, subs: map<Id, Subscription>, refused: set<Id>,
                                       at: nat -> Time)
    returns (events': seq<Event>)
    requires Possible(limit, events)
    requires var s := Exec(limit, events); s.unmarked.None? && Knows(s, subs)
    ensures Possible(limit, events')
    ensures var s, s' := Exec(limit, events), Exec(limit, events');
            SweptTo(s, s', [], Taken(subs, refused, s.batch))
    decreases |Exec(limit, events).batch|
  {
    var s := Exec(limit, events);
    if s.batch == [] {
      events' := events;
      assert s.accepted + [] == s.accepted;
    } else {
      var next := OneRecord(limit, events, subs, refused, at(|s.batch|));
      var mid := Exec(limit, next);
      events' := RestOfSweep(limit, next, subs, refused, at);
      TakenFront(subs, refused, s.batch);
      SweptOn(s, mid, Exec(limit, events'), s.batch[1..], Taken(subs, refused, [s.batch[0]]),
              Taken(subs, refused, s.batch[1..]));
    }
  }

  /** Main result. Wherever the protocol stands between two sweeps, whatever batch the store lists and
      whichever reports the gateway refuses, the protocol has a run that makes exactly the acceptances
      and marks exactly the records that the sweep of the code is proved to. */
  lemma {:induction false} SweepIsRun(limit: int, events: seq<Event>, subs: map<Id, Subscription>, refused: set<Id>,
                                      chosen: seq<UsageRecord>, at: nat -> Time)
    returns (events': seq<Event>)
    requires Possible(limit, events)
    requires var s := Exec(limit, events); Enabled(limit, s, BeginSweep(chosen)) && Knows(s, subs)
    ensures Possible(limit, events')
    ensures SweptTo(Exec(limit, events), Exec(limit, events'), [], Taken(subs, refused, chosen))
  {
    Extend(limit, events, BeginSweep(chosen));
    events' := RestOfSweep(limit, events + [BeginSweep(chosen)], subs, refused, at);
  }
}
