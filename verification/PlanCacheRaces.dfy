/** The plan cache under concurrent calls (manager.go:238-255, plan.go:69-76, 108-182). A call touches the
    store and the cache in separate steps, and nothing stops other calls, or other processes writing the
    same store, from running in between. */
module PlanCacheRaces {
  import opened Types
  import opened PlanCaches
  import C = PlanCatalogs

  type TaskId = nat

  /** What a call has in hand between two of its steps. */
  datatype Task =
    | Editing(plan: Plan)   // built or patched, to be saved
    | Filling(plan: Plan)   // read from the store or just saved, to be cached
    | Removing(id: Id)      // known to exist, to be deleted
    | Dropping(id: Id)      // just deleted, to be evicted

  datatype State = State(
    store: map<Id, Plan>,
    entries: map<Id, Entry>,
    tasks: map<TaskId, Task>,
    now: Time,
    ttl: nat)

  /** One step. `Load`, `Edit`, `Propose` and `Doom` begin a call and do nothing for a task in use;
      `Abandon` ends it early (the gateway or the store refuses). */
  datatype Event =
    | Load(t: TaskId, id: Id)
    | Propose(t: TaskId, plan: Plan)
    | Edit(t: TaskId, id: Id, patched: Plan)
    | Save(t: TaskId)
    | Fill(t: TaskId)
    | Doom(t: TaskId, id: Id)
    | Erase(t: TaskId)
    | Drop(t: TaskId)
    | Abandon(t: TaskId)
    | Foreign(id: Id, value: Option<Plan>)
    | Tick(elapsed: nat)

  /** The id a call works on. */
  function Touches(task: Task): Id {
    match task
    case Editing(plan) => plan.id
    case Filling(plan) => plan.id
    case Removing(id) => id
    case Dropping(id) => id
  }

  function Begin(s: State, t: TaskId, task: Task): State {
    s.(tasks := s.tasks[t := task])
  }

  function End(s: State, t: TaskId): State {
    s.(tasks := s.tasks - {t})
  }

  function Step(s: State, e: Event): State {
    match e
    case Load(t, id) => if t !in s.tasks && id in s.store then Begin(s, t, Filling(s.store[id])) else s
    case Propose(t, plan) => if t !in s.tasks then Begin(s, t, Editing(plan)) else s
    case Edit(t, id, patched) =>
      if t !in s.tasks && id in s.store && patched.id == id then Begin(s, t, Editing(patched)) else s
    case Save(t) =>
      if t in s.tasks && s.tasks[t].Editing? then
        var plan := s.tasks[t].plan;
        Begin(s.(store := s.store[plan.id := plan]), t, Filling(plan))
      else s
    case Fill(t) =>
      if t in s.tasks && s.tasks[t].Filling? then
        var plan := s.tasks[t].plan;
        End(s.(entries := s.entries[plan.id := Entry(plan, s.now + s.ttl)]), t)
      else s
    case Doom(t, id) => if t !in s.tasks && id in s.store then Begin(s, t, Removing(id)) else s
    case Erase(t) =>
      if t in s.tasks && s.tasks[t].Removing? then
        var id := s.tasks[t].id;
        if id in s.store then Begin(s.(store := s.store - {id}), t, Dropping(id)) else End(s, t)
      else s
    case Drop(t) =>
      if t in s.tasks && s.tasks[t].Dropping? then End(s.(entries := s.entries - {s.tasks[t].id}), t) else s
    case Abandon(t) => if t in s.tasks && (s.tasks[t].Editing? || s.tasks[t].Removing?) then End(s, t) else s
    case Foreign(id, value) =>
      if value.None? then s.(store := s.store - {id})
      else if value.value.id == id then s.(store := s.store[id := value.value])
      else s
    case Tick(elapsed) => s.(now := s.now + elapsed)
  }

  /** A run: its events, and the states before, between and after them. */
  datatype Execution = Execution(events: seq<Event>, states: seq<State>)

  predicate Happens(x: Execution, k: int) {
    0 <= k < |x.events| && k + 1 < |x.states| && x.states[k + 1] == Step(x.states[k], x.events[k])
  }

  predicate Start(s: State) {
    s.entries == map[] && s.tasks == map[] && forall id :: id in s.store ==> s.store[id].id == id
  }

  /** It starts with an empty cache and no call. */
  predicate IsRun(x: Execution) {
    |x.states| == |x.events| + 1 && Start(x.states[0]) && forall k :: 0 <= k < |x.events| ==> Happens(x, k)
  }

  /** No call is running and the clock stands at `now`. */
  predicate Represents(s: State, m: C.Memo, now: Time) {
    s.store == m.plans && m.entries == Some(s.entries) && s.tasks == map[] && s.now == now && s.ttl == m.ttl
  }

  lemma PutAtOnce(s: State, t: TaskId, plan: Plan)
    requires s.tasks == map[]
    ensures Step(Step(Begin(s, t, Editing(plan)), Save(t)), Fill(t))
         == s.(store := s.store[plan.id := plan], entries := s.entries[plan.id := Entry(plan, s.now + s.ttl)])
  {
    var saved := Step(Begin(s, t, Editing(plan)), Save(t));
    assert saved == Begin(s.(store := s.store[plan.id := plan]), t, Filling(plan));
    assert saved.tasks - {t} == map[];
  }

  lemma FillAtOnce(s: State, t: TaskId, plan: Plan)
    requires s.tasks == map[]
    ensures Step(Begin(s, t, Filling(plan)), Fill(t))
         == s.(entries := s.entries[plan.id := Entry(plan, s.now + s.ttl)])
  {
    assert Begin(s, t, Filling(plan)).tasks - {t} == map[];
  }

  lemma RemoveAtOnce(s: State, t: TaskId, id: Id)
    requires s.tasks == map[] && id in s.store
    ensures Step(Step(Begin(s, t, Removing(id)), Erase(t)), Drop(t))
         == s.(store := s.store - {id}, entries := s.entries - {id})
  {
    var erased := Step(Begin(s, t, Removing(id)), Erase(t));
    assert erased == Begin(s.(store := s.store - {id}), t, Dropping(id));
    assert erased.tasks - {t} == map[];
  }

  /** The steps of a call, if nothing comes between them, do what the call does when calls run one at a time:
      build, load or look up, write the store, then the cache. Any other call changes nothing. */
  lemma AtOnce(s: State, m: C.Memo, cmd: C.Command, env: C.Env, t: TaskId)
    requires Represents(s, m, env.later) && C.Keyed(m.plans)
    ensures var reply, m' := C.Reply(m, cmd, env), C.Next(m, cmd, env);
            if cmd.Create? && reply.Done? then
              Represents(Step(Step(Step(s, Propose(t, reply.plan)), Save(t)), Fill(t)), m', env.later)
            else if cmd.Update? && reply.Done? then
              Represents(Step(Step(Step(s, Edit(t, cmd.id, reply.plan)), Save(t)), Fill(t)), m', env.later)
            else if cmd.Delete? && reply.Removed? then
              Represents(Step(Step(Step(s, Doom(t, cmd.id)), Erase(t)), Drop(t)), m', env.later)
            else if cmd.Read? && reply.Done? && C.Looked(m, cmd.id, env.now).None? then
              Represents(Step(Step(s, Load(t, cmd.id)), Fill(t)), m', env.later)
            else m' == m
  {
    var reply := C.Reply(m, cmd, env);
    if reply.Done? {
      PutAtOnce(s, t, reply.plan);
      FillAtOnce(s, t, reply.plan);
    } else if reply.Removed? {
      RemoveAtOnce(s, t, cmd.id);
    }
  }

  /** A call that the gateway or the store refuses has changed nothing. */
  lemma RefusedAtOnce(s: State, t: TaskId, plan: Plan)
    requires t !in s.tasks
    ensures Step(Step(s, Propose(t, plan)), Abandon(t)) == s
    ensures Step(Step(s, Edit(t, plan.id, plan)), Abandon(t)) == s
    ensures Step(Step(s, Doom(t, plan.id)), Abandon(t)) == s
  {
    assert s.tasks[t := Editing(plan)] - {t} == s.tasks && s.tasks[t := Removing(plan.id)] - {t} == s.tasks;
  }

  predicate Keyed(s: State) {
    && (forall id :: id in s.store ==> s.store[id].id == id)
    && (forall id :: id in s.entries ==> s.entries[id].plan.id == id)
  }

  lemma StepKeyed(s: State, e: Event)
    requires Keyed(s)
    ensures Keyed(Step(s, e)) && s.now <= Step(s, e).now && Step(s, e).ttl == s.ttl
  {
  }

  /** Plans stay under their ids, and time moves on. */
  lemma {:induction false} RunKeyed(x: Execution, k: nat, n: nat)
    requires IsRun(x) && k <= n < |x.states|
    ensures Keyed(x.states[n]) && x.states[k].now <= x.states[n].now && x.states[k].ttl == x.states[n].ttl
  {
    if n > 0 {
      RunKeyed(x, if k < n then k else n - 1, n - 1);
      assert Happens(x, n - 1);
      StepKeyed(x.states[n - 1], x.events[n - 1]);
    }
  }

  // ---------------------------------------------------------------- whatever happens: nothing is made up

  /** At instant `i` the store held the plan. */
  predicate HeldAt(x: Execution, plan: Plan, i: nat) {
    i < |x.states| && Get(x.states[i].store, plan.id) == Some(plan)
  }

  /** Step `j` cached the plan the task had in hand. */
  predicate FilledAt(x: Execution, plan: Plan, j: nat) {
    && j < |x.events| && j < |x.states| && x.events[j].Fill?
    && x.events[j].t in x.states[j].tasks && x.states[j].tasks[x.events[j].t] == Filling(plan)
  }

  /** A plan comes into a call's hands out of the store or on its way into it. */
  lemma HoldStep(s: State, e: Event, t: TaskId)
    requires Keyed(s) && t in Step(s, e).tasks && Step(s, e).tasks[t].Filling?
    ensures (t in s.tasks && s.tasks[t] == Step(s, e).tasks[t])
         || Get(Step(s, e).store, Step(s, e).tasks[t].plan.id) == Some(Step(s, e).tasks[t].plan)
  {
  }

  lemma {:induction false} TasksHeld(x: Execution, n: nat, t: TaskId) returns (i: nat)
    requires IsRun(x) && n < |x.states| && t in x.states[n].tasks && x.states[n].tasks[t].Filling?
    ensures i <= n && HeldAt(x, x.states[n].tasks[t].plan, i)
  {
    var s := x.states[n - 1];
    RunKeyed(x, 0, n - 1);
    assert Happens(x, n - 1);
    HoldStep(s, x.events[n - 1], t);
    if t in s.tasks && s.tasks[t] == x.states[n].tasks[t] {
      i := TasksHeld(x, n - 1, t);
    } else {
      i := n;
    }
  }

  /** An entry was put in by a fill, at the instant `expiresAt` says, with a plan held before. */
  lemma {:induction false} EntriesHeld(x: Execution, n: nat, id: Id) returns (i: nat, j: nat)
    requires IsRun(x) && n < |x.states| && id in x.states[n].entries
    ensures var entry := x.states[n].entries[id];
            && i <= j < n && HeldAt(x, entry.plan, i) && FilledAt(x, entry.plan, j) && entry.plan.id == id
            && entry.expiresAt == x.states[j].now + x.states[j].ttl
  {
    var s := x.states[n - 1];
    assert Happens(x, n - 1);
    if id in s.entries && s.entries[id] == x.states[n].entries[id] {
      i, j := EntriesHeld(x, n - 1, id);
    } else {
      j := n - 1;
      i := TasksHeld(x, n - 1, x.events[n - 1].t);
    }
  }

  /** Main result, for every interleaving, foreign writers included: what the cache serves for an id is a
      plan the store held for that id at an earlier instant, and was cached no longer than the lifetime
      before now. */
  lemma ServedOnceHeld(x: Execution, n: nat, id: Id) returns (i: nat, j: nat)
    requires IsRun(x) && n < |x.states| && Fresh(x.states[n].entries, id, x.states[n].now).Some?
    ensures var plan := Fresh(x.states[n].entries, id, x.states[n].now).value;
            && plan.id == id && i <= j < n && HeldAt(x, plan, i) && FilledAt(x, plan, j)
            && x.states[j].now <= x.states[n].now <= x.states[j].now + x.states[n].ttl
  {
    i, j := EntriesHeld(x, n, id);
    RunKeyed(x, j, n);
  }

  // ---------------------------------------------------------------- steps in time

  /** No call works on the id. */
  predicate Alone(s: State, id: Id) {
    forall t :: t in s.tasks ==> Touches(s.tasks[t]) != id
  }

  /** What a call is about to do to the cache is right for the store as it is. */
  predicate InStep(s: State, t: TaskId) {
    t in s.tasks ==>
      && (s.tasks[t].Filling? ==> Get(s.store, Touches(s.tasks[t])) == Some(s.tasks[t].plan))
      && (s.tasks[t].Dropping? ==> Touches(s.tasks[t]) !in s.store)
  }

  predicate Agrees(s: State, id: Id) {
    id in s.entries ==> Get(s.store, id) == Some(s.entries[id].plan)
  }

  /** A call is about to rewrite or evict the entry. */
  predicate Mends(s: State, t: TaskId, id: Id) {
    t in s.tasks && Touches(s.tasks[t]) == id && (s.tasks[t].Filling? || s.tasks[t].Dropping?)
  }

  /** The entry is right, or a call is on its way to put it right. */
  ghost predicate Settled(s: State, id: Id) {
    Agrees(s, id) || exists u :: Mends(s, u, id)
  }

  /** A foreign write makes the entry wrong. */
  predicate Spoils(s: State, value: Option<Plan>, id: Id) {
    && id in s.entries
    && match value
       case None => true
       case Some(plan) => plan.id == id && plan != s.entries[id].plan
  }

  /** The two ways a step can do harm to the plan: it caches what the store no longer holds, or a foreign write
      changes it under the cache. Either is harmless while another call is still to cache or evict the plan. */
  ghost predicate Timely(s: State, e: Event, id: Id) {
    match e
    case Fill(t) =>
      t in s.tasks && s.tasks[t].Filling? && Touches(s.tasks[t]) == id && !InStep(s, t) ==>
        exists u :: u != t && Mends(s, u, id)
    case Foreign(other, value) => other == id && Spoils(s, value, id) ==> exists u :: Mends(s, u, id)
    case _ => true
  }

  lemma AgreesStep(s: State, e: Event, id: Id)
    requires Keyed(s) && Timely(s, e, id) && Agrees(s, id)
    ensures Settled(Step(s, e), id)
  {
    var next := Step(s, e);
    if !Agrees(next, id) {
      if e.Save? || e.Erase? {
        assert Mends(next, e.t, id);
      } else {
        var u :| Mends(s, u, id) && (e.Fill? ==> u != e.t);
        assert Mends(next, u, id);
      }
    }
  }

  lemma MendsStep(s: State, e: Event, t: TaskId, id: Id)
    requires Keyed(s) && Timely(s, e, id) && Mends(s, t, id)
    ensures Settled(Step(s, e), id)
  {
    var next := Step(s, e);
    if !Mends(next, t, id) && !Agrees(next, id) {
      var u :| u != t && Mends(s, u, id);
      assert Mends(next, u, id);
    }
  }

  /** A plan that is settled stays so exactly in a timely step. */
  lemma SettledStep(s: State, e: Event, id: Id)
    requires Keyed(s) && Settled(s, id)
    ensures Settled(Step(s, e), id) <==> Timely(s, e, id)
  {
    if !Timely(s, e, id) {
      if u :| Mends(Step(s, e), u, id) {
        assert Mends(s, u, id);
      }
    } else if Agrees(s, id) {
      AgreesStep(s, e, id);
    } else {
      var t :| Mends(s, t, id);
      MendsStep(s, e, t, id);
    }
  }

  ghost predicate SettledAt(x: Execution, k: int, id: Id) {
    0 <= k < |x.states| ==> Settled(x.states[k], id)
  }

  ghost predicate TimelyAt(x: Execution, k: int, id: Id) {
    0 <= k < |x.events| && k < |x.states| ==> Timely(x.states[k], x.events[k], id)
  }

  /** Main result. In an interleaving the cache is throughout right about a plan, whenever no call is still to
      cache or evict it, if and only if every step is timely for that plan. */
  lemma {:induction false} SettledExactly(x: Execution, id: Id)
    requires IsRun(x)
    ensures (forall k :: SettledAt(x, k, id)) <==> (forall k :: TimelyAt(x, k, id))
  {
    if forall k :: SettledAt(x, k, id) {
      forall k ensures TimelyAt(x, k, id) {
        if 0 <= k < |x.events| {
          RunKeyed(x, k, k);
          assert Happens(x, k) && SettledAt(x, k, id) && SettledAt(x, k + 1, id);
          SettledStep(x.states[k], x.events[k], id);
        }
      }
    }
    if forall k :: TimelyAt(x, k, id) {
      forall k ensures SettledAt(x, k, id) {
        if 0 <= k < |x.states| {
          TimelySettles(x, k, id);
        }
      }
    }
  }

  lemma {:induction false} TimelySettles(x: Execution, k: nat, id: Id)
    requires IsRun(x) && k < |x.states| && forall m :: TimelyAt(x, m, id)
    ensures SettledAt(x, k, id)
  {
    if k > 0 {
      TimelySettles(x, k - 1, id);
      RunKeyed(x, k - 1, k - 1);
      assert Happens(x, k - 1) && TimelyAt(x, k - 1, id);
      SettledStep(x.states[k - 1], x.events[k - 1], id);
    }
  }

  // ---------------------------------------------------------------- one writing call per plan at a time

  /** No call but reads, if any, works on the id. */
  predicate OnlyReads(s: State, id: Id) {
    forall t :: t in s.tasks && Touches(s.tasks[t]) == id ==> s.tasks[t].Filling?
  }

  /** Writing calls on the plan begin only when no other call works on it, reads only when no writing call still
      has to write it, and nobody else writes it. */
  predicate Orderly(s: State, e: Event, id: Id) {
    match e
    case Load(_, other) => other == id ==> OnlyReads(s, id)
    case Propose(_, plan) => plan.id == id ==> Alone(s, id)
    case Edit(_, other, _) => other == id ==> Alone(s, id)
    case Doom(_, other) => other == id ==> Alone(s, id)
    case Foreign(other, _) => other != id
    case _ => true
  }

  predicate OrderlyAt(x: Execution, k: int, id: Id) {
    0 <= k < |x.events| && k < |x.states| ==> Orderly(x.states[k], x.events[k], id)
  }

  /** Two calls share the plan only if all they have left to do is to cache what they hold. */
  predicate Compatible(s: State, id: Id, t: TaskId, u: TaskId) {
    t in s.tasks && u in s.tasks && t != u && Touches(s.tasks[t]) == id == Touches(s.tasks[u]) ==>
      s.tasks[t].Filling? && s.tasks[u].Filling?
  }

  /** And what each is about to do is right. */
  ghost predicate Tidy(s: State, id: Id) {
    && (forall t, u :: Compatible(s, id, t, u))
    && (forall t :: t in s.tasks && Touches(s.tasks[t]) == id ==> InStep(s, t))
  }

  lemma CompatibleStep(s: State, e: Event, id: Id, t: TaskId, u: TaskId)
    requires Keyed(s) && Compatible(s, id, t, u) && Orderly(s, e, id)
    ensures Compatible(Step(s, e), id, t, u)
  {
  }

  lemma StepTidy(s: State, e: Event, id: Id)
    requires Keyed(s) && Tidy(s, id) && Orderly(s, e, id)
    ensures Tidy(Step(s, e), id) && Timely(s, e, id)
  {
    forall t, u ensures Compatible(Step(s, e), id, t, u) {
      CompatibleStep(s, e, id, t, u);
    }
    forall t | t in Step(s, e).tasks && Touches(Step(s, e).tasks[t]) == id ensures InStep(Step(s, e), t) {
      if e.Save? || e.Erase? {
        assert Compatible(s, id, t, e.t);
      }
    }
  }

  lemma {:induction false} TidyRun(x: Execution, k: nat, id: Id)
    requires IsRun(x) && k < |x.states| && forall m :: OrderlyAt(x, m, id)
    ensures Tidy(x.states[k], id) && TimelyAt(x, k, id)
  {
    RunKeyed(x, k, k);
    if k > 0 {
      TidyRun(x, k - 1, id);
      RunKeyed(x, k - 1, k - 1);
      assert Happens(x, k - 1) && OrderlyAt(x, k - 1, id);
      StepTidy(x.states[k - 1], x.events[k - 1], id);
    }
    if k < |x.events| {
      assert OrderlyAt(x, k, id);
      StepTidy(x.states[k], x.events[k], id);
    }
  }

  /** Main result. It is enough that a writing call has the plan to itself; any number of reads may share
      it, and nothing is asked about other plans. Then the cache is right about it when no call is working on it. */
  lemma {:induction false} QuietAgrees(x: Execution, n: nat, id: Id)
    requires IsRun(x) && n < |x.states| && (forall m :: OrderlyAt(x, m, id)) && Alone(x.states[n], id)
    ensures Agrees(x.states[n], id)
  {
    forall m ensures TimelyAt(x, m, id) {
      if 0 <= m < |x.events| {
        TidyRun(x, m, id);
      }
    }
    SettledExactly(x, id);
    assert SettledAt(x, n, id);
  }

  // ---------------------------------------------------------------- and without that

  /** No call has an outdated plan of the id in hand. */
  predicate NoneOutdated(s: State, id: Id) {
    forall t :: t in s.tasks && s.tasks[t].Filling? && Touches(s.tasks[t]) == id ==>
                  Get(s.store, id) == Some(s.tasks[t].plan)
  }

  /** Every entry of the id is right or gone by the deadline. */
  predicate RightOrGone(s: State, id: Id, deadline: Time) {
    Agrees(s, id) || s.entries[id].expiresAt <= deadline
  }

  lemma HealStep(s: State, e: Event, id: Id, deadline: Time)
    requires Keyed(s) && Get(Step(s, e).store, id) == Get(s.store, id)
    requires NoneOutdated(s, id) && RightOrGone(s, id, deadline)
    ensures NoneOutdated(Step(s, e), id) && RightOrGone(Step(s, e), id, deadline)
  {
  }

  lemma {:induction false} QuietHeals(x: Execution, k: nat, n: nat, id: Id, deadline: Time)
    requires IsRun(x) && k <= n < |x.states| && NoneOutdated(x.states[k], id) && RightOrGone(x.states[k], id, deadline)
    requires forall m :: k <= m <= n ==> Get(x.states[m].store, id) == Get(x.states[k].store, id)
    ensures NoneOutdated(x.states[n], id) && RightOrGone(x.states[n], id, deadline)
  {
    if k < n {
      QuietHeals(x, k, n - 1, id, deadline);
      RunKeyed(x, k, n - 1);
      assert Happens(x, n - 1);
      HealStep(x.states[n - 1], x.events[n - 1], id, deadline);
    }
  }

  /** Main result. Whatever races came before: once the id is no longer written and the calls that had an
      outdated plan in hand are over, a lifetime later the cache serves nothing but the stored plan. */
  lemma {:induction false} StaleNoLongerThanTtl(x: Execution, k: nat, n: nat, id: Id)
    requires IsRun(x) && k <= n < |x.states| && NoneOutdated(x.states[k], id)
    requires forall m :: k <= m <= n ==> Get(x.states[m].store, id) == Get(x.states[k].store, id)
    requires x.states[n].now > x.states[k].now + x.states[k].ttl
    ensures var served := Fresh(x.states[n].entries, id, x.states[n].now);
            served.Some? ==> served == Get(x.states[n].store, id)
  {
    if id in x.states[k].entries {
      var i, j := EntriesHeld(x, k, id);
      RunKeyed(x, j, k);
    }
    QuietHeals(x, k, n, id, x.states[k].now + x.states[k].ttl);
  }

  /** One plan stored, nothing cached. */
  function Stored(plan: Plan, now: Time, ttl: nat): State {
    State(map[plan.id := plan], map[], map[], now, ttl)
  }

  lemma Five(s: State, a: Event, b: Event, c: Event, d: Event, e: Event) returns (x: Execution)
    requires Start(s)
    ensures IsRun(x) && x.events == [a, b, c, d, e] && |x.states| == 6 && x.states[0] == s
    ensures x.states[2] == Step(Step(s, a), b)
    ensures x.states[4] == Step(Step(x.states[2], c), d) && x.states[5] == Step(x.states[4], e)
  {
    var two := Step(Step(s, a), b);
    var four := Step(Step(two, c), d);
    x := Execution([a, b, c, d, e], [s, Step(s, a), two, Step(two, c), four, Step(four, e)]);
  }

  /** The discipline is needed: a read that loses the race against an update leaves the old plan in the
      cache with no call in flight. */
  lemma LateReadIsStale(plan: Plan, patched: Plan, now: Time, ttl: nat) returns (x: Execution)
    requires plan.id == patched.id && plan != patched
    ensures IsRun(x) && x.states[0] == Stored(plan, now, ttl)
    ensures x.events == [Load(0, plan.id), Edit(1, plan.id, patched), Save(1), Fill(1), Fill(0)]
    ensures var end := x.states[5];
            end.tasks == map[] && end.store == map[plan.id := patched] && Fresh(end.entries, plan.id, now) == Some(plan)
  {
    x := Five(Stored(plan, now, ttl), Load(0, plan.id), Edit(1, plan.id, patched), Save(1), Fill(1), Fill(0));
    assert x.states[2] == Stored(plan, now, ttl).(tasks := map[0 := Filling(plan), 1 := Editing(patched)]);
    assert x.states[4].tasks == map[0 := Filling(plan)] && x.states[4].store == map[plan.id := patched];
  }

  /** Against a delete, it leaves a plan that no longer exists. */
  lemma LateReadOutlivesDelete(plan: Plan, now: Time, ttl: nat) returns (x: Execution)
    ensures IsRun(x) && x.states[0] == Stored(plan, now, ttl)
    ensures x.events == [Load(0, plan.id), Doom(1, plan.id), Erase(1), Drop(1), Fill(0)]
    ensures var end := x.states[5];
            end.tasks == map[] && end.store == map[] && Fresh(end.entries, plan.id, now) == Some(plan)
  {
    x := Five(Stored(plan, now, ttl), Load(0, plan.id), Doom(1, plan.id), Erase(1), Drop(1), Fill(0));
    assert x.states[2] == Stored(plan, now, ttl).(tasks := map[0 := Filling(plan), 1 := Removing(plan.id)]);
    assert x.states[4].tasks == map[0 := Filling(plan)] && x.states[4].store == map[];
  }
}
