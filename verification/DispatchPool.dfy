/** The webhook dispatch pool (dispatch.go): bounded queues, one worker each, events routed by key.
    Senders, workers and the closing goroutine interleave freely. */
module DispatchPool {
  import opened Types

  datatype WebhookEvent = WebhookEvent(id: Text, typeName: Text, providerSubId: Text)

  /** Any fixed 32-bit hash of the key. */
  type Hash = Text -> Sum32

  /** Events of one provider subscription share a key; the others are grouped by type. */
  function Key(e: WebhookEvent): Text {
    if e.providerSubId == [] then e.typeName else e.providerSubId
  }

  function Route(hash: Hash, workers: nat, e: WebhookEvent): (w: nat)
    requires workers > 0
    ensures w < workers
  {
    hash(Key(e)) % workers
  }

  /** A worker is idle, handling an event, or gone after its queue was closed and emptied. */
  datatype Worker = Idle | Handling(event: WebhookEvent) | Exited

  /** `sent` and `handled` are the events in the order in which sends and handlings completed; queues
      below `closed` are closed. */
  datatype Pool = Pool(
    queues: seq<seq<WebhookEvent>>,
    workers: seq<Worker>,
    closed: nat,
    sent: seq<WebhookEvent>,
    handled: seq<WebhookEvent>)

  datatype Step = Send(event: WebhookEvent) | Take(w: nat) | Finish(w: nat) | CloseQueue | Exit(w: nat)

  datatype Config = Config(hash: Hash, workers: nat, depth: nat)

  predicate Configured(c: Config) {
    c.workers > 0 && c.depth > 0
  }

  /** Sizes that are given are kept, 16 workers and queues of 256 otherwise; so every pool is usable. */
  function NewConfig(hash: Hash, workers: int, depth: int): (c: Config)
    ensures Configured(c) && c.hash == hash
    ensures (workers > 0 ==> c.workers == workers) && (workers <= 0 ==> c.workers == 16)
    ensures (depth > 0 ==> c.depth == depth) && (depth <= 0 ==> c.depth == 256)
  {
    Config(hash, if workers <= 0 then 16 else workers, if depth <= 0 then 256 else depth)
  }

  predicate Shaped(c: Config, p: Pool) {
    |p.queues| == |p.workers| == c.workers && p.closed <= c.workers
  }

  /** A full queue blocks its senders, and nothing is sent once closing has begun. */
  predicate Enabled(c: Config, p: Pool, s: Step)
    requires Configured(c)
  {
    && Shaped(c, p)
    && match s
       case Send(e) => p.closed == 0 && |p.queues[Route(c.hash, c.workers, e)]| < c.depth
       case Take(w) => w < c.workers && p.workers[w].Idle? && p.queues[w] != []
       case Finish(w) => w < c.workers && p.workers[w].Handling?
       case CloseQueue => p.closed < c.workers
       case Exit(w) => w < p.closed && p.workers[w].Idle? && p.queues[w] == []
  }

  function Apply(c: Config, p: Pool, s: Step): Pool
    requires Configured(c) && Enabled(c, p, s)
  {
    match s
    case Send(e) =>
      var w := Route(c.hash, c.workers, e);
      p.(queues := p.queues[w := p.queues[w] + [e]], sent := p.sent + [e])
    case Take(w) => p.(queues := p.queues[w := p.queues[w][1..]], workers := p.workers[w := Handling(p.queues[w][0])])
    case Finish(w) => p.(workers := p.workers[w := Idle], handled := p.handled + [p.workers[w].event])
    case CloseQueue => p.(closed := p.closed + 1)
    case Exit(w) => p.(workers := p.workers[w := Exited])
  }

  function Started(c: Config): Pool {
    Pool(seq(c.workers, _ => []), seq(c.workers, _ => Idle), 0, [], [])
  }

  ghost predicate Possible(c: Config, steps: seq<Step>)
    requires Configured(c)
    decreases |steps|, 0
  {
    steps == [] ||
      var before := steps[..|steps| - 1];
      Possible(c, before) && Enabled(c, Exec(c, before), steps[|steps| - 1])
  }

  ghost function Exec(c: Config, steps: seq<Step>): Pool
    requires Configured(c) && Possible(c, steps)
    decreases |steps|, 1
  {
    if steps == [] then Started(c) else Apply(c, Exec(c, steps[..|steps| - 1]), steps[|steps| - 1])
  }

  ghost predicate Reaches(c: Config, steps: seq<Step>, p: Pool)
    requires Configured(c)
  {
    Possible(c, steps) && Exec(c, steps) == p
  }

  // ---------------------------------------------------------------- selections

  function IfWorker(c: Config, e: WebhookEvent, w: nat): seq<WebhookEvent>
    requires Configured(c)
  {
    if Route(c.hash, c.workers, e) == w then [e] else []
  }

  function IfKey(e: WebhookEvent, key: Text): seq<WebhookEvent> {
    if Key(e) == key then [e] else []
  }

  function OfWorker(c: Config, events: seq<WebhookEvent>, w: nat): seq<WebhookEvent>
    requires Configured(c)
  {
    if events == [] then [] else
      OfWorker(c, events[..|events| - 1], w) + IfWorker(c, events[|events| - 1], w)
  }

  function OfKey(events: seq<WebhookEvent>, key: Text): seq<WebhookEvent> {
    if events == [] then [] else
      OfKey(events[..|events| - 1], key) + IfKey(events[|events| - 1], key)
  }

  lemma Assoc<T>(a: seq<T>, b: seq<T>, c: seq<T>)
    ensures a + b + c == a + (b + c)
  {
  }

  lemma OfWorkerAppend(c: Config, events: seq<WebhookEvent>, e: WebhookEvent, w: nat)
    requires Configured(c)
    ensures OfWorker(c, events + [e], w) == OfWorker(c, events, w) + IfWorker(c, e, w)
  {
    assert (events + [e])[..|events|] == events;
  }

  lemma OfKeyAppend(events: seq<WebhookEvent>, e: WebhookEvent, key: Text)
    ensures OfKey(events + [e], key) == OfKey(events, key) + IfKey(e, key)
  {
    assert (events + [e])[..|events|] == events;
  }

  lemma {:induction false} OfKeyConcat(a: seq<WebhookEvent>, b: seq<WebhookEvent>, key: Text)
    ensures OfKey(a + b, key) == OfKey(a, key) + OfKey(b, key)
  {
    if b == [] {
      assert a + b == a;
      assert OfKey(a, key) + [] == OfKey(a, key);
    } else {
      var n := |b| - 1;
      var most := a + b[..n];
      OfKeyConcat(a, b[..n], key);
      assert a + b == most + [b[n]];
      OfKeyAppend(most, b[n], key);
      Assoc(OfKey(a, key), OfKey(b[..n], key), IfKey(b[n], key));
    }
  }

  /** A key's events all go to one worker. */
  lemma {:induction false} KeyInWorker(c: Config, events: seq<WebhookEvent>, key: Text, w: nat)
    requires Configured(c) && w == c.hash(key) % c.workers
    ensures OfKey(OfWorker(c, events, w), key) == OfKey(events, key)
  {
    if events != [] {
      var n := |events| - 1;
      KeyInWorker(c, events[..n], key, w);
      var mine := OfWorker(c, events[..n], w);
      if Route(c.hash, c.workers, events[n]) == w {
        OfKeyAppend(mine, events[n], key);
      } else {
        assert IfKey(events[n], key) == [];
        assert mine + [] == mine;
      }
    }
  }

  lemma {:induction false} OfWorkerCount(c: Config, events: seq<WebhookEvent>, w: nat, e: WebhookEvent)
    requires Configured(c)
    ensures multiset(OfWorker(c, events, w))[e] == if Route(c.hash, c.workers, e) == w then multiset(events)[e] else 0
  {
    if events != [] {
      var before, last := events[..|events| - 1], events[|events| - 1];
      OfWorkerCount(c, before, w, e);
      assert events == before + [last];
      assert multiset(events)[e] == multiset(before)[e] + multiset([last])[e];
      assert multiset(OfWorker(c, events, w))[e] ==
             multiset(OfWorker(c, before, w))[e] + multiset(IfWorker(c, last, w))[e];
    }
  }

  // ---------------------------------------------------------------- the invariant

  function Current(worker: Worker): seq<WebhookEvent> {
    if worker.Handling? then [worker.event] else []
  }

  /** What was sent to a worker is what it handled, then what it is handling, then its queue. */
  ghost predicate Accounted(c: Config, p: Pool, w: nat)
    requires Configured(c) && Shaped(c, p) && w < c.workers
  {
    OfWorker(c, p.sent, w) == OfWorker(c, p.handled, w) + Current(p.workers[w]) + p.queues[w]
  }

  /** Queues within their depth, everything with its own worker, no worker gone early. */
  ghost predicate InPlace(c: Config, p: Pool, w: nat)
    requires Configured(c) && Shaped(c, p) && w < c.workers
  {
    && |p.queues[w]| <= c.depth
    && (forall i :: 0 <= i < |p.queues[w]| ==> Route(c.hash, c.workers, p.queues[w][i]) == w)
    && (p.workers[w].Handling? ==> Route(c.hash, c.workers, p.workers[w].event) == w)
    && (p.workers[w].Exited? ==> w < p.closed && p.queues[w] == [])
  }

  ghost predicate InOrder(c: Config, p: Pool)
    requires Configured(c)
  {
    && Shaped(c, p)
    && (forall w: nat :: w < c.workers ==> Accounted(c, p, w))
    && (forall w: nat :: w < c.workers ==> InPlace(c, p, w))
  }

  lemma SendAccounted(c: Config, p: Pool, e: WebhookEvent, w: nat)
    requires Configured(c) && Enabled(c, p, Send(e)) && w < c.workers && Accounted(c, p, w)
    ensures Accounted(c, Apply(c, p, Send(e)), w)
  {
    var done, now, queue := OfWorker(c, p.handled, w), Current(p.workers[w]), p.queues[w];
    OfWorkerAppend(c, p.sent, e, w);
    Assoc(done + now, queue, IfWorker(c, e, w));
    assert queue + [] == queue;
  }

  /** The equation of one worker across one step. */
  lemma AccountedStep(c: Config, p: Pool, s: Step, w: nat)
    requires Configured(c) && Enabled(c, p, s) && w < c.workers && Accounted(c, p, w)
    requires s.Finish? ==> InPlace(c, p, s.w)
    ensures Accounted(c, Apply(c, p, s), w)
  {
    var done, now, queue := OfWorker(c, p.handled, w), Current(p.workers[w]), p.queues[w];
    match s
    case Send(e) => SendAccounted(c, p, e, w);
    case Take(v) =>
      if v == w {
        assert queue == [queue[0]] + queue[1..];
        assert now == [] && done + [] == done;
        Assoc(done, [queue[0]], queue[1..]);
      }
    case Finish(v) =>
      OfWorkerAppend(c, p.handled, p.workers[v].event, w);
      if v == w {
        assert now == IfWorker(c, p.workers[v].event, w);
        assert done + now + [] == done + now;
      } else {
        assert done + [] == done;
      }
    case _ =>
  }

  lemma InPlaceStep(c: Config, p: Pool, s: Step, w: nat)
    requires Configured(c) && Enabled(c, p, s) && w < c.workers && InPlace(c, p, w)
    ensures InPlace(c, Apply(c, p, s), w)
  {
  }

  lemma InOrderStep(c: Config, p: Pool, s: Step)
    requires Configured(c) && InOrder(c, p) && Enabled(c, p, s)
    ensures InOrder(c, Apply(c, p, s))
  {
    forall w: nat | w < c.workers ensures Accounted(c, Apply(c, p, s), w) && InPlace(c, Apply(c, p, s), w) {
      AccountedStep(c, p, s, w);
      InPlaceStep(c, p, s, w);
    }
  }

  lemma {:induction false} InOrderRun(c: Config, steps: seq<Step>, p: Pool)
    requires Configured(c) && Reaches(c, steps, p)
    ensures InOrder(c, p)
  {
    if steps != [] {
      var before := Exec(c, steps[..|steps| - 1]);
      InOrderRun(c, steps[..|steps| - 1], before);
      InOrderStep(c, before, steps[|steps| - 1]);
    }
  }

  // ---------------------------------------------------------------- what it means

  /** In every interleaving the events of one key are handled in the order they were sent, none skipped. */
  lemma {:induction false} KeyOrder(c: Config, steps: seq<Step>, p: Pool, key: Text)
    requires Configured(c) && Reaches(c, steps, p)
    ensures OfKey(p.handled, key) <= OfKey(p.sent, key)
  {
    InOrderRun(c, steps, p);
    var w := c.hash(key) % c.workers;
    KeyInWorker(c, p.sent, key, w);
    KeyInWorker(c, p.handled, key, w);
    assert Accounted(c, p, w);
    Assoc(OfWorker(c, p.handled, w), Current(p.workers[w]), p.queues[w]);
    OfKeyConcat(OfWorker(c, p.handled, w), Current(p.workers[w]) + p.queues[w], key);
  }

  /** The events that carry a provider subscription id, in order, and those of a type that carry none. */
  function OfSubscription(events: seq<WebhookEvent>, pid: Text): seq<WebhookEvent> {
    Chosen(events, (e: WebhookEvent) => e.providerSubId == pid)
  }

  function OfType(events: seq<WebhookEvent>, typeName: Text): seq<WebhookEvent> {
    Chosen(events, (e: WebhookEvent) => e.providerSubId == [] && e.typeName == typeName)
  }

  function Chosen(events: seq<WebhookEvent>, wanted: WebhookEvent -> bool): seq<WebhookEvent> {
    if events == [] then [] else
      var last := events[|events| - 1];
      Chosen(events[..|events| - 1], wanted) + (if wanted(last) then [last] else [])
  }

  lemma {:induction false} ChosenPrefix(a: seq<WebhookEvent>, b: seq<WebhookEvent>, wanted: WebhookEvent -> bool)
    requires a <= b
    ensures Chosen(a, wanted) <= Chosen(b, wanted)
  {
    if a != b {
      assert b[..|b| - 1][..|a|] == b[..|a|];
      ChosenPrefix(a, b[..|b| - 1], wanted);
    }
  }

  /** Events that share a key can be looked for among the events of the key. */
  lemma {:induction false} ChosenOfKey(events: seq<WebhookEvent>, key: Text, wanted: WebhookEvent -> bool)
    requires forall e :: wanted(e) ==> Key(e) == key
    ensures Chosen(OfKey(events, key), wanted) == Chosen(events, wanted)
  {
    if events != [] {
      var before, last := events[..|events| - 1], events[|events| - 1];
      ChosenOfKey(before, key, wanted);
      if Key(last) == key {
        assert (OfKey(before, key) + [last])[..|OfKey(before, key)|] == OfKey(before, key);
      } else {
        assert OfKey(before, key) + [] == OfKey(before, key);
      }
    }
  }

  /** Main result: in every interleaving the events of one provider subscription, whatever their types, are
      handled in the order they were sent, none skipped. */
  lemma {:induction false} SubscriptionOrder(c: Config, steps: seq<Step>, p: Pool, pid: Text)
    requires Configured(c) && Reaches(c, steps, p) && pid != []
    ensures OfSubscription(p.handled, pid) <= OfSubscription(p.sent, pid)
  {
    KeyOrder(c, steps, p, pid);
    ChosenPrefix(OfKey(p.handled, pid), OfKey(p.sent, pid), (e: WebhookEvent) => e.providerSubId == pid);
    ChosenOfKey(p.handled, pid, (e: WebhookEvent) => e.providerSubId == pid);
    ChosenOfKey(p.sent, pid, (e: WebhookEvent) => e.providerSubId == pid);
  }

  /** And so are the events of one type that belong to no subscription. */
  lemma {:induction false} TypeOrder(c: Config, steps: seq<Step>, p: Pool, typeName: Text)
    requires Configured(c) && Reaches(c, steps, p)
    ensures OfType(p.handled, typeName) <= OfType(p.sent, typeName)
  {
    KeyOrder(c, steps, p, typeName);
    var wanted := (e: WebhookEvent) => e.providerSubId == [] && e.typeName == typeName;
    ChosenPrefix(OfKey(p.handled, typeName), OfKey(p.sent, typeName), wanted);
    ChosenOfKey(p.handled, typeName, wanted);
    ChosenOfKey(p.sent, typeName, wanted);
  }

  /** Main result: before closing, a send waits exactly while as many events of its worker as the queue is deep
      have been sent and are neither handled nor in hand. */
  lemma {:induction false} SendWaitsExactly(c: Config, steps: seq<Step>, p: Pool, e: WebhookEvent)
    requires Configured(c) && Reaches(c, steps, p) && p.closed == 0
    ensures Shaped(c, p)
    ensures var w := Route(c.hash, c.workers, e);
            !Enabled(c, p, Send(e)) <==>
              |OfWorker(c, p.sent, w)| == |OfWorker(c, p.handled, w)| + |Current(p.workers[w])| + c.depth
  {
    InOrderRun(c, steps, p);
    var w := Route(c.hash, c.workers, e);
    assert Accounted(c, p, w) && InPlace(c, p, w);
  }

  /** The event is with worker `v`, queued or in hand. */
  predicate IsWith(p: Pool, e: WebhookEvent, v: nat)
    requires v < |p.queues| == |p.workers|
  {
    e in p.queues[v] || p.workers[v] == Handling(e)
  }

  /** Main result: every sent event is handled, in hand or queued, exactly as often as it was sent, by its
      own worker alone, and no queue outgrows its depth. */
  lemma {:induction false} NothingLost(c: Config, steps: seq<Step>, p: Pool, e: WebhookEvent)
    requires Configured(c) && Reaches(c, steps, p)
    ensures Shaped(c, p)
    ensures var w := Route(c.hash, c.workers, e);
            && |p.queues[w]| <= c.depth
            && multiset(p.sent)[e] ==
                multiset(p.handled)[e] + multiset(Current(p.workers[w]))[e] + multiset(p.queues[w])[e]
            && (forall v: nat :: v < c.workers && v != w ==> !IsWith(p, e, v))
  {
    InOrderRun(c, steps, p);
    var w := Route(c.hash, c.workers, e);
    OfWorkerCount(c, p.sent, w, e);
    OfWorkerCount(c, p.handled, w, e);
    assert Accounted(c, p, w) && InPlace(c, p, w);
    forall v: nat | v < c.workers && v != w ensures !IsWith(p, e, v) {
      assert InPlace(c, p, v);
    }
  }

  predicate AllExited(c: Config, p: Pool) {
    Shaped(c, p) && p.closed == c.workers && forall w :: 0 <= w < c.workers ==> p.workers[w].Exited?
  }

  /** Main result: when close returns, what was handled is exactly what was sent. */
  lemma {:induction false} DrainedWhenClosed(c: Config, steps: seq<Step>, p: Pool)
    requires Configured(c) && Reaches(c, steps, p) && AllExited(c, p)
    ensures multiset(p.handled) == multiset(p.sent)
    ensures forall w: nat :: w < c.workers ==> OfWorker(c, p.handled, w) == OfWorker(c, p.sent, w)
  {
    InOrderRun(c, steps, p);
    forall e ensures multiset(p.handled)[e] == multiset(p.sent)[e] {
      NothingLost(c, steps, p, e);
      assert InPlace(c, p, Route(c.hash, c.workers, e));
    }
    forall w: nat | w < c.workers ensures OfWorker(c, p.handled, w) == OfWorker(c, p.sent, w) {
      assert Accounted(c, p, w) && InPlace(c, p, w);
    }
  }

  // ---------------------------------------------------------------- the drain ends

  function WorkOf(worker: Worker, queue: seq<WebhookEvent>): nat {
    2 * |queue| + (match worker case Idle => 1 case Handling(_) => 2 case Exited => 0)
  }

  function Work(workers: seq<Worker>, queues: seq<seq<WebhookEvent>>): nat
    requires |workers| == |queues|
  {
    if workers == [] then 0 else
      Work(workers[..|workers| - 1], queues[..|queues| - 1]) + WorkOf(workers[|workers| - 1], queues[|queues| - 1])
  }

  lemma {:induction false} WorkUpdate(workers: seq<Worker>, queues: seq<seq<WebhookEvent>>, w: nat, worker: Worker,
                                      queue: seq<WebhookEvent>)
    requires |workers| == |queues| && w < |workers|
    ensures Work(workers[w := worker], queues[w := queue])
         == Work(workers, queues) - WorkOf(workers[w], queues[w]) + WorkOf(worker, queue)
  {
    var n := |workers| - 1;
    if w < n {
      WorkUpdate(workers[..n], queues[..n], w, worker, queue);
      assert workers[w := worker][..n] == workers[..n][w := worker];
      assert queues[w := queue][..n] == queues[..n][w := queue];
    } else {
      assert workers[w := worker][..n] == workers[..n] && queues[w := queue][..n] == queues[..n];
    }
  }

  /** Every step but a send brings the end nearer. */
  function Remaining(c: Config, p: Pool): nat
    requires Shaped(c, p)
  {
    Work(p.workers, p.queues) + (c.workers - p.closed)
  }

  lemma DrainStep(c: Config, p: Pool, s: Step)
    requires Configured(c) && Enabled(c, p, s) && !s.Send?
    ensures Shaped(c, Apply(c, p, s)) && Remaining(c, Apply(c, p, s)) < Remaining(c, p)
  {
    match s
    case Take(w) => WorkUpdate(p.workers, p.queues, w, Handling(p.queues[w][0]), p.queues[w][1..]);
      assert p.workers[w := Handling(p.queues[w][0])][w].Handling?;
    case Finish(w) =>
      WorkUpdate(p.workers, p.queues, w, Idle, p.queues[w]);
      assert p.queues[w := p.queues[w]] == p.queues;
    case Exit(w) =>
      WorkUpdate(p.workers, p.queues, w, Exited, p.queues[w]);
      assert p.queues[w := p.queues[w]] == p.queues;
    case CloseQueue =>
  }

  /** Until close can return, some worker or the closing goroutine can go on. */
  lemma {:induction false} DrainNeverStuck(c: Config, steps: seq<Step>, p: Pool) returns (s: Step)
    requires Configured(c) && Reaches(c, steps, p) && !AllExited(c, p)
    ensures Enabled(c, p, s) && !s.Send?
  {
    InOrderRun(c, steps, p);
    if p.closed < c.workers {
      s := CloseQueue;
    } else {
      var w :| 0 <= w < c.workers && !p.workers[w].Exited?;
      assert InPlace(c, p, w);
      s := if p.workers[w].Handling? then Finish(w) else if p.queues[w] != [] then Take(w) else Exit(w);
    }
  }

  // ---------------------------------------------------------------- one event

  /** What a handler does with an event: an error stops the rest. */
  type Behaviour<!H, !E> = (H, WebhookEvent) -> Option<E>

  /** The handlers called are those up to and including the first that fails; its error is returned. */
  method DispatchSync<H, E>(handlers: seq<H>, run: Behaviour<H, E>, event: WebhookEvent)
    returns (err: Option<E>, ghost called: seq<H>)
    ensures err.None? <==> forall h :: h in handlers ==> run(h, event).None?
    ensures err.None? ==> called == handlers
    ensures err.Some? ==>
              exists k :: 0 <= k < |handlers| && err == run(handlers[k], event) && called == handlers[..k + 1]
                && forall i :: 0 <= i < k ==> run(handlers[i], event).None?
  {
    called := [];
    for i := 0 to |handlers|
      invariant called == handlers[..i]
      invariant forall j :: 0 <= j < i ==> run(handlers[j], event).None?
    {
      called := called + [handlers[i]];
      err := run(handlers[i], event);
      if err.Some? {
        return;
      }
    }
    err := None;
  }
}
