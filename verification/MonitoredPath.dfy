/** The order path with the monitor queue in it, thread by thread: connection threads wait inside push and the pump
    inside pop, and wake up only when they are told to. */
module MonitoredPath {
  import opened Domain
  import Q = MpscQueues
  import P = Pipeline
  import Shards

  /** The path, and the monitor standing behind its queue. */
  datatype System = System(path: P.System, queue: Q.Queue<P.Request>)

  datatype Step =
    | Connect                              // a connection thread starts
    | Monitor(q: Q.Step<P.Request>)        // a step inside push, pop or close
    | Path(p: P.Step)                      // any other step of the path

  /** What a connection thread inside push still has to hand over. */
  function Held(t: Q.Producer<P.Request>): Option<P.Request> {
    match t
    case Outside => None
    case Entering(r) => Some(r)
    case Waiting(r) => Some(r)
    case Awake(r) => Some(r)
    case Notifying => None
  }

  /** The path's view of its queue is the monitor's: same items, same threads in push, same flag; and the pump is
      inside pop only with empty hands. */
  predicate Linked(s: System) {
    && s.path.queue == s.queue.items && s.path.queueCapacity == s.queue.capacity
    && (s.path.closed <==> Q.Closed(s.queue))
    && LinkedClients(s.path.clients, s.queue.producers)
    && LinkedPump(s.path.hand, s.path.pumpDone, s.queue.consumer)
  }

  predicate LinkedClients(clients: seq<Option<P.Request>>, producers: seq<Q.Producer<P.Request>>) {
    && |clients| == |producers|
    && forall c | 0 <= c < |clients| :: clients[c] == Held(producers[c])
  }

  predicate LinkedPump(hand: Option<P.Request>, pumpDone: bool, consumer: Q.Consumer) {
    && (consumer.Releasing? ==> hand.Some?)
    && (consumer.Calling? || consumer.Roused? || consumer.Asleep? ==> hand.None?)
    && (pumpDone ==> consumer.Resting?)
  }

  predicate AllOutside(producers: seq<Q.Producer<P.Request>>) {
    forall p | 0 <= p < |producers| :: producers[p].Outside?
  }

  /** Steps of the path that are not steps of its queue. */
  predicate BesideQueue(p: P.Step) {
    !p.Connect? && !p.Receive? && !p.Push? && !p.PumpTake? && !p.PumpEnd? && !p.CloseQueue?
  }

  /** Pushes come from connection threads that read a request, pops from the pump with empty hands, close from the
      thread that stops the pump; a thread is joined only once it is out of its last call. */
  predicate Enabled(s: System, step: Step) {
    match step
    case Connect => P.Enabled(s.path, P.Step.Connect)
    case Monitor(q) =>
      && Q.Enabled(s.queue, q)
      && (q.Push? ==> P.Enabled(s.path, P.Receive(q.p, q.value)))
      && (q.Pop? ==> s.path.hand.None? && !s.path.pumpDone)
      && (q.Close? ==> P.Enabled(s.path, P.CloseQueue))
    case Path(p) =>
      && BesideQueue(p) && P.Enabled(s.path, p)
      && (p.PumpSubmit? ==> s.queue.consumer.Resting?)
      && (p.JoinListener? ==> AllOutside(s.queue.producers))
      && (p.JoinPump? ==> s.queue.closer.Done?)
  }

  /** The step of the path that a step of the monitor completes, if any. */
  function Image(s: System, q: Q.Step<P.Request>): Option<P.Step>
    requires Q.Enabled(s.queue, q)
  {
    match q
    case Push(c, r) => Some(P.Receive(c, r))
    case Enter(c) =>
      if Q.Closed(s.queue) || |s.queue.items| < s.queue.capacity then Some(P.Push(c)) else None
    case Take =>
      if s.queue.items != [] then Some(P.PumpTake) else if Q.Closed(s.queue) then Some(P.PumpEnd) else None
    case Close => Some(P.CloseQueue)
    case _ => None
  }

  /** The monitor never lets a thread do what the path could not. */
  lemma ImageEnabled(s: System, q: Q.Step<P.Request>)
    requires Linked(s) && Enabled(s, Monitor(q)) && Image(s, q).Some?
    ensures P.Enabled(s.path, Image(s, q).value)
  {
    if q.Enter? {
      assert s.path.clients[q.p] == Held(s.queue.producers[q.p]);
    }
  }

  function PathAfter(s: System, q: Q.Step<P.Request>): P.System
    requires Enabled(s, Monitor(q))
  {
    match Image(s, q)
    case None => s.path
    case Some(p) => if P.Enabled(s.path, p) then P.Next(s.path, p) else s.path
  }

  function Next(s: System, step: Step): System
    requires Enabled(s, step)
  {
    match step
    case Connect =>
      System(P.Next(s.path, P.Step.Connect), s.queue.(producers := s.queue.producers + [Q.Outside]))
    case Monitor(q) => System(PathAfter(s, q), Q.Next(s.queue, q))
    case Path(p) => s.(path := P.Next(s.path, p))
  }

  // ---- the link holds in every state ----

  lemma ClientMoves(clients: seq<Option<P.Request>>, producers: seq<Q.Producer<P.Request>>, c: nat,
                    x: Option<P.Request>, t: Q.Producer<P.Request>)
    requires LinkedClients(clients, producers) && c < |clients| && x == Held(t)
    ensures LinkedClients(clients[c := x], producers[c := t])
  {
  }

  lemma ClientStays(clients: seq<Option<P.Request>>, producers: seq<Q.Producer<P.Request>>, c: nat,
                    t: Q.Producer<P.Request>)
    requires LinkedClients(clients, producers) && c < |clients| && clients[c] == Held(t)
    ensures LinkedClients(clients, producers[c := t])
  {
  }

  predicate OfClient(q: Q.Step<P.Request>) {
    q.Push? || q.Enter? || q.NotifyConsumer? || q.SpuriousProducer? || q.NotifyProducer?
  }

  lemma MonitorClients(s: System, q: Q.Step<P.Request>)
    requires Linked(s) && Enabled(s, Monitor(q))
    ensures LinkedClients(PathAfter(s, q).clients, Q.Next(s.queue, q).producers)
  {
    if Image(s, q).Some? { ImageEnabled(s, q); }
    if OfClient(q) {
      var t := Q.Next(s.queue, q).producers[q.p];
      if q.Push? || (q.Enter? && Image(s, q).Some?) {
        ClientMoves(s.path.clients, s.queue.producers, q.p, Held(t), t);
      } else {
        ClientStays(s.path.clients, s.queue.producers, q.p, t);
      }
    }
  }

  lemma MonitorQueue(s: System, q: Q.Step<P.Request>)
    requires Linked(s) && Enabled(s, Monitor(q))
    ensures PathAfter(s, q).queue == Q.Next(s.queue, q).items
    ensures PathAfter(s, q).queueCapacity == Q.Next(s.queue, q).capacity
    ensures PathAfter(s, q).closed <==> Q.Closed(Q.Next(s.queue, q))
  {
    if Image(s, q).Some? { ImageEnabled(s, q); }
    if q.Enter? {
      assert s.path.clients[q.p] == Held(s.queue.producers[q.p]);
    }
  }

  lemma MonitorPump(s: System, q: Q.Step<P.Request>)
    requires Linked(s) && Enabled(s, Monitor(q))
    ensures LinkedPump(PathAfter(s, q).hand, PathAfter(s, q).pumpDone, Q.Next(s.queue, q).consumer)
  {
    if Image(s, q).Some? { ImageEnabled(s, q); }
  }

  lemma BesideKeeps(s: P.System, p: P.Step)
    requires P.Enabled(s, p) && BesideQueue(p)
    ensures var s' := P.Next(s, p);
            && s'.queue == s.queue && s'.queueCapacity == s.queueCapacity && s'.closed == s.closed
            && s'.clients == s.clients && s'.pumpDone == s.pumpDone
            && (p.PumpSubmit? || s'.hand == s.hand)
  {
  }

  lemma NextLinked(s: System, step: Step)
    requires Linked(s) && Enabled(s, step)
    ensures Linked(Next(s, step))
  {
    match step
    case Connect =>
    case Monitor(q) =>
      MonitorClients(s, q);
      MonitorQueue(s, q);
      MonitorPump(s, q);
    case Path(p) => BesideKeeps(s.path, p);
  }

  // ---- and so does what the monitor promises ----

  lemma {:induction false} AwakeConnect(ps: seq<Q.Producer<P.Request>>)
    ensures Q.AwakeCount(ps + [Q.Outside]) == Q.AwakeCount(ps)
  {
    if ps != [] {
      AwakeConnect(ps[1..]);
      assert (ps + [Q.Outside])[1..] == ps[1..] + [Q.Outside];
    } else {
      assert ps + [Q.Outside] == [Q.Outside];
    }
  }

  lemma ConnectGood(q: Q.Queue<P.Request>)
    requires Q.Good(q)
    ensures Q.Good(q.(producers := q.producers + [Q.Outside]))
  {
    var ps, ps' := q.producers, q.producers + [Q.Outside];
    AwakeConnect(ps);
    assert forall p | 0 <= p < |ps| :: ps'[p] == ps[p];
    assert Q.SomeWaiting(ps') ==> Q.SomeWaiting(ps);
    if exists p :: 0 <= p < |ps| && ps[p].Notifying? {
      var p :| 0 <= p < |ps| && ps[p].Notifying?;
      assert ps'[p].Notifying?;
    }
  }

  // ---- executions ----

  ghost predicate Initial(s: System) {
    && P.Initial(s.path) && Q.Initial(s.queue) && s.queue.producers == []
    && s.queue.capacity == s.path.queueCapacity
  }

  ghost predicate Execution(trace: seq<System>, steps: seq<Step>) {
    && |trace| == |steps| + 1 && Initial(trace[0])
    && forall i | 0 <= i < |steps| :: Enabled(trace[i], steps[i]) && trace[i + 1] == Next(trace[i], steps[i])
  }

  lemma ExecutionStarts(hash: Shards.SymbolId -> nat, queueCapacity: nat, ringCapacity: nat, shards: nat)
    requires queueCapacity > 0 && ringCapacity > 0 && shards > 0
    ensures Execution([System(P.Started(hash, queueCapacity, ringCapacity, shards), Q.NewQueue(queueCapacity, 0))], [])
  {
    P.ExecutionStarts(hash, queueCapacity, ringCapacity, shards);
    Q.ExecutionStarts<P.Request>(queueCapacity, 0);
  }

  /** An execution can go on with any step that is enabled. */
  lemma ExecutionGrows(trace: seq<System>, steps: seq<Step>, step: Step)
    requires Execution(trace, steps) && Enabled(trace[|steps|], step)
    ensures Execution(trace + [Next(trace[|steps|], step)], steps + [step])
  {
    var trace', steps' := trace + [Next(trace[|steps|], step)], steps + [step];
    forall i | 0 <= i < |steps'|
      ensures Enabled(trace'[i], steps'[i]) && trace'[i + 1] == Next(trace'[i], steps'[i])
    {
      if i < |steps| {
        assert trace'[i] == trace[i] && trace'[i + 1] == trace[i + 1] && steps'[i] == steps[i];
      }
    }
  }

  /** What a step does to the path: nothing, or one of the path's own steps. */
  lemma StepOfPath(s: System, step: Step) returns (p: Option<P.Step>)
    requires Linked(s) && Enabled(s, step)
    ensures p.None? ==> Next(s, step).path == s.path
    ensures p.Some? ==> P.Enabled(s.path, p.value) && Next(s, step).path == P.Next(s.path, p.value)
  {
    match step
    case Connect => p := Some(P.Step.Connect);
    case Monitor(q) =>
      p := Image(s, q);
      if p.Some? { ImageEnabled(s, q); }
    case Path(q) => p := Some(q);
  }

  /** The order path over the monitor is the order path: whatever state the threads get into, the path's part of it
      is reached by steps of the path alone, so all that holds of the path in every execution holds here. Link and
      monitor are sound in that state. */
  lemma {:induction false} RefinesPath(trace: seq<System>, steps: seq<Step>, n: nat)
    returns (path: seq<P.System>, moves: seq<P.Step>)
    requires Execution(trace, steps) && n < |trace|
    ensures P.Execution(path, moves) && path[|moves|] == trace[n].path
    ensures Linked(trace[n]) && Q.Good(trace[n].queue)
  {
    if n == 0 {
      path, moves := [trace[0].path], [];
    } else {
      path, moves := RefinesPath(trace, steps, n - 1);
      var s, step := trace[n - 1], steps[n - 1];
      NextLinked(s, step);
      if step.Connect? {
        ConnectGood(s.queue);
      } else if step.Monitor? {
        Q.NextGood(s.queue, step.q);
      }
      var p := StepOfPath(s, step);
      if p.Some? {
        P.ExecutionGrows(path, moves, p.value);
        path, moves := path + [P.Next(s.path, p.value)], moves + [p.value];
      }
    }
  }

  /** So nothing is lost with the monitor in place either: once the shards are stopped, everything read from a
      connection was accepted, stamped in that order and processed once. */
  lemma LosesNothing(trace: seq<System>, steps: seq<Step>, n: nat, symbol: Shards.SymbolId)
    requires Execution(trace, steps) && n < |trace| && |trace[n].path.lanes| > 0
    requires trace[n].path.phase.StoppingBroadcaster? || trace[n].path.phase.Stopped?
    ensures var s := trace[n].path;
            && s.received == multiset(s.accepted) && P.Requests(s.history) == s.accepted
            && Shards.BookOf(s.lanes[P.LaneOf(s.hash, symbol, |s.lanes|)].shard, symbol) ==
                 Shards.BookFold(Shards.OfSymbol(s.history, symbol))
  {
    var path, moves := RefinesPath(trace, steps, n);
    P.ShutdownLosesNothing(path, moves, |moves|, symbol);
  }

  // ---- progress ----

  /** A request or connection from outside, or a wake-up for no reason. */
  predicate Outside(step: Step) {
    step.Connect? || (step.Monitor? && (step.q.Push? || step.q.SpuriousProducer? || step.q.SpuriousConsumer?))
  }

  /** A step of a connection thread, of the pump or of a worker. */
  predicate ByThreads(step: Step) {
    (step.Monitor? && !step.q.Close?) || (step.Path? && P.ByPumpOrWorker(step.p))
  }

  /** As long as a call on the queue is under way that is not asleep, the monitor can move. */
  lemma MonitorMoves(q: Q.Queue<P.Request>) returns (step: Q.Step<P.Request>)
    requires !Q.Quiet(q)
    ensures Q.Enabled(q, step)
    ensures !step.Push? && !step.SpuriousProducer? && !step.SpuriousConsumer? && !step.Pop? && !step.Close?
  {
    if p: nat :| p < |q.producers| && !q.producers[p].Outside? && !q.producers[p].Waiting? {
      step := if q.producers[p].Notifying? then Q.NotifyConsumer(p) else Q.Enter(p);
    } else if q.consumer.Releasing? {
      if Q.SomeWaiting(q.producers) {
        var p :| 0 <= p < |q.producers| && q.producers[p].Waiting?;
        step := Q.NotifyProducer(p);
      } else {
        step := Q.NotifyNobody;
      }
    } else if q.consumer.Calling? || q.consumer.Roused? {
      step := Q.Take;
    } else {
      step := if q.closer.FlagSet? then Q.TellConsumer else Q.TellProducers;
    }
  }

  /** When the queue is quiet: who sleeps, and why. */
  lemma QuietQueue(q: Q.Queue<P.Request>)
    requires Q.Good(q) && Q.Quiet(q)
    ensures Q.SomeWaiting(q.producers) ==> !Q.Closed(q) && q.items != [] && !q.consumer.Asleep?
    ensures q.consumer.Asleep? ==> !Q.Closed(q) && q.items == []
    ensures !Q.SomeWaiting(q.producers) ==> AllOutside(q.producers)
  {
    Q.QuietNoneAwake(q.producers);
  }

  /** The pump between two calls: it submits what it holds, a worker makes room for it, or it calls pop. */
  lemma PumpBetweenCalls(s: System) returns (step: Step)
    requires Linked(s) && P.FlowGood(s.path) && P.PhaseGood(s.path) && P.StoppingGood(s.path.lanes, s.path.phase)
    requires s.queue.consumer.Resting? && !s.path.pumpDone
    ensures Enabled(s, step) && !Outside(step) && ByThreads(step)
  {
    if s.path.hand.None? {
      step := Monitor(Q.Pop);
    } else {
      var p := P.PumpMoves(s.path);
      step := Path(p);
    }
  }

  lemma IdleClients(s: System)
    requires Linked(s) && AllOutside(s.queue.producers)
    ensures P.Idle(s.path.clients)
  {
  }

  /** What the stopping thread does next when the queue is quiet and nobody sleeps on it but perhaps the pump. */
  lemma StopMoves(s: System) returns (step: Step)
    requires Linked(s) && P.FlowGood(s.path) && P.PhaseGood(s.path) && P.StoppingGood(s.path.lanes, s.path.phase)
    requires Q.Quiet(s.queue) && AllOutside(s.queue.producers) && !s.path.phase.Stopped?
    requires s.path.pumpDone || (s.queue.consumer.Asleep? && !Q.Closed(s.queue))
    ensures Enabled(s, step) && !Outside(step)
  {
    IdleClients(s);
    match s.path.phase
    case Serving => step := Path(P.StopListener);
    case JoiningListener => step := Path(P.JoinListener);
    case ListenerStopped => step := Monitor(Q.Close);
    case Closing => step := Path(P.JoinPump);
    case Flagging(i) => step := Path(P.ClearFlag);
    case Joining(i) => step := if s.path.lanes[i].exited then Path(P.JoinWorker) else Path(P.WorkerExit(i));
    case Draining(i) => step := if s.path.lanes[i].ring == [] then Path(P.DrainEnd) else Path(P.DrainOne);
    case StoppingBroadcaster => step := Path(P.StopBroadcaster);
  }

  lemma SomeStep(s: System) returns (step: Step)
    requires Linked(s) && Q.Good(s.queue) && !s.path.phase.Stopped?
    requires P.FlowGood(s.path) && P.PhaseGood(s.path) && P.StoppingGood(s.path.lanes, s.path.phase)
    ensures Enabled(s, step) && !Outside(step)
    ensures !AllOutside(s.queue.producers) ==> ByThreads(step)
  {
    if !Q.Quiet(s.queue) {
      var q := MonitorMoves(s.queue);
      step := Monitor(q);
    } else {
      QuietQueue(s.queue);
      if s.queue.consumer.Resting? && !s.path.pumpDone {
        step := PumpBetweenCalls(s);
      } else {
        step := StopMoves(s);
      }
    }
  }

  /** With every wake-up in the hands of the monitor the path is never stuck: until stop is done some thread can
      move that is neither reading new requests nor waking up for no reason; and while a connection thread is inside
      push, asleep or not, it is a connection thread, the pump or a worker, so stop never waits for a thread nobody
      can help. */
  lemma NeverStuck(trace: seq<System>, steps: seq<Step>, n: nat) returns (step: Step)
    requires Execution(trace, steps) && n < |trace| && !trace[n].path.phase.Stopped?
    ensures Enabled(trace[n], step) && !Outside(step)
    ensures !AllOutside(trace[n].queue.producers) ==> ByThreads(step)
  {
    var path, moves := RefinesPath(trace, steps, n);
    P.ExecutionGood(path, moves, |moves|);
    step := SomeStep(trace[n]);
  }
}
