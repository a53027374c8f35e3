/** The whole order path: connection threads push what they read into a bounded queue, one pump thread stamps and
    routes it, every shard works through a bounded first-in first-out ring, and shutdown stops the stages one after
    the other. */
module Pipeline {
  import opened Domain
  import opened Ledger
  import opened Shards

  datatype Request = Request(symbol: SymbolId, command: Command)

  /** A shard with its inbound ring; `running` and `exited` are the worker's flag and the end of its thread;
      `processed` records the messages it has worked through. */
  datatype Lane = Lane(ring: seq<Message>, shard: ShardState, running: bool, exited: bool, processed: seq<Message>)

  /** How far stop has got. */
  datatype Phase =
    | Serving | JoiningListener | ListenerStopped | Closing | Flagging(i: nat) | Joining(i: nat) | Draining(i: nat)
    | StoppingBroadcaster | Stopped

  /** `clients` are the connection threads: one that has read a request is in push until the queue takes it.
      `hash` is the standard library's unspecified hash. `received`, `accepted` and `history` record the requests
      read from connections, those that entered the queue, and the messages that were stamped. */
  datatype System = System(hash: SymbolId -> nat, queueCapacity: nat, ringCapacity: nat,
                           clients: seq<Option<Request>>, received: multiset<Request>,
                           queue: seq<Request>, closed: bool, hand: Option<Request>, pumpDone: bool, nextSequence: nat,
                           lanes: seq<Lane>, phase: Phase, accepted: seq<Request>, history: seq<Message>)

  datatype Step =
    | Connect | Receive(c: nat, r: Request) | Push(c: nat)
    | PumpTake | PumpSubmit | PumpEnd
    | Work(i: nat) | WorkerExit(i: nat)
    | StopListener | JoinListener | CloseQueue | JoinPump
    | ClearFlag | JoinWorker | DrainOne | DrainEnd | StopBroadcaster

  function LaneOf(hash: SymbolId -> nat, symbol: SymbolId, n: nat): nat
    requires n > 0
  {
    hash(symbol) % n
  }

  function Target(s: System): nat
    requires |s.lanes| > 0 && s.hand.Some?
  {
    LaneOf(s.hash, s.hand.value.symbol, |s.lanes|)
  }

  /** No connection thread is in push. */
  predicate Idle(clients: seq<Option<Request>>) {
    forall c | 0 <= c < |clients| :: clients[c].None?
  }

  predicate Enabled(s: System, step: Step) {
    match step
    case Connect => s.phase.Serving?
    case Receive(c, _) => s.phase.Serving? && c < |s.clients| && s.clients[c].None?
    case Push(c) => c < |s.clients| && s.clients[c].Some? && (s.closed || |s.queue| < s.queueCapacity)
    case PumpTake => !s.pumpDone && s.hand.None? && s.queue != []
    case PumpSubmit =>
      !s.pumpDone && s.hand.Some? && |s.lanes| > 0 && |s.lanes[Target(s)].ring| < s.ringCapacity
    case PumpEnd => !s.pumpDone && s.hand.None? && s.queue == [] && s.closed
    case Work(i) => i < |s.lanes| && !s.lanes[i].exited && s.lanes[i].ring != []
    case WorkerExit(i) => i < |s.lanes| && !s.lanes[i].exited && !s.lanes[i].running
    case StopListener => s.phase.Serving?
    case JoinListener => s.phase.JoiningListener? && Idle(s.clients)
    case CloseQueue => s.phase.ListenerStopped?
    case JoinPump => s.phase.Closing? && s.pumpDone
    case ClearFlag => s.phase.Flagging?
    case JoinWorker => s.phase.Joining? && s.phase.i < |s.lanes| && s.lanes[s.phase.i].exited
    case DrainOne => s.phase.Draining? && s.phase.i < |s.lanes| && s.lanes[s.phase.i].ring != []
    case DrainEnd => s.phase.Draining? && s.phase.i < |s.lanes| && s.lanes[s.phase.i].ring == []
    case StopBroadcaster => s.phase.StoppingBroadcaster?
  }

  /** One message from the front of the ring is processed. */
  function Worked(l: Lane): Lane
    requires l.ring != []
  {
    l.(ring := l.ring[1..], shard := Process(l.shard, l.ring[0]), processed := l.processed + [l.ring[0]])
  }

  function WithLane(s: System, i: nat, l: Lane): System
    requires i < |s.lanes|
  {
    s.(lanes := s.lanes[i := l])
  }

  /** Stamp the message in hand and put it on the ring of its shard. */
  function Submitted(s: System): System
    requires |s.lanes| > 0 && s.hand.Some?
  {
    var m := Message(s.nextSequence, s.hand.value.symbol, s.hand.value.command);
    var i := Target(s);
    WithLane(s, i, s.lanes[i].(ring := s.lanes[i].ring + [m]))
      .(hand := None, nextSequence := s.nextSequence + 1, history := s.history + [m])
  }

  /** The end of a push: onto the queue, or nowhere when the queue is closed. */
  function Pushed(s: System, c: nat): System
    requires c < |s.clients| && s.clients[c].Some?
  {
    var rest, r := s.(clients := s.clients[c := None]), s.clients[c].value;
    if s.closed then rest else rest.(queue := s.queue + [r], accepted := s.accepted + [r])
  }

  function Next(s: System, step: Step): System
    requires Enabled(s, step)
  {
    match step
    case Connect => s.(clients := s.clients + [None])
    case Receive(c, r) => s.(clients := s.clients[c := Some(r)], received := s.received + multiset{r})
    case Push(c) => Pushed(s, c)
    case PumpTake => s.(hand := Some(s.queue[0]), queue := s.queue[1..])
    case PumpSubmit => Submitted(s)
    case PumpEnd => s.(pumpDone := true)
    case Work(i) => WithLane(s, i, Worked(s.lanes[i]))
    case WorkerExit(i) => WithLane(s, i, s.lanes[i].(exited := true))
    case StopListener => s.(phase := JoiningListener)
    case JoinListener => s.(phase := ListenerStopped)
    case CloseQueue => s.(phase := Closing, closed := true)
    case JoinPump => s.(phase := Flagging(0))
    case ClearFlag =>
      if s.phase.i < |s.lanes|
      then WithLane(s, s.phase.i, s.lanes[s.phase.i].(running := false)).(phase := Joining(s.phase.i))
      else s.(phase := StoppingBroadcaster)
    case JoinWorker => s.(phase := Draining(s.phase.i))
    case DrainOne => WithLane(s, s.phase.i, Worked(s.lanes[s.phase.i]))
    case DrainEnd => s.(phase := Flagging(s.phase.i + 1))
    case StopBroadcaster => s.(phase := Stopped)
  }

  predicate Initial(s: System) {
    && s.queueCapacity > 0 && s.ringCapacity > 0 && |s.lanes| > 0
    && s.clients == [] && s.received == multiset{}
    && s.queue == [] && !s.closed && s.hand == None && !s.pumpDone && s.nextSequence == 0
    && (forall i | 0 <= i < |s.lanes| :: s.lanes[i] == Lane([], NEW_SHARD, true, false, []))
    && s.phase == Serving && s.accepted == [] && s.history == []
  }

  ghost predicate Execution(trace: seq<System>, steps: seq<Step>) {
    && |trace| == |steps| + 1 && Initial(trace[0])
    && forall i | 0 <= i < |steps| :: Enabled(trace[i], steps[i]) && trace[i + 1] == Next(trace[i], steps[i])
  }

  /** A server before anything was read, with its threads started. */
  function Started(hash: SymbolId -> nat, queueCapacity: nat, ringCapacity: nat, shards: nat): System {
    System(hash, queueCapacity, ringCapacity, [], multiset{}, [], false, None, false, 0,
           seq(shards, _ => Lane([], NEW_SHARD, true, false, [])), Serving, [], [])
  }

  lemma ExecutionStarts(hash: SymbolId -> nat, queueCapacity: nat, ringCapacity: nat, shards: nat)
    requires queueCapacity > 0 && ringCapacity > 0 && shards > 0
    ensures Execution([Started(hash, queueCapacity, ringCapacity, shards)], [])
  {
  }

  /** An execution can go on with any step that is enabled. */
  lemma ExecutionGrows(trace: seq<System>, steps: seq<Step>, step: Step)
    requires Execution(trace, steps) && Enabled(trace[|steps|], step)
    ensures Execution(trace + [Next(trace[|steps|], step)], steps + [step])
  {
    var trace', steps' := trace + [Next(trace[|steps|], step)], steps + [step];
    forall i | 0 <= i < |steps'|
      ensures Enabled(trace'[i], steps'[i]) && trace'[i + 1] == Next(trace'[i], steps'[i])
    {
      if i < |steps| {
        assert trace'[i] == trace[i] && trace'[i + 1] == trace[i + 1] && steps'[i] == steps[i];
      }
    }
  }

  // ---- lists of messages ----

  /** The part of a history that goes to shard `i` of `n`. */
  function OfLane(hash: SymbolId -> nat, ms: seq<Message>, n: nat, i: nat): seq<Message>
    requires n > 0
  {
    if ms == [] then []
    else
      var front, m := ms[..|ms| - 1], ms[|ms| - 1];
      OfLane(hash, front, n, i) + if LaneOf(hash, m.symbol, n) == i then [m] else []
  }

  function Requests(ms: seq<Message>): seq<Request> {
    seq(|ms|, k requires 0 <= k < |ms| => Request(ms[k].symbol, ms[k].command))
  }

  function InHand(hand: Option<Request>): seq<Request> {
    match hand case None => [] case Some(r) => [r]
  }

  function Held(client: Option<Request>): multiset<Request> {
    match client case None => multiset{} case Some(r) => multiset{r}
  }

  /** The requests in push. */
  function Pending(clients: seq<Option<Request>>): multiset<Request> {
    if clients == [] then multiset{} else Held(clients[0]) + Pending(clients[1..])
  }

  lemma AddBoth<T(!new)>(rest: multiset<T>, a: multiset<T>, b: multiset<T>, c: multiset<T>, d: multiset<T>)
    requires a + b == c + d
    ensures (rest + a) + b == (rest + c) + d
  {
    forall x: T ensures ((rest + a) + b)[x] == ((rest + c) + d)[x] {
      assert (a + b)[x] == (c + d)[x];
    }
  }

  lemma {:induction false} PendingUpdate(clients: seq<Option<Request>>, c: nat, x: Option<Request>)
    requires c < |clients|
    ensures Pending(clients[c := x]) + Held(clients[c]) == Pending(clients) + Held(x)
  {
    if c == 0 {
      assert clients[c := x][1..] == clients[1..];
    } else {
      PendingUpdate(clients[1..], c - 1, x);
      assert clients[c := x][1..] == clients[1..][c - 1 := x];
      AddBoth(Held(clients[0]), Pending(clients[1..][c - 1 := x]), Held(clients[c]), Pending(clients[1..]), Held(x));
    }
  }

  lemma {:induction false} PendingConnect(clients: seq<Option<Request>>)
    ensures Pending(clients + [None]) == Pending(clients)
  {
    if clients != [] {
      PendingConnect(clients[1..]);
      assert (clients + [None])[1..] == clients[1..] + [None];
    }
  }

  lemma {:induction false} PendingIdle(clients: seq<Option<Request>>)
    requires Idle(clients)
    ensures Pending(clients) == multiset{}
  {
    if clients != [] {
      PendingIdle(clients[1..]);
    }
  }

  lemma OfLaneSnoc(hash: SymbolId -> nat, ms: seq<Message>, n: nat, i: nat, m: Message)
    requires n > 0
    ensures OfLane(hash, ms + [m], n, i) == OfLane(hash, ms, n, i) + if LaneOf(hash, m.symbol, n) == i then [m] else []
  {
    assert (ms + [m])[..|ms|] == ms;
  }

  lemma {:induction false} OfSymbolConcat(a: seq<Message>, b: seq<Message>, symbol: SymbolId)
    ensures OfSymbol(a + b, symbol) == OfSymbol(a, symbol) + OfSymbol(b, symbol)
  {
    if b == [] {
      assert a + b == a;
      assert OfSymbol(a, symbol) + [] == OfSymbol(a, symbol);
    } else {
      var front, m := b[..|b| - 1], b[|b| - 1];
      OfSymbolConcat(a, front, symbol);
      assert (a + b)[..|a + b| - 1] == a + front;
    }
  }

  lemma {:induction false} SymbolInLane(hash: SymbolId -> nat, ms: seq<Message>, n: nat, i: nat, symbol: SymbolId)
    requires n > 0
    ensures OfSymbol(OfLane(hash, ms, n, i), symbol) ==
            if LaneOf(hash, symbol, n) == i then OfSymbol(ms, symbol) else []
  {
    if ms != [] {
      var front, m := ms[..|ms| - 1], ms[|ms| - 1];
      SymbolInLane(hash, front, n, i, symbol);
      if LaneOf(hash, m.symbol, n) == i {
        assert (OfLane(hash, front, n, i) + [m])[..|OfLane(hash, front, n, i)|] == OfLane(hash, front, n, i);
      } else {
        assert OfLane(hash, ms, n, i) == OfLane(hash, front, n, i);
      }
    }
  }

  // ---- the invariant ----

  predicate InOrder(accepted: seq<Request>, history: seq<Message>, hand: Option<Request>, queue: seq<Request>) {
    accepted == Requests(history) + InHand(hand) + queue
  }

  /** Nothing is lost or reordered between acceptance and stamping, and stamps count up. */
  predicate FlowGood(s: System) {
    && InOrder(s.accepted, s.history, s.hand, s.queue)
    && s.nextSequence == |s.history| && (forall k | 0 <= k < |s.history| :: s.history[k].sequence == k)
    && |s.lanes| > 0 && s.ringCapacity > 0 && s.queueCapacity > 0
  }

  /** Every request read from a connection was accepted or is still in push. */
  ghost predicate ReceivedGood(s: System) {
    s.received == multiset(s.accepted) + Pending(s.clients)
  }

  /** A shard has worked through a prefix of its part of the history; the rest is on its ring. */
  predicate LaneGood(hash: SymbolId -> nat, history: seq<Message>, n: nat, i: nat, l: Lane)
    requires n > 0
  {
    OfLane(hash, history, n, i) == l.processed + l.ring && l.shard == ProcessAll(l.processed)
  }

  predicate LanesGood(s: System) {
    |s.lanes| > 0 && forall i | 0 <= i < |s.lanes| :: LaneGood(s.hash, s.history, |s.lanes|, i, s.lanes[i])
  }

  /** Which of `n` shards is being stopped; all before it are done, all after it still run. */
  function Front(phase: Phase, n: nat): nat {
    match phase
    case Flagging(i) => i
    case Joining(i) => i
    case Draining(i) => i
    case StoppingBroadcaster => n
    case Stopped => n
    case _ => 0
  }

  predicate PhaseGood(s: System) {
    && (s.closed <==> !Listening(s.phase) && !s.phase.ListenerStopped?)
    && (!Listening(s.phase) ==> Idle(s.clients))
    && (s.pumpDone ==> s.closed && s.hand.None? && s.queue == [])
    && (!Listening(s.phase) && !s.phase.ListenerStopped? && !s.phase.Closing? ==> s.pumpDone)
  }

  /** The listener's threads may still be running. */
  predicate Listening(phase: Phase) {
    phase.Serving? || phase.JoiningListener?
  }

  predicate StoppingGood(lanes: seq<Lane>, phase: Phase) {
    && Front(phase, |lanes|) <= |lanes|
    && (phase.Joining? || phase.Draining? ==> phase.i < |lanes|)
    && (forall j | 0 <= j < |lanes| :: LaneStopping(lanes[j], j, phase, Front(phase, |lanes|)))
  }

  /** Lane `j` when the shard being stopped is `front`. */
  predicate LaneStopping(l: Lane, j: nat, phase: Phase, front: nat) {
    && (j < front ==> l.exited && l.ring == [])
    && (j > front || (j == front && !phase.Joining? && !phase.Draining?) ==> l.running && !l.exited)
    && (phase.Joining? && j == front ==> !l.running)
    && (phase.Draining? && j == front ==> l.exited)
  }

  lemma InitialGood(s: System)
    requires Initial(s)
    ensures FlowGood(s) && ReceivedGood(s) && LanesGood(s) && PhaseGood(s) && StoppingGood(s.lanes, s.phase)
  {
    forall i | 0 <= i < |s.lanes| ensures LaneGood(s.hash, s.history, |s.lanes|, i, s.lanes[i]) {
      assert s.lanes[i] == Lane([], NEW_SHARD, true, false, []);
    }
  }

  lemma PushInOrder(accepted: seq<Request>, history: seq<Message>, hand: Option<Request>, queue: seq<Request>,
                    r: Request)
    requires InOrder(accepted, history, hand, queue)
    ensures InOrder(accepted + [r], history, hand, queue + [r])
  {
    var before := Requests(history) + InHand(hand);
    assert before + (queue + [r]) == before + queue + [r];
  }

  lemma TakeInOrder(accepted: seq<Request>, history: seq<Message>, queue: seq<Request>)
    requires InOrder(accepted, history, None, queue) && queue != []
    ensures InOrder(accepted, history, Some(queue[0]), queue[1..])
  {
    assert Requests(history) + [] + queue == Requests(history) + [queue[0]] + queue[1..];
  }

  lemma SubmitInOrder(accepted: seq<Request>, history: seq<Message>, queue: seq<Request>, m: Message)
    requires InOrder(accepted, history, Some(Request(m.symbol, m.command)), queue)
    ensures InOrder(accepted, history + [m], None, queue)
  {
    assert Requests(history + [m]) == Requests(history) + [Request(m.symbol, m.command)];
    assert Requests(history + [m]) + [] == Requests(history + [m]);
  }

  lemma NextFlow(s: System, step: Step)
    requires FlowGood(s) && Enabled(s, step)
    ensures FlowGood(Next(s, step))
  {
    match step
    case Push(c) => PushInOrder(s.accepted, s.history, s.hand, s.queue, s.clients[c].value);
    case PumpTake => TakeInOrder(s.accepted, s.history, s.queue);
    case PumpSubmit =>
      var m := Message(s.nextSequence, s.hand.value.symbol, s.hand.value.command);
      SubmitInOrder(s.accepted, s.history, s.queue, m);
    case _ =>
  }

  lemma MoveAcross<T(!new)>(all: multiset<T>, left: multiset<T>, right: multiset<T>, moved: multiset<T>,
                            right': multiset<T>)
    requires all == left + right && right' + moved == right
    ensures all == (left + moved) + right'
  {
    forall x: T ensures all[x] == ((left + moved) + right')[x] {
      assert (right' + moved)[x] == right[x];
    }
  }

  lemma NextReceived(s: System, step: Step)
    requires ReceivedGood(s) && (!Idle(s.clients) ==> !s.closed) && Enabled(s, step)
    ensures ReceivedGood(Next(s, step))
  {
    match step
    case Connect => PendingConnect(s.clients);
    case Receive(c, r) =>
      PendingUpdate(s.clients, c, Some(r));
      ReceivedMore(multiset(s.accepted), Pending(s.clients), Pending(s.clients[c := Some(r)]), multiset{r});
    case Push(c) =>
      PendingUpdate(s.clients, c, None);
      MoveAcross(s.received, multiset(s.accepted), Pending(s.clients), Held(s.clients[c]),
                 Pending(s.clients[c := None]));
    case _ =>
  }

  lemma ReceivedMore<T(!new)>(left: multiset<T>, right: multiset<T>, right': multiset<T>, one: multiset<T>)
    requires right' + multiset{} == right + one
    ensures (left + right) + one == left + right'
  {
    forall x: T ensures ((left + right) + one)[x] == (left + right')[x] {
      assert (right' + multiset{})[x] == (right + one)[x];
    }
  }

  lemma WorkedGood(hash: SymbolId -> nat, history: seq<Message>, n: nat, i: nat, l: Lane)
    requires n > 0 && LaneGood(hash, history, n, i, l) && l.ring != []
    ensures LaneGood(hash, history, n, i, Worked(l))
  {
    ProcessSnoc(l.processed, l.ring[0]);
    MoveOne(l.processed, l.ring);
  }

  lemma SubmittedLane(s: System, i: nat)
    requires LanesGood(s) && s.hand.Some? && i < |s.lanes|
    ensures LaneGood(s.hash, Submitted(s).history, |s.lanes|, i, Submitted(s).lanes[i])
  {
    var m := Message(s.nextSequence, s.hand.value.symbol, s.hand.value.command);
    var l := s.lanes[i];
    assert LaneGood(s.hash, s.history, |s.lanes|, i, l);
    OfLaneSnoc(s.hash, s.history, |s.lanes|, i, m);
    assert l.processed + (l.ring + [m]) == l.processed + l.ring + [m];
    assert OfLane(s.hash, s.history, |s.lanes|, i) + [] == OfLane(s.hash, s.history, |s.lanes|, i);
  }

  /** A step that is no submission and no work changes nothing a lane's accounts depend on. */
  lemma LaneUntouched(s: System, step: Step, i: nat)
    requires Enabled(s, step) && i < |s.lanes|
    requires !step.PumpSubmit? && !(step.Work? && step.i == i) && !(step.DrainOne? && s.phase.i == i)
    ensures var s' := Next(s, step);
            && |s'.lanes| == |s.lanes| && s'.hash == s.hash && s'.history == s.history
            && s'.lanes[i].ring == s.lanes[i].ring && s'.lanes[i].processed == s.lanes[i].processed
            && s'.lanes[i].shard == s.lanes[i].shard
  {
  }

  lemma NextLane(s: System, step: Step, i: nat)
    requires LanesGood(s) && Enabled(s, step) && i < |s.lanes|
    ensures var s' := Next(s, step);
            && |s'.lanes| == |s.lanes| && s'.hash == s.hash
            && LaneGood(s.hash, s'.history, |s.lanes|, i, s'.lanes[i])
  {
    assert LaneGood(s.hash, s.history, |s.lanes|, i, s.lanes[i]);
    if step.PumpSubmit? {
      SubmittedLane(s, i);
    } else if (step.Work? && step.i == i) || (step.DrainOne? && s.phase.i == i) {
      WorkedGood(s.hash, s.history, |s.lanes|, i, s.lanes[i]);
    } else {
      LaneUntouched(s, step, i);
    }
  }

  lemma NextLanes(s: System, step: Step)
    requires LanesGood(s) && Enabled(s, step)
    ensures LanesGood(Next(s, step))
  {
    NextLane(s, step, 0);
    forall i | 0 <= i < |s.lanes|
      ensures LaneGood(s.hash, Next(s, step).history, |s.lanes|, i, Next(s, step).lanes[i])
    {
      NextLane(s, step, i);
    }
  }

  lemma NextPhase(s: System, step: Step)
    requires PhaseGood(s) && |s.lanes| > 0 && Enabled(s, step)
    ensures PhaseGood(Next(s, step))
  {
  }

  lemma NextStopping(s: System, step: Step)
    requires StoppingGood(s.lanes, s.phase) && PhaseGood(s) && |s.lanes| > 0 && Enabled(s, step)
    ensures StoppingGood(Next(s, step).lanes, Next(s, step).phase)
  {
  }

  lemma {:induction false} ExecutionGood(trace: seq<System>, steps: seq<Step>, n: nat)
    requires Execution(trace, steps) && n < |trace|
    ensures FlowGood(trace[n]) && ReceivedGood(trace[n]) && LanesGood(trace[n])
    ensures PhaseGood(trace[n]) && StoppingGood(trace[n].lanes, trace[n].phase)
  {
    if n == 0 {
      InitialGood(trace[0]);
    } else {
      ExecutionGood(trace, steps, n - 1);
      NextFlow(trace[n - 1], steps[n - 1]);
      NextReceived(trace[n - 1], steps[n - 1]);
      NextLanes(trace[n - 1], steps[n - 1]);
      NextPhase(trace[n - 1], steps[n - 1]);
      NextStopping(trace[n - 1], steps[n - 1]);
    }
  }

  // ---- sharding is transparent ----

  /** Under any schedule and any number of shards: a symbol's history is what its one shard has processed of it
      followed by what waits there, no other shard ever sees it, and its book is the single-threaded fold of the
      processed part. */
  lemma ShardingTransparent(trace: seq<System>, steps: seq<Step>, n: nat, symbol: SymbolId, i: nat)
    requires Execution(trace, steps) && n < |trace| && i < |trace[n].lanes|
    ensures var s, l := trace[n], trace[n].lanes[i];
            && |s.lanes| > 0
            && BookOf(l.shard, symbol) == BookFold(OfSymbol(l.processed, symbol))
            && OfSymbol(l.processed, symbol) + OfSymbol(l.ring, symbol) ==
                 if LaneOf(s.hash, symbol, |s.lanes|) == i then OfSymbol(s.history, symbol) else []
  {
    ExecutionGood(trace, steps, n);
    var s, l := trace[n], trace[n].lanes[i];
    assert LaneGood(s.hash, s.history, |s.lanes|, i, l);
    SymbolInLane(s.hash, s.history, |s.lanes|, i, symbol);
    OfSymbolConcat(l.processed, l.ring, symbol);
    BookIsFold(l.processed, symbol);
  }

  lemma {:induction false} LaneRises(hash: SymbolId -> nat, ms: seq<Message>, n: nat, i: nat)
    requires n > 0 && forall k | 0 <= k < |ms| :: ms[k].sequence == k
    ensures Increasing(OfLane(hash, ms, n, i))
    ensures forall k | 0 <= k < |OfLane(hash, ms, n, i)| :: OfLane(hash, ms, n, i)[k].sequence < |ms|
  {
    if ms != [] {
      LaneRises(hash, ms[..|ms| - 1], n, i);
    }
  }

  /** Under any schedule, a shard's updates carry strictly rising sequence numbers and its trade prints never
      falling ones, and its published updates alone show the top of each of its books. */
  lemma PublishedInOrder(trace: seq<System>, steps: seq<Step>, n: nat, i: nat, symbol: SymbolId)
    requires Execution(trace, steps) && n < |trace| && i < |trace[n].lanes|
    ensures var l := trace[n].lanes[i];
            && TopsRise(l.shard.tops, LastSequence(l.processed))
            && TradesRise(l.shard.trades, LastSequence(l.processed))
            && ShowsBook(Shown(l.shard.tops, symbol), BookFold(OfSymbol(l.processed, symbol)), symbol)
            && TradesOf(l.shard.trades, symbol) == TradesFold(OfSymbol(l.processed, symbol))
            && NoRepeats(TopsOf(l.shard.tops, symbol))
  {
    ExecutionGood(trace, steps, n);
    var s, l := trace[n], trace[n].lanes[i];
    assert LaneGood(s.hash, s.history, |s.lanes|, i, l);
    LaneRises(s.hash, s.history, |s.lanes|, i);
    var all := OfLane(s.hash, s.history, |s.lanes|, i);
    assert forall k | 0 <= k < |l.processed| :: l.processed[k] == all[k];
    PublishedSequences(l.processed);
    PublishedTopsShowBooks(l.processed, symbol);
    PrintsAreTrades(l.processed, symbol);
  }

  // ---- shutdown ----

  /** Once the shards are stopped, every request read from a connection has been accepted, stamped in order of
      acceptance, and processed exactly once by its shard, so every book is the single-threaded fold of all of its
      symbol's requests. */
  lemma ShutdownLosesNothing(trace: seq<System>, steps: seq<Step>, n: nat, symbol: SymbolId)
    requires Execution(trace, steps) && n < |trace|
    requires trace[n].phase.StoppingBroadcaster? || trace[n].phase.Stopped?
    ensures var s := trace[n];
            && s.received == multiset(s.accepted) && Requests(s.history) == s.accepted
            && |s.lanes| > 0
            && (forall i | 0 <= i < |s.lanes| :: s.lanes[i].processed == OfLane(s.hash, s.history, |s.lanes|, i))
            && BookOf(s.lanes[LaneOf(s.hash, symbol, |s.lanes|)].shard, symbol) == BookFold(OfSymbol(s.history, symbol))
  {
    ExecutionGood(trace, steps, n);
    var s := trace[n];
    PendingIdle(s.clients);
    assert Requests(s.history) + [] + [] == Requests(s.history);
    forall i | 0 <= i < |s.lanes|
      ensures s.lanes[i].processed == OfLane(s.hash, s.history, |s.lanes|, i) && s.lanes[i].ring == []
    {
      assert LaneGood(s.hash, s.history, |s.lanes|, i, s.lanes[i]);
      assert s.lanes[i].processed + [] == s.lanes[i].processed;
    }
    var i := LaneOf(s.hash, symbol, |s.lanes|);
    ShardingTransparent(trace, steps, n, symbol, i);
    assert OfSymbol(s.lanes[i].processed, symbol) + [] == OfSymbol(s.lanes[i].processed, symbol);
  }

  predicate ByPumpOrWorker(step: Step) {
    step.PumpTake? || step.PumpSubmit? || step.Work?
  }

  /** Before the shards are stopped, a pump with something to do can do it, or a worker makes room for it. */
  lemma PumpMoves(s: System) returns (step: Step)
    requires FlowGood(s) && PhaseGood(s) && StoppingGood(s.lanes, s.phase) && (s.hand.Some? || s.queue != [])
    requires Listening(s.phase) || s.phase.ListenerStopped? || s.phase.Closing?
    ensures Enabled(s, step) && ByPumpOrWorker(step)
  {
    if s.hand.None? {
      step := PumpTake;
    } else if |s.lanes[Target(s)].ring| < s.ringCapacity {
      step := PumpSubmit;
    } else {
      step := Work(Target(s));
    }
  }

  /** A connection thread in push gets through, or the pump or a worker makes room. */
  lemma ClientMoves(s: System, c: nat) returns (step: Step)
    requires FlowGood(s) && PhaseGood(s) && StoppingGood(s.lanes, s.phase) && c < |s.clients| && s.clients[c].Some?
    ensures Enabled(s, step) && (step == Push(c) || ByPumpOrWorker(step))
  {
    if |s.queue| < s.queueCapacity {
      step := Push(c);
    } else {
      step := PumpMoves(s);
    }
  }

  /** No stage waits on one already stopped: until stop is done, some thread can move that is not reading new
      requests, even with every queue full; while connection threads are stuck in push, stop's wait for them
      among them, it is one of them or the pump or a worker. */
  lemma ShutdownNeverStuck(trace: seq<System>, steps: seq<Step>, n: nat) returns (step: Step)
    requires Execution(trace, steps) && n < |trace| && !trace[n].phase.Stopped?
    ensures Enabled(trace[n], step) && !step.Connect? && !step.Receive?
    ensures !Idle(trace[n].clients) ==> step.Push? || ByPumpOrWorker(step)
  {
    ExecutionGood(trace, steps, n);
    var s := trace[n];
    if !Idle(s.clients) {
      var c :| 0 <= c < |s.clients| && s.clients[c].Some?;
      step := ClientMoves(s, c);
      return;
    }
    match s.phase
    case Serving => step := StopListener;
    case JoiningListener => step := JoinListener;
    case ListenerStopped => step := CloseQueue;
    case Closing =>
      if s.pumpDone {
        step := JoinPump;
      } else if s.hand.None? && s.queue == [] {
        step := PumpEnd;
      } else {
        step := PumpMoves(s);
      }
    case Flagging(i) => step := ClearFlag;
    case Joining(i) => step := if s.lanes[i].exited then JoinWorker else WorkerExit(i);
    case Draining(i) => step := if s.lanes[i].ring == [] then DrainEnd else DrainOne;
    case StoppingBroadcaster => step := StopBroadcaster;
  }

  function Waiting(lanes: seq<Lane>): nat {
    if lanes == [] then 0 else |lanes[0].ring| + (if lanes[0].exited then 0 else 1) + Waiting(lanes[1..])
  }

  /** Moves left for the thread that runs stop, with `n` shards. */
  function StopMoves(phase: Phase, n: nat): nat {
    match phase
    case Serving => 3 * n + 6
    case JoiningListener => 3 * n + 5
    case ListenerStopped => 3 * n + 4
    case Closing => 3 * n + 3
    case Flagging(i) => if i <= n then 3 * (n - i) + 2 else 0
    case Joining(i) => if i < n then 3 * (n - i) + 1 else 0
    case Draining(i) => if i < n then 3 * (n - i) else 0
    case StoppingBroadcaster => 1
    case Stopped => 0
  }

  /** What is left to do for the connection threads and the pump. */
  function Upstream(clients: seq<Option<Request>>, queue: seq<Request>, hand: Option<Request>, pumpDone: bool): nat {
    4 * |Pending(clients)| + 3 * |queue| + (if hand.Some? then 2 else 0) + if pumpDone then 0 else 1
  }

  /** Everything still to be done once stop has been called. */
  function WorkLeft(s: System): nat {
    Upstream(s.clients, s.queue, s.hand, s.pumpDone) + Waiting(s.lanes) + StopMoves(s.phase, |s.lanes|)
  }

  lemma {:induction false} WaitingUpdate(lanes: seq<Lane>, i: nat, l: Lane)
    requires i < |lanes|
    ensures Waiting(lanes[i := l]) ==
            Waiting(lanes) - |lanes[i].ring| - (if lanes[i].exited then 0 else 1) + |l.ring| + if l.exited then 0 else 1
  {
    if i == 0 {
      assert lanes[i := l][1..] == lanes[1..];
    } else {
      WaitingUpdate(lanes[1..], i - 1, l);
      assert lanes[i := l][1..] == lanes[1..][i - 1 := l];
    }
  }

  /** Once stop has been called, every step of any thread brings its end closer. */
  lemma ShutdownTerminates(trace: seq<System>, steps: seq<Step>, n: nat)
    requires Execution(trace, steps) && n < |steps| && !trace[n].phase.Serving?
    ensures WorkLeft(trace[n + 1]) < WorkLeft(trace[n])
  {
    ExecutionGood(trace, steps, n);
    StepShrinks(trace[n], steps[n]);
  }

  lemma PushShrinks(clients: seq<Option<Request>>, c: nat, queue: seq<Request>, r: Request, hand: Option<Request>,
                    pumpDone: bool)
    requires c < |clients| && clients[c].Some?
    ensures Upstream(clients[c := None], queue + [r], hand, pumpDone) < Upstream(clients, queue, hand, pumpDone)
    ensures Upstream(clients[c := None], queue, hand, pumpDone) < Upstream(clients, queue, hand, pumpDone)
  {
    PendingUpdate(clients, c, None);
    assert |Pending(clients[c := None]) + Held(clients[c])| == |Pending(clients) + multiset{}|;
  }

  lemma UpstreamShrinks(s: System, step: Step)
    requires |s.lanes| > 0 && Enabled(s, step) && (step.Push? || step.PumpTake? || step.PumpEnd?)
    ensures WorkLeft(Next(s, step)) < WorkLeft(s)
  {
    if step.Push? {
      PushShrinks(s.clients, step.c, s.queue, s.clients[step.c].value, s.hand, s.pumpDone);
    }
  }

  lemma SubmitShrinks(s: System)
    requires Enabled(s, PumpSubmit)
    ensures WorkLeft(Submitted(s)) < WorkLeft(s)
  {
    WaitingUpdate(s.lanes, Target(s), Submitted(s).lanes[Target(s)]);
  }

  lemma LaneShrinks(s: System, i: nat, l: Lane, phase: Phase)
    requires i < |s.lanes|
    requires |l.ring| + (if l.exited then 0 else 1) + StopMoves(phase, |s.lanes|) <
             |s.lanes[i].ring| + (if s.lanes[i].exited then 0 else 1) + StopMoves(s.phase, |s.lanes|)
    ensures WorkLeft(WithLane(s, i, l).(phase := phase)) < WorkLeft(s)
  {
    WaitingUpdate(s.lanes, i, l);
  }

  lemma WorkersShrink(s: System, step: Step)
    requires Enabled(s, step) && (step.Work? || step.WorkerExit? || step.DrainOne?)
    ensures WorkLeft(Next(s, step)) < WorkLeft(s)
  {
    var i := if step.DrainOne? then s.phase.i else step.i;
    LaneShrinks(s, i, Next(s, step).lanes[i], s.phase);
  }

  lemma FlagMoves(i: nat, n: nat)
    ensures i < n ==> StopMoves(Joining(i), n) < StopMoves(Flagging(i), n)
    ensures i == n ==> StopMoves(StoppingBroadcaster, n) < StopMoves(Flagging(i), n)
  {
  }

  lemma ClearFlagShrinks(s: System)
    requires s.phase.Flagging? && s.phase.i <= |s.lanes|
    ensures WorkLeft(Next(s, ClearFlag)) < WorkLeft(s)
  {
    var i := s.phase.i;
    FlagMoves(i, |s.lanes|);
    if i < |s.lanes| {
      var l := s.lanes[i].(running := false);
      LaneShrinks(s, i, l, Joining(i));
      assert Next(s, ClearFlag) == WithLane(s, i, l).(phase := Joining(i));
    }
  }

  lemma StopShrinks(s: System, step: Step)
    requires Front(s.phase, |s.lanes|) <= |s.lanes| && Enabled(s, step)
    requires step.StopListener? || step.JoinListener? || step.CloseQueue? || step.JoinPump?
             || step.JoinWorker? || step.DrainEnd? || step.StopBroadcaster?
    ensures WorkLeft(Next(s, step)) < WorkLeft(s)
  {
  }

  lemma StepShrinks(s: System, step: Step)
    requires |s.lanes| > 0 && Front(s.phase, |s.lanes|) <= |s.lanes| && Enabled(s, step) && !s.phase.Serving?
    ensures WorkLeft(Next(s, step)) < WorkLeft(s)
  {
    if step.Push? || step.PumpTake? || step.PumpEnd? {
      UpstreamShrinks(s, step);
    } else if step.PumpSubmit? {
      SubmitShrinks(s);
    } else if step.Work? || step.WorkerExit? || step.DrainOne? {
      WorkersShrink(s, step);
    } else if step.ClearFlag? {
      ClearFlagShrinks(s);
    } else {
      StopShrinks(s, step);
    }
  }
}
