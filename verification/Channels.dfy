/** The monitor queue and the ring with a Lossless cursor are bounded first-in first-out channels, which is what
    the order path takes them for. */
module Channels {
  import MpscQueues
  import RingProtocol
  import RingSafety
  import RingDelivery
  import Pipeline
  import Shards

  /** What is in the channel, and everything ever put in and taken out. */
  datatype Channel<T> = Channel(items: seq<T>, put: seq<T>, got: seq<T>)

  /** Nothing happens, an item goes in at the back while there is room, or the front item comes out. */
  ghost predicate ChannelStep<T(!new)>(capacity: nat, a: Channel<T>, b: Channel<T>) {
    || b == a
    || (|a.items| < capacity && exists v :: b == Inserted(a, v))
    || (a.items != [] && b == Channel(a.items[1..], a.put, a.got + [a.items[0]]))
  }

  function Inserted<T>(a: Channel<T>, v: T): Channel<T> {
    Channel(a.items + [v], a.put + [v], a.got)
  }

  /** A run of a channel, starting empty. */
  ghost predicate ChannelRun<T(!new)>(capacity: nat, run: seq<Channel<T>>) {
    && run != [] && run[0] == Channel([], [], [])
    && forall i | 0 <= i < |run| - 1 :: ChannelStep(capacity, run[i], run[i + 1])
  }

  // ---- the queue ----

  function QueueView<T>(q: MpscQueues.Queue<T>): Channel<T> {
    Channel(q.items, q.accepted, q.popped)
  }

  lemma QueueStep<T(!new)>(q: MpscQueues.Queue<T>, step: MpscQueues.Step<T>)
    requires MpscQueues.Enabled(q, step)
    ensures ChannelStep(q.capacity, QueueView(q), QueueView(MpscQueues.Next(q, step)))
    ensures MpscQueues.Next(q, step).capacity == q.capacity
  {
    if step.Enter? {
      assert QueueView(MpscQueues.Next(q, step)) == QueueView(q) ||
             QueueView(MpscQueues.Next(q, step)) == Inserted(QueueView(q), q.producers[step.p].value);
    }
  }

  lemma {:induction false} QueueCapacity<T>(trace: seq<MpscQueues.Queue<T>>, steps: seq<MpscQueues.Step<T>>, n: nat)
    requires MpscQueues.Execution(trace, steps) && n < |trace|
    ensures trace[n].capacity == trace[0].capacity
  {
    if n > 0 {
      QueueCapacity(trace, steps, n - 1);
    }
  }

  /** Every interleaving of producers, consumer and close on the monitor is a run of a channel. */
  lemma QueueIsChannel<T(!new)>(trace: seq<MpscQueues.Queue<T>>, steps: seq<MpscQueues.Step<T>>)
    requires MpscQueues.Execution(trace, steps)
    ensures ChannelRun(trace[0].capacity, seq(|trace|, i requires 0 <= i < |trace| => QueueView(trace[i])))
  {
    forall i | 0 <= i < |trace| - 1
      ensures ChannelStep(trace[0].capacity, QueueView(trace[i]), QueueView(trace[i + 1]))
    {
      QueueCapacity(trace, steps, i);
      QueueStep(trace[i], steps[i]);
    }
  }

  // ---- the ring ----

  predicate Viewable<T>(r: RingProtocol.Ring<T>, i: nat) {
    i < |r.consumers| && r.consumers[i].position <= r.core.published <= |r.core.pushes|
  }

  /** The ring as one cursor sees it: what is published and not yet committed, published, delivered. */
  function RingView<T>(r: RingProtocol.Ring<T>, i: nat): Channel<T>
    requires Viewable(r, i)
  {
    Channel(r.core.pushes[r.consumers[i].position..r.core.published], r.core.pushes[..r.core.published],
            RingDelivery.Values(r.consumers[i].delivered))
  }

  ghost function RingViews<T>(trace: seq<RingProtocol.Ring<T>>, i: nat): seq<Channel<T>>
    requires forall n | 0 <= n < |trace| :: Viewable(trace[n], i)
  {
    seq(|trace|, n requires 0 <= n < |trace| => RingView(trace[n], i))
  }

  ghost predicate LosslessAt<T>(r: RingProtocol.Ring<T>, i: nat) {
    i < |r.consumers| && r.consumers[i].policy.Lossless? && RingDelivery.InStep(r.core, i, r.consumers[i])
  }

  lemma PublishStep<T(!new)>(k: RingProtocol.Core<T>, position: nat, got: seq<T>)
    requires position <= k.published < |k.pushes| && k.published < position + |k.slots|
    ensures var a := Channel(k.pushes[position..k.published], k.pushes[..k.published], got);
            var b := Channel(k.pushes[position..k.published + 1], k.pushes[..k.published + 1], got);
            b == Inserted(a, k.pushes[k.published]) && ChannelStep(|k.slots|, a, b)
  {
  }

  lemma ProducerChannelStep<T(!new)>(cfg: RingProtocol.Config, r: RingProtocol.Ring<T>, step: RingProtocol.Step<T>,
                                     i: nat)
    requires cfg.blockingOnly && RingSafety.GoodCore(r.core) && LosslessAt(r, i)
    requires RingProtocol.ProducerEnabled(cfg, r.core, step)
    ensures var r' := r.(core := RingProtocol.ProducerStep(cfg, r, step));
            && r'.consumers[i].position <= r'.core.published <= |r'.core.pushes|
            && ChannelStep(|r.core.slots|, RingView(r, i), RingView(r', i))
  {
    var k, c := r.core, r.consumers[i];
    var k' := RingProtocol.ProducerStep(cfg, r, step);
    if step.Publish? {
      PublishStep(k, c.position, RingDelivery.Values(c.delivered));
    } else {
      assert k'.pushes[c.position..k.published] == k.pushes[c.position..k.published];
      assert k'.pushes[..k.published] == k.pushes[..k.published];
    }
  }

  lemma ReaderChannelStep<T(!new)>(r: RingProtocol.Ring<T>, step: RingProtocol.Step<T>, i: nat)
    requires RingSafety.GoodCore(r.core) && LosslessAt(r, i)
    requires RingProtocol.ConsumerEnabled(r.core, r.consumers[i], step)
    ensures var r' := r.(consumers := r.consumers[i := RingProtocol.ConsumerStep(r.core, r.consumers[i], step)]);
            && r'.consumers[i].position <= r'.core.published
            && ChannelStep(|r.core.slots|, RingView(r, i), RingView(r', i))
  {
    var k, c := r.core, r.consumers[i];
    var c' := RingProtocol.ConsumerStep(k, c, step);
    if step.Commit? {
      var a, b := RingView(r, i), RingView(r.(consumers := r.consumers[i := c']), i);
      assert a.items[0] == k.pushes[c.position] == c.pc.out;
      assert b.items == a.items[1..];
      assert b.got == a.got + [c.pc.out];
    } else {
      assert c'.delivered == c.delivered && c'.position == c.position;
    }
  }

  lemma RingStep<T(!new)>(cfg: RingProtocol.Config, r: RingProtocol.Ring<T>, step: RingProtocol.Step<T>, i: nat)
    requires cfg.blockingOnly && RingSafety.GoodCore(r.core) && LosslessAt(r, i)
    requires RingProtocol.Enabled(cfg, r, step) && LosslessAt(RingProtocol.Next(cfg, r, step), i)
    requires RingSafety.GoodCore(RingProtocol.Next(cfg, r, step).core)
    ensures ChannelStep(|r.core.slots|, RingView(r, i), RingView(RingProtocol.Next(cfg, r, step), i))
    ensures |RingProtocol.Next(cfg, r, step).core.slots| == |r.core.slots|
  {
    if RingProtocol.OfProducer(step) {
      ProducerChannelStep(cfg, r, step, i);
    } else if step.c == i {
      ReaderChannelStep(r, step, i);
    }
  }

  /** What an execution keeps: the number of slots, the number of cursors and their policies. */
  lemma {:induction false} RingShape<T(!new)>(cfg: RingProtocol.Config, trace: seq<RingProtocol.Ring<T>>,
                                              steps: seq<RingProtocol.Step<T>>, n: nat, i: nat)
    requires cfg.blockingOnly && RingProtocol.Execution(cfg, trace, steps) && n < |trace|
    requires i < |trace[0].consumers| && trace[0].consumers[i].policy.Lossless?
    ensures |trace[n].core.slots| == |trace[0].core.slots|
    ensures RingSafety.GoodCore(trace[n].core) && LosslessAt(trace[n], i)
  {
    RingSafety.ExecutionGood(cfg, trace, steps, n);
    RingDelivery.ExecutionInStep(cfg, trace, steps, n);
    if n > 0 {
      RingShape(cfg, trace, steps, n - 1, i);
    }
  }

  /** With push_blocking only, every interleaving on the ring is, for each Lossless cursor, a run of a channel as
      large as the ring, whatever the other cursors do. */
  lemma RingIsChannel<T(!new)>(cfg: RingProtocol.Config, trace: seq<RingProtocol.Ring<T>>,
                               steps: seq<RingProtocol.Step<T>>, i: nat)
    requires cfg.blockingOnly && RingProtocol.Execution(cfg, trace, steps)
    requires i < |trace[0].consumers| && trace[0].consumers[i].policy.Lossless?
    ensures forall n | 0 <= n < |trace| :: Viewable(trace[n], i)
    ensures ChannelRun(|trace[0].core.slots|, RingViews(trace, i))
  {
    forall n | 0 <= n < |trace| ensures Viewable(trace[n], i) {
      RingShape(cfg, trace, steps, n, i);
    }
    forall n | 0 <= n < |steps|
      ensures ChannelStep(|trace[0].core.slots|, RingViews(trace, i)[n], RingViews(trace, i)[n + 1])
    {
      RingShape(cfg, trace, steps, n, i);
      RingShape(cfg, trace, steps, n + 1, i);
      RingStep(cfg, trace[n], steps[n], i);
    }
  }

  // ---- what the order path assumes ----

  function InboundView(s: Pipeline.System): Channel<Pipeline.Request> {
    Channel(s.queue, s.accepted, Pipeline.Requests(s.history) + Pipeline.InHand(s.hand))
  }

  function LaneView(l: Pipeline.Lane): Channel<Shards.Message> {
    Channel(l.ring, l.processed + l.ring, l.processed)
  }

  lemma InboundStep(s: Pipeline.System, step: Pipeline.Step)
    requires Pipeline.Enabled(s, step) && |s.lanes| > 0
    ensures ChannelStep(s.queueCapacity, InboundView(s), InboundView(Pipeline.Next(s, step)))
  {
    var s' := Pipeline.Next(s, step);
    var taken := Pipeline.Requests(s.history);
    match step
    case Push(c) =>
      assert InboundView(s') == InboundView(s) || InboundView(s') == Inserted(InboundView(s), s.clients[c].value);
    case PumpTake =>
      assert (taken + []) + [s.queue[0]] == taken + [s.queue[0]];
    case PumpSubmit =>
      assert Pipeline.Requests(s'.history) == taken + [s.hand.value];
      assert taken + [s.hand.value] + [] == taken + [s.hand.value];
    case _ =>
  }

  lemma GrownLane(l: Pipeline.Lane, m: Shards.Message, capacity: nat)
    requires |l.ring| < capacity
    ensures ChannelStep(capacity, LaneView(l), LaneView(l.(ring := l.ring + [m])))
  {
    assert LaneView(l.(ring := l.ring + [m])) == Inserted(LaneView(l), m);
  }

  lemma WorkedLane(l: Pipeline.Lane, capacity: nat)
    requires l.ring != []
    ensures ChannelStep(capacity, LaneView(l), LaneView(Pipeline.Worked(l)))
  {
    assert (l.processed + [l.ring[0]]) + l.ring[1..] == l.processed + l.ring;
  }

  lemma LaneStep(s: Pipeline.System, step: Pipeline.Step, i: nat)
    requires Pipeline.Enabled(s, step) && i < |s.lanes|
    ensures ChannelStep(s.ringCapacity, LaneView(s.lanes[i]), LaneView(Pipeline.Next(s, step).lanes[i]))
  {
    var l := s.lanes[i];
    if step.PumpSubmit? && Pipeline.Target(s) == i {
      GrownLane(l, Shards.Message(s.nextSequence, s.hand.value.symbol, s.hand.value.command), s.ringCapacity);
    }
    if (step.Work? && step.i == i) || (step.DrainOne? && s.phase.i == i) {
      WorkedLane(l, s.ringCapacity);
    }
  }

  predicate SameShape(s: Pipeline.System, s': Pipeline.System) {
    |s.lanes| == |s'.lanes| && s.queueCapacity == s'.queueCapacity && s.ringCapacity == s'.ringCapacity
  }

  lemma StepShape(s: Pipeline.System, step: Pipeline.Step)
    requires Pipeline.Enabled(s, step)
    ensures SameShape(s, Pipeline.Next(s, step))
  {
  }

  lemma {:induction false} PathShape(trace: seq<Pipeline.System>, steps: seq<Pipeline.Step>, n: nat)
    requires Pipeline.Execution(trace, steps) && n < |trace|
    ensures |trace[n].lanes| > 0 && SameShape(trace[n], trace[0])
  {
    if n > 0 {
      PathShape(trace, steps, n - 1);
      StepShape(trace[n - 1], steps[n - 1]);
    }
  }

  ghost function LaneViews(trace: seq<Pipeline.System>, i: nat): seq<Channel<Shards.Message>>
    requires forall n | 0 <= n < |trace| :: i < |trace[n].lanes|
  {
    seq(|trace|, n requires 0 <= n < |trace| => LaneView(trace[n].lanes[i]))
  }

  /** The order path asks of its queue and of each ring exactly what a channel of that size allows. */
  lemma PathUsesChannels(trace: seq<Pipeline.System>, steps: seq<Pipeline.Step>, i: nat)
    requires Pipeline.Execution(trace, steps) && i < |trace[0].lanes|
    ensures ChannelRun(trace[0].queueCapacity,
                       seq(|trace|, n requires 0 <= n < |trace| => InboundView(trace[n])))
    ensures forall n | 0 <= n < |trace| :: i < |trace[n].lanes|
    ensures ChannelRun(trace[0].ringCapacity, LaneViews(trace, i))
  {
    forall n | 0 <= n < |trace| ensures i < |trace[n].lanes| {
      PathShape(trace, steps, n);
    }
    forall n | 0 <= n < |steps|
      ensures ChannelStep(trace[0].queueCapacity, InboundView(trace[n]), InboundView(trace[n + 1]))
      ensures ChannelStep(trace[0].ringCapacity, LaneViews(trace, i)[n], LaneViews(trace, i)[n + 1])
    {
      PathShape(trace, steps, n);
      InboundStep(trace[n], steps[n]);
      LaneStep(trace[n], steps[n], i);
    }
  }
}
