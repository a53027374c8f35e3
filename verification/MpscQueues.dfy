/** The bounded queue as a monitor: each critical section is one step, notifications come after unlocking as
    steps of their own, and a waiting thread may also wake up for no reason. */
module MpscQueues {

  /** A producer thread: not in push, about to take the lock for the first time, in the not-full wait set, woken
      and about to take the lock again, or past its push and about to notify the consumer. */
  datatype Producer<T> = Outside | Entering(value: T) | Waiting(value: T) | Awake(value: T) | Notifying

  datatype Consumer = Resting | Calling | Asleep | Roused | Releasing

  /** close(): not called, flag set, consumer notified, done. */
  datatype Closer = Open | FlagSet | ConsumerTold | Done

  /** `accepted` and `popped` record the values in the order the critical sections ran; `ended` that nullopt was
      returned. */
  datatype Queue<T> = Queue(capacity: nat, items: seq<T>, closer: Closer, producers: seq<Producer<T>>,
                            consumer: Consumer, accepted: seq<T>, popped: seq<T>, ended: bool)

  datatype Step<T> =
    | Push(p: nat, value: T) | Enter(p: nat) | NotifyConsumer(p: nat) | SpuriousProducer(p: nat)
    | Pop | Take | NotifyProducer(p: nat) | NotifyNobody | SpuriousConsumer
    | Close | TellConsumer | TellProducers

  predicate Closed<T>(q: Queue<T>) {
    !q.closer.Open?
  }

  predicate SomeWaiting<T>(ps: seq<Producer<T>>) {
    exists p :: 0 <= p < |ps| && ps[p].Waiting?
  }

  predicate Enabled<T>(q: Queue<T>, s: Step<T>) {
    match s
    case Push(p, _) => p < |q.producers| && q.producers[p].Outside?
    case Enter(p) => p < |q.producers| && (q.producers[p].Entering? || q.producers[p].Awake?)
    case NotifyConsumer(p) => p < |q.producers| && q.producers[p].Notifying?
    case SpuriousProducer(p) => p < |q.producers| && q.producers[p].Waiting?
    case Pop => q.consumer.Resting?
    case Take => q.consumer.Calling? || q.consumer.Roused?
    case NotifyProducer(p) => q.consumer.Releasing? && p < |q.producers| && q.producers[p].Waiting?
    case NotifyNobody => q.consumer.Releasing? && !SomeWaiting(q.producers)
    case SpuriousConsumer => q.consumer.Asleep?
    case Close => q.closer.Open?
    case TellConsumer => q.closer.FlagSet?
    case TellProducers => q.closer.ConsumerTold?
  }

  function Rouse(c: Consumer): Consumer {
    if c.Asleep? then Roused else c
  }

  function WakeAll<T>(ps: seq<Producer<T>>): (r: seq<Producer<T>>)
    ensures |r| == |ps|
  {
    seq(|ps|, i requires 0 <= i < |ps| => if ps[i].Waiting? then Awake(ps[i].value) else ps[i])
  }

  function Next<T>(q: Queue<T>, s: Step<T>): Queue<T>
    requires Enabled(q, s)
  {
    match s
    case Push(p, value) => q.(producers := q.producers[p := Entering(value)])
    case Enter(p) =>
      var value := q.producers[p].value;
      if Closed(q) then q.(producers := q.producers[p := Outside])
      else if |q.items| < q.capacity then
        q.(items := q.items + [value], accepted := q.accepted + [value], producers := q.producers[p := Notifying])
      else q.(producers := q.producers[p := Waiting(value)])
    case NotifyConsumer(p) => q.(producers := q.producers[p := Outside], consumer := Rouse(q.consumer))
    case SpuriousProducer(p) => q.(producers := q.producers[p := Awake(q.producers[p].value)])
    case Pop => q.(consumer := Calling)
    case Take =>
      if q.items != [] then
        q.(items := q.items[1..], popped := q.popped + [q.items[0]], consumer := Releasing)
      else if Closed(q) then q.(consumer := Resting, ended := true)
      else q.(consumer := Asleep)
    case NotifyProducer(p) => q.(producers := q.producers[p := Awake(q.producers[p].value)], consumer := Resting)
    case NotifyNobody => q.(consumer := Resting)
    case SpuriousConsumer => q.(consumer := Roused)
    case Close => q.(closer := FlagSet)
    case TellConsumer => q.(closer := ConsumerTold, consumer := Rouse(q.consumer))
    case TellProducers => q.(closer := Done, producers := WakeAll(q.producers))
  }

  ghost predicate Initial<T>(q: Queue<T>) {
    && q.capacity > 0 && q.items == [] && q.closer == Open && q.consumer == Resting
    && q.accepted == [] && q.popped == [] && !q.ended
    && forall p | 0 <= p < |q.producers| :: q.producers[p] == Outside
  }

  ghost predicate Execution<T>(trace: seq<Queue<T>>, steps: seq<Step<T>>) {
    && |trace| == |steps| + 1 && Initial(trace[0])
    && forall i | 0 <= i < |steps| :: Enabled(trace[i], steps[i]) && trace[i + 1] == Next(trace[i], steps[i])
  }

  /** A new queue used by `n` producer threads; a capacity of zero counts as one. */
  function NewQueue<T>(capacity: nat, n: nat): Queue<T> {
    Queue(if capacity == 0 then 1 else capacity, [], Open, seq(n, _ => Outside), Resting, [], [], false)
  }

  lemma ExecutionStarts<T>(capacity: nat, n: nat)
    ensures Execution<T>([NewQueue(capacity, n)], [])
  {
  }

  /** An execution can go on with any step that is enabled. */
  lemma ExecutionGrows<T>(trace: seq<Queue<T>>, steps: seq<Step<T>>, step: Step<T>)
    requires Execution(trace, steps) && Enabled(trace[|steps|], step)
    ensures Execution(trace + [Next(trace[|steps|], step)], steps + [step])
  {
    var trace', steps' := trace + [Next(trace[|steps|], step)], steps + [step];
    forall i | 0 <= i < |steps'|
      ensures Enabled(trace'[i], steps'[i]) && trace'[i + 1] == Next(trace'[i], steps'[i])
    {
      if i < |steps| {
        assert trace'[i] == trace[i] && trace'[i + 1] == trace[i + 1] && steps'[i] == steps[i];
      }
    }
  }

  // ---- counting awakened producers ----

  function AwakeCount<T>(ps: seq<Producer<T>>): nat {
    if ps == [] then 0 else (if ps[0].Awake? then 1 else 0) + AwakeCount(ps[1..])
  }

  lemma {:induction false} AwakeUpdate<T>(ps: seq<Producer<T>>, p: nat, x: Producer<T>)
    requires p < |ps|
    ensures AwakeCount(ps[p := x]) ==
            AwakeCount(ps) - (if ps[p].Awake? then 1 else 0) + if x.Awake? then 1 else 0
  {
    if p == 0 {
      assert ps[p := x][1..] == ps[1..];
    } else {
      AwakeUpdate(ps[1..], p - 1, x);
      assert ps[p := x][1..] == ps[1..][p - 1 := x];
    }
  }

  // ---- the invariant ----

  /** Values leave in the order they were accepted, and nullopt means closed and drained. */
  ghost predicate Ordered<T>(q: Queue<T>) {
    && q.accepted == q.popped + q.items
    && |q.items| <= q.capacity && q.capacity > 0
    && (q.ended ==> Closed(q) && q.items == [])
  }

  /** Every free slot a producer could be waiting for has a wake-up on its way. */
  predicate ProducersServed<T>(q: Queue<T>) {
    !Closed(q) && SomeWaiting(q.producers) ==>
      q.capacity - |q.items| <= (if q.consumer.Releasing? then 1 else 0) + AwakeCount(q.producers)
  }

  /** A sleeping consumer with items present has a notification on its way. */
  predicate ConsumerServed<T>(q: Queue<T>) {
    !Closed(q) && q.consumer.Asleep? && q.items != [] ==>
      exists p :: 0 <= p < |q.producers| && q.producers[p].Notifying?
  }

  /** After close has told a side, nobody sleeps on that side. */
  predicate Released<T>(q: Queue<T>) {
    && (q.closer.ConsumerTold? || q.closer.Done? ==> !q.consumer.Asleep?)
    && (q.closer.Done? ==> !SomeWaiting(q.producers))
  }

  ghost predicate Good<T>(q: Queue<T>) {
    Ordered(q) && ProducersServed(q) && ConsumerServed(q) && Released(q)
  }

  lemma NextOrdered<T>(q: Queue<T>, s: Step<T>)
    requires Ordered(q) && Enabled(q, s)
    ensures Ordered(Next(q, s))
  {
    if s.Take? && q.items != [] {
      assert q.popped + q.items == q.popped + [q.items[0]] + q.items[1..];
    }
    if s.Enter? {
      assert q.popped + q.items + [q.producers[s.p].value] == q.popped + (q.items + [q.producers[s.p].value]);
    }
  }

  /** Nobody starts to wait where room was seen, so a wait set that is non-empty afterwards had a reason. */
  lemma NextProducersServed<T>(q: Queue<T>, s: Step<T>)
    requires Ordered(q) && ProducersServed(q) && Enabled(q, s)
    ensures ProducersServed(Next(q, s))
  {
    var q' := Next(q, s);
    match s
    case Push(p, value) =>
      AwakeUpdate(q.producers, p, Entering(value));
      WaitingBefore(q.producers, p, Entering(value));
    case Enter(p) =>
      AwakeUpdate(q.producers, p, q'.producers[p]);
      WaitingBefore(q.producers, p, q'.producers[p]);
    case NotifyConsumer(p) =>
      AwakeUpdate(q.producers, p, Outside);
      WaitingBefore(q.producers, p, Outside);
    case SpuriousProducer(p) =>
      AwakeUpdate(q.producers, p, Awake(q.producers[p].value));
    case NotifyProducer(p) =>
      AwakeUpdate(q.producers, p, Awake(q.producers[p].value));
    case _ =>
  }

  lemma WaitingBefore<T>(ps: seq<Producer<T>>, p: nat, x: Producer<T>)
    requires p < |ps|
    ensures SomeWaiting(ps[p := x]) ==> x.Waiting? || SomeWaiting(ps)
  {
    if SomeWaiting(ps[p := x]) {
      var j :| 0 <= j < |ps| && ps[p := x][j].Waiting?;
      assert j != p ==> ps[j].Waiting?;
    }
  }

  lemma NextConsumerServed<T>(q: Queue<T>, s: Step<T>)
    requires ConsumerServed(q) && Enabled(q, s)
    ensures ConsumerServed(Next(q, s))
  {
    var q' := Next(q, s);
    if !Closed(q') && q'.consumer.Asleep? && q'.items != [] {
      if s.Enter? && q'.producers[s.p].Notifying? {
      } else {
        var p :| 0 <= p < |q.producers| && q.producers[p].Notifying?;
        assert q'.producers[p].Notifying?;
      }
    }
  }

  lemma NextReleased<T>(q: Queue<T>, s: Step<T>)
    requires Released(q) && Enabled(q, s)
    ensures Released(Next(q, s))
  {
    var q' := Next(q, s);
    if s.Push? || s.Enter? || s.NotifyConsumer? {
      WaitingBefore(q.producers, s.p, q'.producers[s.p]);
    }
    if s.SpuriousProducer? || s.NotifyProducer? {
      WaitingBefore(q.producers, s.p, Awake(q.producers[s.p].value));
    }
  }

  lemma NextGood<T>(q: Queue<T>, s: Step<T>)
    requires Good(q) && Enabled(q, s)
    ensures Good(Next(q, s))
  {
    NextOrdered(q, s);
    NextProducersServed(q, s);
    NextConsumerServed(q, s);
    NextReleased(q, s);
  }

  lemma InitialGood<T>(q: Queue<T>)
    requires Initial(q)
    ensures Good(q)
  {
  }

  lemma {:induction false} ExecutionGood<T>(trace: seq<Queue<T>>, steps: seq<Step<T>>, n: nat)
    requires Execution(trace, steps) && n < |trace|
    ensures Good(trace[n])
  {
    if n == 0 {
      InitialGood(trace[0]);
    } else {
      ExecutionGood(trace, steps, n - 1);
      NextGood(trace[n - 1], steps[n - 1]);
    }
  }

  // ---- what the queue promises ----

  /** In every interleaving: while open, a waiting producer means the free slots are covered by pending and
      delivered wake-ups, and a sleeping consumer with items present has a notification pending. */
  lemma NoLostWakeUp<T>(trace: seq<Queue<T>>, steps: seq<Step<T>>, n: nat)
    requires Execution(trace, steps) && n < |trace| && !Closed(trace[n])
    ensures var q := trace[n];
            && (SomeWaiting(q.producers) ==>
                  q.capacity - |q.items| <= (if q.consumer.Releasing? then 1 else 0) + AwakeCount(q.producers))
            && (q.consumer.Asleep? && q.items != [] ==>
                  exists p :: 0 <= p < |q.producers| && q.producers[p].Notifying?)
  {
    ExecutionGood(trace, steps, n);
  }

  /** Nothing can happen any more except new calls and spurious wake-ups. */
  predicate Quiet<T>(q: Queue<T>) {
    && (forall p | 0 <= p < |q.producers| :: q.producers[p].Outside? || q.producers[p].Waiting?)
    && (q.consumer.Resting? || q.consumer.Asleep?)
    && (q.closer.Open? || q.closer.Done?)
  }

  lemma {:induction false} QuietNoneAwake<T>(ps: seq<Producer<T>>)
    requires forall p | 0 <= p < |ps| :: ps[p].Outside? || ps[p].Waiting?
    ensures AwakeCount(ps) == 0
  {
    if ps != [] {
      assert forall p | 0 <= p < |ps[1..]| :: ps[1..][p] == ps[p + 1];
      QuietNoneAwake(ps[1..]);
    }
  }

  /** A quiet queue is never stuck: producers sleep only on a full open queue, the consumer only on an empty open
      one, so never both, and on a closed queue nobody sleeps. */
  lemma NeverStuck<T>(trace: seq<Queue<T>>, steps: seq<Step<T>>, n: nat)
    requires Execution(trace, steps) && n < |trace| && Quiet(trace[n])
    ensures var q := trace[n];
            && (SomeWaiting(q.producers) ==> !Closed(q) && |q.items| == q.capacity)
            && (q.consumer.Asleep? ==> !Closed(q) && q.items == [])
            && !(SomeWaiting(q.producers) && q.consumer.Asleep?)
  {
    ExecutionGood(trace, steps, n);
    QuietNoneAwake(trace[n].producers);
  }

  /** First in, first out: what was popped and what is queued are together the accepted pushes in order, and
      nullopt was returned only once the queue was closed and everything accepted had been popped. */
  lemma FifoAndDrained<T>(trace: seq<Queue<T>>, steps: seq<Step<T>>, n: nat)
    requires Execution(trace, steps) && n < |trace|
    ensures trace[n].accepted == trace[n].popped + trace[n].items
    ensures trace[n].ended ==> Closed(trace[n]) && trace[n].popped == trace[n].accepted
  {
    ExecutionGood(trace, steps, n);
    if trace[n].ended {
      assert trace[n].popped + [] == trace[n].popped;
    }
  }
}
