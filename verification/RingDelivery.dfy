/** Lossless cursors get everything, Lossy ones account for what they miss, and the gate lets go. */
module RingDelivery {
  import opened RingProtocol
  import opened RingSafety

  // ---- Lossless cursors ----

  /** The gate has already passed the cursor at index `i` for the push under way. */
  predicate Cleared(p: ProducerPc, i: nat) {
    match p
    case Idle => false
    case Gating(j) => i < j
    case _ => true
  }

  /** A Lossless cursor: nothing dropped, everything delivered in order, never lapped. */
  ghost predicate InStep<T>(k: Core<T>, i: nat, c: Consumer<T>) {
    && c.dropped == 0 && |c.delivered| == c.position && c.position <= k.published
    && (forall j | 0 <= j < |c.delivered| :: j < |k.pushes| && c.delivered[j] == Delivery(j, k.pushes[j]))
    && (match c.pc
        case Ready => true
        case Jumping(_, _) => false
        case Reporting(_) => false
        case Checking(want) => want == c.position && want < k.published
        case Copying(want) => want == c.position && want < k.published
        case Rechecking(want, out) =>
          want == c.position && want < k.published && want < |k.pushes| && out == k.pushes[want]
        case Committing(want, out) =>
          want == c.position && want < k.published && want < |k.pushes| && out == k.pushes[want])
    && k.published <= c.position + |k.slots|
    && (Cleared(k.producer, i) ==> k.published < c.position + |k.slots|)
  }

  ghost predicate AllInStep<T>(r: Ring<T>) {
    forall i | 0 <= i < |r.consumers| && r.consumers[i].policy.Lossless? :: InStep(r.core, i, r.consumers[i])
  }

  /** While the push under way is cleared for a cursor, its slot is not touched. */
  lemma SlotStays<T>(k: Core<T>, i: nat, c: Consumer<T>)
    requires GoodCore(k) && InStep(k, i, c) && c.position < k.published
    requires MidPush(k.producer) ==> Cleared(k.producer, i)
    ensures SlotOf(k, c.position) == Slot(c.position, k.pushes[c.position])
  {
    assert StampRight(k, c.position);
    assert ValueRight(k, c.position);
  }

  lemma ReaderInStep<T>(k: Core<T>, i: nat, c: Consumer<T>, step: Step<T>)
    requires GoodCore(k) && InStep(k, i, c) && c.policy.Lossless? && ConsumerEnabled(k, c, step)
    ensures InStep(k, i, ConsumerStep(k, c, step)) && ConsumerStep(k, c, step).policy.Lossless?
  {
    if c.position < k.published {
      SlotStays(k, i, c);
    }
  }

  lemma ProducerInStep<T>(cfg: Config, r: Ring<T>, step: Step<T>, i: nat)
    requires cfg.blockingOnly && GoodCore(r.core) && ProducerEnabled(cfg, r.core, step)
    requires i < |r.consumers| && InStep(r.core, i, r.consumers[i]) && r.consumers[i].policy.Lossless?
    ensures InStep(ProducerStep(cfg, r, step), i, r.consumers[i])
  {
    var k, k' := r.core, ProducerStep(cfg, r, step);
    assert |k.pushes| <= |k'.pushes| && k'.pushes[..|k.pushes|] == k.pushes;
    assert forall j | 0 <= j < |k.pushes| :: k'.pushes[..|k.pushes|][j] == k'.pushes[j];
  }

  lemma NextInStep<T>(cfg: Config, r: Ring<T>, step: Step<T>)
    requires cfg.blockingOnly && Good(cfg, r) && AllInStep(r) && Enabled(cfg, r, step)
    ensures AllInStep(Next(cfg, r, step))
  {
    var r' := Next(cfg, r, step);
    forall i | 0 <= i < |r'.consumers| && r'.consumers[i].policy.Lossless? ensures InStep(r'.core, i, r'.consumers[i]) {
      if OfProducer(step) {
        ProducerInStep(cfg, r, step, i);
      } else if i == step.c {
        ReaderInStep(r.core, i, r.consumers[i], step);
      }
    }
  }

  lemma {:induction false} ExecutionInStep<T>(cfg: Config, trace: seq<Ring<T>>, steps: seq<Step<T>>, n: nat)
    requires cfg.blockingOnly && Execution(cfg, trace, steps) && n < |trace|
    ensures AllInStep(trace[n])
  {
    if n > 0 {
      ExecutionInStep(cfg, trace, steps, n - 1);
      ExecutionGood(cfg, trace, steps, n - 1);
      NextInStep(cfg, trace[n - 1], steps[n - 1]);
    }
  }

  /** The items a cursor was delivered, without their numbers. */
  function Values<T>(ds: seq<Delivery<T>>): seq<T> {
    seq(|ds|, i requires 0 <= i < |ds| => ds[i].value)
  }

  /** With push_blocking only, in every state of every interleaving a Lossless cursor has received exactly the
      items published up to its position, has dropped nothing, and is not about to report a stale slot. */
  lemma LosslessDelivery<T>(cfg: Config, trace: seq<Ring<T>>, steps: seq<Step<T>>, n: nat, i: nat)
    requires cfg.blockingOnly && Execution(cfg, trace, steps) && n < |trace|
    requires i < |trace[n].consumers| && trace[n].consumers[i].policy.Lossless?
    ensures var k, c := trace[n].core, trace[n].consumers[i];
            && c.position <= k.published <= |k.pushes|
            && Values(c.delivered) == k.pushes[..c.position]
            && c.dropped == 0 && !c.pc.Reporting?
  {
    ExecutionInStep(cfg, trace, steps, n);
    ExecutionGood(cfg, trace, steps, n);
    assert InStep(trace[n].core, i, trace[n].consumers[i]);
  }

  /** Between its first check and its commit a Lossless cursor's slot holds its item in every state. */
  lemma LosslessSlotUntouched<T>(cfg: Config, trace: seq<Ring<T>>, steps: seq<Step<T>>, n: nat, i: nat)
    requires cfg.blockingOnly && Execution(cfg, trace, steps) && n < |trace|
    requires i < |trace[n].consumers| && trace[n].consumers[i].policy.Lossless?
    requires var pc := trace[n].consumers[i].pc; pc.Copying? || pc.Rechecking? || pc.Committing?
    ensures var k, c := trace[n].core, trace[n].consumers[i];
            && c.pc.want < |k.pushes| && |k.slots| > 0
            && SlotOf(k, c.pc.want) == Slot(c.pc.want, k.pushes[c.pc.want])
  {
    ExecutionInStep(cfg, trace, steps, n);
    ExecutionGood(cfg, trace, steps, n);
    assert InStep(trace[n].core, i, trace[n].consumers[i]);
    SlotStays(trace[n].core, i, trace[n].consumers[i]);
  }

  // ---- the gate ----

  /** A read by cursor `c` alone, from start to finish, on a ring nobody else touches. */
  function SoloRead<T>(k: Core<T>, c: Consumer<T>): Consumer<T>
    requires |k.slots| > 0 && c.pc.Ready?
  {
    var c0 := ConsumerStep(k, c, Load(0));
    var c1 := if c0.pc.Jumping? then ConsumerStep(k, c0, Jump(0)) else c0;
    if !c1.pc.Checking? then c1 else
    var c2 := ConsumerStep(k, c1, Check(0));
    if c2.pc.Reporting? then ConsumerStep(k, c2, Report(0)) else
    var c3 := ConsumerStep(k, c2, Copy(0));
    ConsumerStep(k, ConsumerStep(k, c3, Recheck(0)), Commit(0))
  }

  /** Whenever the gate spins on a cursor, that cursor is exactly one capacity behind (so the subtraction does
      not wrap), and its next read succeeds and unblocks the gate. */
  lemma GateProgress<T>(cfg: Config, trace: seq<Ring<T>>, steps: seq<Step<T>>, n: nat)
    requires cfg.blockingOnly && Execution(cfg, trace, steps) && n < |trace|
    requires trace[n].core.producer.Gating? && trace[n].core.producer.i < |trace[n].consumers|
    requires Blocks(trace[n].core, trace[n].consumers[trace[n].core.producer.i])
    ensures var k, c := trace[n].core, trace[n].consumers[trace[n].core.producer.i];
            && k.next == c.position + |k.slots| && |k.slots| > 0
            && (c.pc.Ready? ==>
                  var c' := SoloRead(k, c);
                  && c.position < |k.pushes|
                  && c'.delivered == c.delivered + [Delivery(c.position, k.pushes[c.position])]
                  && c'.position == c.position + 1 && !Blocks(k, c'))
  {
    ExecutionInStep(cfg, trace, steps, n);
    ExecutionGood(cfg, trace, steps, n);
    var k, i := trace[n].core, trace[n].core.producer.i;
    assert InStep(k, i, trace[n].consumers[i]);
    SlotStays(k, i, trace[n].consumers[i]);
  }

  /** Where a read that is not interrupted starts: at the cursor, or one capacity behind the producer. */
  function CatchUp<T>(k: Core<T>, c: Consumer<T>): nat {
    if c.policy.Lossy? && k.published > c.position + |k.slots| then k.published - |k.slots| else c.position
  }

  /** A Lossless cursor the producer has overtaken by more than a lap, as only overwriting pushes can do. */
  predicate Lapped<T>(k: Core<T>, c: Consumer<T>) {
    c.policy.Lossless? && k.published > c.position + |k.slots|
  }

  /** A read with nobody else running is Empty exactly when nothing is left, drops one item exactly when a Lossless
      cursor was lapped, and otherwise returns the item it starts at. */
  lemma SoloReadMeans<T>(k: Core<T>, c: Consumer<T>)
    requires GoodCore(k) && k.producer.Idle? && c.pc.Ready?
    ensures var c', start := SoloRead(k, c), CatchUp(k, c);
            if c.position >= k.published then c' == c
            else if Lapped(k, c) then c' == c.(position := c.position + 1, dropped := c.dropped + 1)
            else
              && start < |k.pushes|
              && c' == c.(position := start + 1, dropped := c.dropped + (start - c.position),
                          delivered := c.delivered + [Delivery(start, k.pushes[start])])
  {
    if c.position < k.published {
      var start := CatchUp(k, c);
      StaleStamp(k, start);
      assert start + |k.slots| >= k.published ==> ValueRight(k, start);
    }
  }

  // ---- Lossy cursors ----

  /** Whenever a cursor of either policy is between two reads, its position is what it got plus what it counted
      as dropped; what it got has strictly increasing numbers; every Ok read returned its item or the one being
      written over it; and every item it passed without delivery was republished over. */
  lemma ReadAccounting<T>(cfg: Config, trace: seq<Ring<T>>, steps: seq<Step<T>>, n: nat, i: nat)
    requires Execution(cfg, trace, steps) && n < |trace| && i < |trace[n].consumers|
    requires trace[n].consumers[i].pc.Ready?
    ensures var k, c := trace[n].core, trace[n].consumers[i];
            && c.position == |c.delivered| + c.dropped
            && (forall a, b | 0 <= a < b < |c.delivered| :: c.delivered[a].sequence < c.delivered[b].sequence)
            && (forall a | 0 <= a < |c.delivered| :: Plausible(cfg, k, c.delivered[a].sequence, c.delivered[a].value))
            && (forall s: nat | s < c.position && !DeliveredIn(c, s) :: Republished(k, s))
  {
    ExecutionGood(cfg, trace, steps, n);
    assert GoodConsumer(cfg, trace[n].core, trace[n].consumers[i]);
  }

  /** When pushes are not interrupted by readers, an Ok read always returns exactly its item. */
  lemma WholePushExact<T>(cfg: Config, trace: seq<Ring<T>>, steps: seq<Step<T>>, n: nat, i: nat, a: nat)
    requires cfg.wholePush && Execution(cfg, trace, steps) && n < |trace| && i < |trace[n].consumers|
    requires a < |trace[n].consumers[i].delivered|
    ensures var d := trace[n].consumers[i].delivered[a];
            d.sequence < |trace[n].core.pushes| && d.value == trace[n].core.pushes[d.sequence]
  {
    ExecutionGood(cfg, trace, steps, n);
    assert GoodConsumer(cfg, trace[n].core, trace[n].consumers[i]);
  }

  // ---- a torn read ----

  const OVERWRITING := Config(false, false)

  /** The state before: one slot, one Lossy cursor. */
  const FRESH := Ring(Core([Slot(0, 0)], 0, 0, Idle, []), [Consumer(Lossy, 0, 0, Ready, [])])

  /** Push 7, then two reads around a push of 8: the first read finds slot 0 stamped for item 0, the push
      overwrites the value but has not stamped the slot yet, the reader copies and still finds the old stamp. */
  const TORN_STEPS: seq<Step<int>> :=
    [Begin(7, false), Write, Stamp, Publish, Load(0), Check(0), Begin(8, false), Write, Copy(0), Recheck(0), Commit(0),
     Stamp, Publish, Load(0), Check(0), Copy(0), Recheck(0), Commit(0)]

  const TORN_TRACE: seq<Ring<int>> :=
    var c := Consumer(Lossy, 0, 0, Ready, []);
    var d := Consumer(Lossy, 1, 0, Ready, [Delivery(0, 8)]);
    var k := Core([Slot(0, 7)], 1, 1, Idle, [7]);
    var m := Core([Slot(0, 8)], 1, 1, Stamping, [7, 8]);
    var p := Core([Slot(1, 8)], 2, 2, Idle, [7, 8]);
    [FRESH,
     Ring(Core([Slot(0, 0)], 0, 0, Writing, [7]), [c]),
     Ring(Core([Slot(0, 7)], 0, 0, Stamping, [7]), [c]),
     Ring(Core([Slot(0, 7)], 0, 0, Publishing, [7]), [c]),
     Ring(k, [c]),
     Ring(k, [c.(pc := Checking(0))]),
     Ring(k, [c.(pc := Copying(0))]),
     Ring(Core([Slot(0, 7)], 1, 1, Writing, [7, 8]), [c.(pc := Copying(0))]),
     Ring(m, [c.(pc := Copying(0))]),
     Ring(m, [c.(pc := Rechecking(0, 8))]),
     Ring(m, [c.(pc := Committing(0, 8))]),
     Ring(m, [d]),
     Ring(Core([Slot(1, 8)], 1, 1, Publishing, [7, 8]), [d]),
     Ring(p, [d]),
     Ring(p, [d.(pc := Checking(1))]),
     Ring(p, [d.(pc := Copying(1))]),
     Ring(p, [d.(pc := Rechecking(1, 8))]),
     Ring(p, [d.(pc := Committing(1, 8))]),
     Ring(p, [Consumer(Lossy, 2, 0, Ready, [Delivery(0, 8), Delivery(1, 8)])])]

  lemma OneElement<T>(a: T, b: T)
    ensures [a][0 := b] == [b]
  {
  }

  lemma TornProducerStep(i: nat)
    requires i < |TORN_STEPS| && OfProducer(TORN_STEPS[i])
    ensures Enabled(OVERWRITING, TORN_TRACE[i], TORN_STEPS[i])
    ensures TORN_TRACE[i + 1] == Next(OVERWRITING, TORN_TRACE[i], TORN_STEPS[i])
  {
    OneElement(TORN_TRACE[i].core.slots[0], TORN_TRACE[i + 1].core.slots[0]);
    assert [] + [7] == [7] && [7] + [8] == [7, 8];
  }

  lemma TornReaderStep(i: nat)
    requires i < |TORN_STEPS| && !OfProducer(TORN_STEPS[i])
    ensures Enabled(OVERWRITING, TORN_TRACE[i], TORN_STEPS[i])
    ensures TORN_TRACE[i + 1] == Next(OVERWRITING, TORN_TRACE[i], TORN_STEPS[i])
  {
    OneElement(TORN_TRACE[i].consumers[0], TORN_TRACE[i + 1].consumers[0]);
    assert [] + [Delivery(0, 8)] == [Delivery(0, 8)];
    assert [Delivery(0, 8)] + [Delivery(1, 8)] == [Delivery(0, 8), Delivery(1, 8)];
  }

  /** The re-check does not catch a write in progress: item 7 is never delivered and never counted as dropped,
      while item 8 is delivered twice. */
  lemma TornRead()
    ensures Execution(OVERWRITING, TORN_TRACE, TORN_STEPS)
    ensures var r := TORN_TRACE[18];
            && r.core.pushes == [7, 8] && r.core.published == 2
            && r.consumers[0].position == 2 && r.consumers[0].dropped == 0
            && Values(r.consumers[0].delivered) == [8, 8]
  {
    forall i | 0 <= i < |TORN_STEPS|
      ensures |TORN_TRACE[i].core.slots| > 0 && Enabled(OVERWRITING, TORN_TRACE[i], TORN_STEPS[i])
      ensures TORN_TRACE[i + 1] == Next(OVERWRITING, TORN_TRACE[i], TORN_STEPS[i])
    {
      if OfProducer(TORN_STEPS[i]) { TornProducerStep(i); } else { TornReaderStep(i); }
    }
  }
}
