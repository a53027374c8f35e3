/** The ring buffer as threads interleave on it: one producer, any number of Lossless and Lossy cursors, one
    sequentially consistent access to shared memory per step. Writing a slot's value and storing its
    sequence number are separate steps. */
module RingProtocol {

  datatype Policy = Lossless | Lossy

  datatype Slot<T> = Slot(stamp: nat, value: T)

  /** Where the producer thread is: between pushes, scanning the cursors, about to write the value, about to
      stamp the slot, about to raise the published count. */
  datatype ProducerPc = Idle | Gating(i: nat) | Writing | Stamping | Publishing

  /** Where a reader is within try_read. */
  datatype ConsumerPc<T> =
    | Ready
    | Jumping(want: nat, target: nat)
    | Checking(want: nat)
    | Copying(want: nat)
    | Rechecking(want: nat, out: T)
    | Committing(want: nat, out: T)
    | Reporting(want: nat)

  datatype Delivery<T> = Delivery(sequence: nat, value: T)

  /** A cursor; `delivered` records every Ok read. */
  datatype Consumer<T> = Consumer(policy: Policy, position: nat, dropped: nat, pc: ConsumerPc<T>,
                                  delivered: seq<Delivery<T>>)

  /** What producer and readers share; `pushes` records every value handed to a push, the last possibly in flight. */
  datatype Core<T> = Core(slots: seq<Slot<T>>, next: nat, published: nat, producer: ProducerPc, pushes: seq<T>)

  datatype Ring<T> = Ring(core: Core<T>, consumers: seq<Consumer<T>>)

  /** `blockingOnly`: the producer only uses push_blocking. `wholePush`: no reader runs between the write of a
      slot's value and the raise of the published count. */
  datatype Config = Config(blockingOnly: bool, wholePush: bool)

  datatype Step<T> =
    | Begin(value: T, blocking: bool)
    | Gate | Write | Stamp | Publish
    | Load(c: nat) | Jump(c: nat) | Check(c: nat) | Copy(c: nat) | Recheck(c: nat) | Commit(c: nat) | Report(c: nat)

  function SlotOf<T>(k: Core<T>, s: nat): Slot<T>
    requires |k.slots| > 0
  {
    k.slots[s % |k.slots|]
  }

  // ---- the steps ----

  predicate ProducerEnabled<T>(cfg: Config, k: Core<T>, step: Step<T>) {
    match step
    case Begin(_, blocking) => k.producer.Idle? && (cfg.blockingOnly ==> blocking)
    case Gate => k.producer.Gating?
    case Write => k.producer.Writing?
    case Stamp => k.producer.Stamping?
    case Publish => k.producer.Publishing?
    case _ => false
  }

  /** The gate waits for this cursor. */
  predicate Blocks<T>(k: Core<T>, c: Consumer<T>) {
    c.policy.Lossless? && k.next - c.position >= |k.slots|
  }

  function ProducerStep<T>(cfg: Config, r: Ring<T>, step: Step<T>): Core<T>
    requires |r.core.slots| > 0 && ProducerEnabled(cfg, r.core, step)
  {
    var k := r.core;
    match step
    case Begin(value, blocking) => k.(pushes := k.pushes + [value], producer := if blocking then Gating(0) else Writing)
    case Gate =>
      var i := k.producer.i;
      if i >= |r.consumers| then k.(producer := Writing)
      else if Blocks(k, r.consumers[i]) then k
      else k.(producer := Gating(i + 1))
    case Write =>
      var j := k.next % |k.slots|;
      var value := if k.pushes == [] then k.slots[j].value else k.pushes[|k.pushes| - 1];
      k.(slots := k.slots[j := k.slots[j].(value := value)], producer := Stamping)
    case Stamp =>
      var j := k.next % |k.slots|;
      k.(slots := k.slots[j := k.slots[j].(stamp := k.next)], producer := Publishing)
    case Publish => k.(next := k.next + 1, published := k.next + 1, producer := Idle)
  }

  predicate ConsumerEnabled<T>(k: Core<T>, c: Consumer<T>, step: Step<T>) {
    match step
    case Load(_) => c.pc.Ready?
    case Jump(_) => c.pc.Jumping?
    case Check(_) => c.pc.Checking?
    case Copy(_) => c.pc.Copying?
    case Recheck(_) => c.pc.Rechecking?
    case Commit(_) => c.pc.Committing?
    case Report(_) => c.pc.Reporting?
    case _ => false
  }

  function ConsumerStep<T>(k: Core<T>, c: Consumer<T>, step: Step<T>): Consumer<T>
    requires |k.slots| > 0 && ConsumerEnabled(k, c, step)
  {
    match step
    case Load(_) =>
      if c.position >= k.published then c
      else if c.policy.Lossy? && k.published - c.position > |k.slots|
      then c.(pc := Jumping(c.position, k.published - |k.slots|))
      else c.(pc := Checking(c.position))
    case Jump(_) =>
      c.(dropped := c.dropped + if c.pc.target >= c.pc.want then c.pc.target - c.pc.want else 0,
         pc := Checking(c.pc.target))
    case Check(_) =>
      c.(pc := if SlotOf(k, c.pc.want).stamp == c.pc.want then Copying(c.pc.want) else Reporting(c.pc.want))
    case Copy(_) => c.(pc := Rechecking(c.pc.want, SlotOf(k, c.pc.want).value))
    case Recheck(_) =>
      c.(pc := if SlotOf(k, c.pc.want).stamp == c.pc.want
               then Committing(c.pc.want, c.pc.out) else Reporting(c.pc.want))
    case Commit(_) =>
      c.(position := c.pc.want + 1, pc := Ready, delivered := c.delivered + [Delivery(c.pc.want, c.pc.out)])
    case Report(_) => c.(dropped := c.dropped + 1, position := c.pc.want + 1, pc := Ready)
  }

  predicate MidPush(p: ProducerPc) {
    p.Stamping? || p.Publishing?
  }

  predicate OfProducer<T>(step: Step<T>) {
    step.Begin? || step.Gate? || step.Write? || step.Stamp? || step.Publish?
  }

  predicate Enabled<T>(cfg: Config, r: Ring<T>, step: Step<T>) {
    if OfProducer(step) then ProducerEnabled(cfg, r.core, step)
    else
      && step.c < |r.consumers| && ConsumerEnabled(r.core, r.consumers[step.c], step)
      && (cfg.wholePush ==> !MidPush(r.core.producer))
  }

  function Next<T>(cfg: Config, r: Ring<T>, step: Step<T>): Ring<T>
    requires |r.core.slots| > 0 && Enabled(cfg, r, step)
  {
    if OfProducer(step) then r.(core := ProducerStep(cfg, r, step))
    else r.(consumers := r.consumers[step.c := ConsumerStep(r.core, r.consumers[step.c], step)])
  }

  /** A fresh ring: default stamps, nothing published, every cursor at the start. */
  ghost predicate Initial<T>(r: Ring<T>) {
    && |r.core.slots| > 0 && (forall j | 0 <= j < |r.core.slots| :: r.core.slots[j].stamp == 0)
    && r.core.next == 0 && r.core.published == 0 && r.core.producer == Idle && r.core.pushes == []
    && (forall c | 0 <= c < |r.consumers| ::
          r.consumers[c] == Consumer(r.consumers[c].policy, 0, 0, Ready, []))
  }

  /** `trace` is an execution: each state follows from the one before by the step taken. */
  ghost predicate Execution<T>(cfg: Config, trace: seq<Ring<T>>, steps: seq<Step<T>>) {
    && |trace| == |steps| + 1 && Initial(trace[0])
    && forall i | 0 <= i < |steps| ::
         |trace[i].core.slots| > 0 && Enabled(cfg, trace[i], steps[i]) && trace[i + 1] == Next(cfg, trace[i], steps[i])
  }

  /** A new ring with `n` slots and one cursor per policy. */
  function NewRing<T>(n: nat, default: T, policies: seq<Policy>): Ring<T> {
    Ring(Core(seq(n, _ => Slot(0, default)), 0, 0, Idle, []),
         seq(|policies|, c requires 0 <= c < |policies| => Consumer(policies[c], 0, 0, Ready, [])))
  }

  lemma ExecutionStarts<T>(cfg: Config, n: nat, default: T, policies: seq<Policy>)
    requires n > 0
    ensures Execution(cfg, [NewRing(n, default, policies)], [])
  {
  }

  /** An execution can go on with any step that is enabled. */
  lemma ExecutionGrows<T>(cfg: Config, trace: seq<Ring<T>>, steps: seq<Step<T>>, step: Step<T>)
    requires Execution(cfg, trace, steps) && |trace[|steps|].core.slots| > 0 && Enabled(cfg, trace[|steps|], step)
    ensures Execution(cfg, trace + [Next(cfg, trace[|steps|], step)], steps + [step])
  {
    var trace', steps' := trace + [Next(cfg, trace[|steps|], step)], steps + [step];
    forall i | 0 <= i < |steps'|
      ensures |trace'[i].core.slots| > 0 && Enabled(cfg, trace'[i], steps'[i])
      ensures trace'[i + 1] == Next(cfg, trace'[i], steps'[i])
    {
      if i < |steps| {
        assert trace'[i] == trace[i] && trace'[i + 1] == trace[i + 1] && steps'[i] == steps[i];
      }
    }
  }
}
