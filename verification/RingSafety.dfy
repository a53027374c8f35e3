/** What holds in every interleaving of the ring buffer. */
module RingSafety {
  import opened RingProtocol

  // ---- slot arithmetic ----

  /** Sequence numbers less than a lap apart use different slots. */
  lemma DifferentSlots(a: nat, b: nat, n: nat)
    requires 0 < n && a < b < a + n
    ensures a % n != b % n
  {
    var qa, qb := a / n, b / n;
    assert a == n * qa + a % n && b == n * qb + b % n;
    assert b - a == n * (qb - qa) + (b % n - a % n);
    MulBound(n, qb - qa);
  }

  lemma MulBound(n: int, d: int)
    requires 0 < n
    ensures d >= 1 ==> n * d >= n
    ensures d <= 0 ==> n * d <= 0
    ensures d <= -1 ==> n * d <= -n
  {
  }

  /** A lap later is the same slot. */
  lemma SameSlot(a: nat, n: nat)
    requires 0 < n
    ensures (a + n) % n == a % n
  {
    var q := a / n;
    assert a == n * q + a % n;
    assert a + n == n * (q + 1) + a % n;
    ModOf(a + n, n, q + 1, a % n);
  }

  lemma ModOf(x: nat, n: nat, q: nat, r: nat)
    requires 0 < n && x == n * q + r && r < n
    ensures x % n == r
  {
    var q', r' := x / n, x % n;
    assert x == n * q' + r';
    var d: int := q - q';
    assert n * d == n * q - n * q';
    MulBound(n, d);
  }

  /** Every slot is used by one of any `n` consecutive sequence numbers. */
  lemma {:induction false} InLap(a: nat, n: nat, hi: nat) returns (s: nat)
    requires 0 < n && a + n <= hi
    ensures hi - n <= s < hi && s % n == a % n
    decreases hi - a
  {
    if a + n < hi && a + n + n <= hi {
      SameSlot(a, n);
      s := InLap(a + n, n, hi);
    } else {
      SameSlot(a, n);
      s := a + n;
      if s == hi { s := a; }
    }
  }

  // ---- the invariant ----

  /** How many slots have been stamped so far. */
  function Stamped<T>(k: Core<T>): nat {
    k.published + if k.producer.Publishing? then 1 else 0
  }

  /** How many slot values have been written so far. */
  function Written<T>(k: Core<T>): nat {
    k.published + if MidPush(k.producer) then 1 else 0
  }

  predicate StampRight<T>(k: Core<T>, s: nat)
    requires |k.slots| > 0
  {
    SlotOf(k, s).stamp == s
  }

  ghost predicate ValueRight<T>(k: Core<T>, s: nat)
    requires |k.slots| > 0
  {
    s < |k.pushes| && SlotOf(k, s).value == k.pushes[s]
  }

  /** The shared memory: the last lap of stamped slots carry their numbers, the last lap of written slots their
      values. */
  ghost predicate GoodCore<T>(k: Core<T>) {
    && |k.slots| > 0
    && k.next == k.published
    && |k.pushes| == k.published + (if k.producer.Idle? then 0 else 1)
    && (forall s: nat | s < Stamped(k) <= s + |k.slots| :: StampRight(k, s))
    && (forall s: nat | s < Written(k) <= s + |k.slots| :: ValueRight(k, s))
  }

  /** The sequence number a reader is working on. */
  function Want<T>(c: Consumer<T>): nat {
    if c.pc.Ready? then c.position else c.pc.want
  }

  /** `out` is item `want`, or the one item that was overwriting it. */
  ghost predicate Plausible<T>(cfg: Config, k: Core<T>, want: nat, out: T) {
    && want < |k.pushes|
    && (out == k.pushes[want] ||
        (!cfg.wholePush && want + |k.slots| < |k.pushes| && out == k.pushes[want + |k.slots|]))
  }

  /** The slot of item `s` has been stamped again since. */
  predicate Republished<T>(k: Core<T>, s: nat) {
    s + |k.slots| < Stamped(k)
  }

  predicate DeliveredIn<T>(c: Consumer<T>, s: nat) {
    exists i :: 0 <= i < |c.delivered| && c.delivered[i].sequence == s
  }

  ghost predicate GoodPc<T>(cfg: Config, k: Core<T>, c: Consumer<T>) {
    match c.pc
    case Ready => true
    case Jumping(want, target) =>
      c.policy.Lossy? && want == c.position && want < target && target + |k.slots| <= k.published
    case Checking(want) => want < k.published
    case Copying(want) => want < k.published
    case Rechecking(want, out) => want < k.published && (Republished(k, want) || Plausible(cfg, k, want, out))
    case Committing(want, out) => want < k.published && Plausible(cfg, k, want, out)
    case Reporting(want) => want < k.published && Republished(k, want)
  }

  /** A cursor's accounts: what it got, in increasing order; every other item it passed was really overwritten. */
  ghost predicate GoodHistory<T>(cfg: Config, k: Core<T>, c: Consumer<T>) {
    && c.position <= Want(c) && c.position <= k.published
    && Want(c) == |c.delivered| + c.dropped
    && (forall i | 0 <= i < |c.delivered| ::
          c.delivered[i].sequence < Want(c) && Plausible(cfg, k, c.delivered[i].sequence, c.delivered[i].value))
    && (forall i, j | 0 <= i < j < |c.delivered| :: c.delivered[i].sequence < c.delivered[j].sequence)
    && (forall s: nat | s < Want(c) && !DeliveredIn(c, s) :: Republished(k, s))
  }

  ghost predicate GoodConsumer<T>(cfg: Config, k: Core<T>, c: Consumer<T>) {
    GoodPc(cfg, k, c) && GoodHistory(cfg, k, c)
  }

  // ---- a slot that still carries its stamp has not been passed by a lap ----

  lemma StaleStamp<T>(k: Core<T>, want: nat)
    requires GoodCore(k) && want < k.published
    ensures SlotOf(k, want).stamp == want <==> !Republished(k, want)
  {
    if Republished(k, want) {
      var s := InLap(want, |k.slots|, Stamped(k));
      assert StampRight(k, s);
    } else {
      assert StampRight(k, want);
    }
  }

  /** What a reader copies is the item or the one overwriting it, unless the slot was stamped again already. */
  lemma CopiedValue<T>(cfg: Config, k: Core<T>, want: nat)
    requires GoodCore(k) && want < k.published && (cfg.wholePush ==> !MidPush(k.producer))
    ensures Republished(k, want) || Plausible(cfg, k, want, SlotOf(k, want).value)
    ensures !Republished(k, want) ==>
              SlotOf(k, want).value ==
              if k.producer.Stamping? && want + |k.slots| == k.published then k.pushes[k.published] else k.pushes[want]
  {
    if !Republished(k, want) {
      if want + |k.slots| < Written(k) {
        assert ValueRight(k, want + |k.slots|);
        SameSlot(want, |k.slots|);
      } else {
        assert ValueRight(k, want);
      }
    }
  }

  // ---- reader steps ----

  lemma ReaderStepPc<T>(cfg: Config, k: Core<T>, c: Consumer<T>, step: Step<T>)
    requires GoodCore(k) && GoodConsumer(cfg, k, c) && ConsumerEnabled(k, c, step)
    requires cfg.wholePush ==> !MidPush(k.producer)
    ensures GoodPc(cfg, k, ConsumerStep(k, c, step))
  {
    if c.pc.Checking? || c.pc.Copying? || c.pc.Rechecking? {
      StaleStamp(k, c.pc.want);
      CopiedValue(cfg, k, c.pc.want);
    }
  }

  lemma ReaderStepHistory<T>(cfg: Config, k: Core<T>, c: Consumer<T>, step: Step<T>)
    requires GoodCore(k) && GoodConsumer(cfg, k, c) && ConsumerEnabled(k, c, step)
    ensures GoodHistory(cfg, k, ConsumerStep(k, c, step))
  {
    var c' := ConsumerStep(k, c, step);
    forall s: nat | s < Want(c') && !DeliveredIn(c', s) ensures Republished(k, s) {
      if step.Commit? {
        assert c'.delivered[|c.delivered|].sequence == c.pc.want;
        assert forall i | 0 <= i < |c.delivered| :: c'.delivered[i] == c.delivered[i];
        assert DeliveredIn(c, s) ==> DeliveredIn(c', s);
      } else {
        assert c'.delivered == c.delivered;
        assert DeliveredIn(c', s) <==> DeliveredIn(c, s);
      }
    }
  }

  // ---- producer steps, seen by readers ----

  /** The shared memory only moves forward. */
  ghost predicate Advances<T>(k: Core<T>, k': Core<T>) {
    && |k.slots| == |k'.slots| && k.published <= k'.published && Stamped(k) <= Stamped(k')
    && |k.pushes| <= |k'.pushes| && k'.pushes[..|k.pushes|] == k.pushes
  }

  lemma PlausibleKept<T>(cfg: Config, k: Core<T>, k': Core<T>, want: nat, out: T)
    requires Advances(k, k') && Plausible(cfg, k, want, out)
    ensures Plausible(cfg, k', want, out)
  {
    assert forall i | 0 <= i < |k.pushes| :: k'.pushes[..|k.pushes|][i] == k'.pushes[i];
  }

  lemma ReaderUnmoved<T>(cfg: Config, k: Core<T>, k': Core<T>, c: Consumer<T>)
    requires Advances(k, k') && GoodConsumer(cfg, k, c)
    ensures GoodConsumer(cfg, k', c)
  {
    if c.pc.Rechecking? && !Republished(k, c.pc.want) {
      PlausibleKept(cfg, k, k', c.pc.want, c.pc.out);
    }
    if c.pc.Committing? {
      PlausibleKept(cfg, k, k', c.pc.want, c.pc.out);
    }
    forall i | 0 <= i < |c.delivered|
      ensures Plausible(cfg, k', c.delivered[i].sequence, c.delivered[i].value)
    {
      PlausibleKept(cfg, k, k', c.delivered[i].sequence, c.delivered[i].value);
    }
  }

  lemma WriteKeeps<T>(k: Core<T>, k': Core<T>)
    requires GoodCore(k) && k.producer.Writing?
    requires var j := k.next % |k.slots|;
             k' == k.(slots := k.slots[j := k.slots[j].(value := k.pushes[k.published])], producer := Stamping)
    ensures GoodCore(k')
  {
    var n := |k.slots|;
    forall s: nat | s < Stamped(k') <= s + n ensures StampRight(k', s) {
      assert StampRight(k, s);
    }
    forall s: nat | s < Written(k') <= s + n ensures ValueRight(k', s) {
      if s < k.published {
        assert ValueRight(k, s);
        DifferentSlots(s, k.published, n);
      }
    }
  }

  lemma StampKeeps<T>(k: Core<T>, k': Core<T>)
    requires GoodCore(k) && k.producer.Stamping?
    requires var j := k.next % |k.slots|;
             k' == k.(slots := k.slots[j := k.slots[j].(stamp := k.next)], producer := Publishing)
    ensures GoodCore(k')
  {
    var n := |k.slots|;
    forall s: nat | s < Stamped(k') <= s + n ensures StampRight(k', s) {
      if s < k.published {
        assert StampRight(k, s);
        DifferentSlots(s, k.published, n);
      }
    }
    forall s: nat | s < Written(k') <= s + n ensures ValueRight(k', s) {
      assert ValueRight(k, s);
    }
  }

  lemma QuietKeeps<T>(k: Core<T>, k': Core<T>)
    requires GoodCore(k) && k'.slots == k.slots && k'.next == k'.published
    requires Stamped(k') == Stamped(k) && Written(k') == Written(k)
    requires |k'.pushes| == k'.published + (if k'.producer.Idle? then 0 else 1)
    requires |k.pushes| <= |k'.pushes| && k'.pushes[..|k.pushes|] == k.pushes
    ensures GoodCore(k')
  {
    assert forall i | 0 <= i < |k.pushes| :: k'.pushes[..|k.pushes|][i] == k'.pushes[i];
    forall s: nat | s < Stamped(k') <= s + |k.slots| ensures StampRight(k', s) {
      assert StampRight(k, s);
    }
    forall s: nat | s < Written(k') <= s + |k.slots| ensures ValueRight(k', s) {
      assert ValueRight(k, s);
    }
  }

  lemma ProducerStepGood<T>(cfg: Config, r: Ring<T>, step: Step<T>)
    requires GoodCore(r.core) && ProducerEnabled(cfg, r.core, step)
    ensures GoodCore(ProducerStep(cfg, r, step)) && Advances(r.core, ProducerStep(cfg, r, step))
  {
    var k, k' := r.core, ProducerStep(cfg, r, step);
    if step.Write? {
      WriteKeeps(k, k');
    } else if step.Stamp? {
      StampKeeps(k, k');
    } else {
      QuietKeeps(k, k');
    }
  }

  // ---- every interleaving ----

  ghost predicate Good<T>(cfg: Config, r: Ring<T>) {
    GoodCore(r.core) && forall c | 0 <= c < |r.consumers| :: GoodConsumer(cfg, r.core, r.consumers[c])
  }

  lemma InitialGood<T>(cfg: Config, r: Ring<T>)
    requires Initial(r)
    ensures Good(cfg, r)
  {
  }

  lemma NextGood<T>(cfg: Config, r: Ring<T>, step: Step<T>)
    requires Good(cfg, r) && Enabled(cfg, r, step)
    ensures Good(cfg, Next(cfg, r, step))
  {
    var r' := Next(cfg, r, step);
    if OfProducer(step) {
      ProducerStepGood(cfg, r, step);
      forall c | 0 <= c < |r.consumers| ensures GoodConsumer(cfg, r'.core, r'.consumers[c]) {
        ReaderUnmoved(cfg, r.core, r'.core, r.consumers[c]);
      }
    } else {
      ReaderStepPc(cfg, r.core, r.consumers[step.c], step);
      ReaderStepHistory(cfg, r.core, r.consumers[step.c], step);
    }
  }

  lemma {:induction false} ExecutionGood<T>(cfg: Config, trace: seq<Ring<T>>, steps: seq<Step<T>>, i: nat)
    requires Execution(cfg, trace, steps) && i < |trace|
    ensures Good(cfg, trace[i])
  {
    if i == 0 {
      InitialGood(cfg, trace[0]);
    } else {
      ExecutionGood(cfg, trace, steps, i - 1);
      NextGood(cfg, trace[i - 1], steps[i - 1]);
    }
  }
}
