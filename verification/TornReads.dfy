/** Exactly when an Ok read returns the wrong item. */
module TornReads {
  import opened RingProtocol
  import opened RingSafety

  /** Step `k` is cursor `c`'s last copy before step `m`. */
  ghost predicate LastCopy<T>(steps: seq<Step<T>>, c: nat, k: nat, m: nat) {
    && k < m <= |steps| && steps[k].Copy? && steps[k].c == c
    && forall j | k < j < m :: !(steps[j].Copy? && steps[j].c == c)
  }

  /** A reader past its copy of `out` still carries it, and if the re-check has passed, the slot was not stamped
      again before the copy in state `k`. */
  ghost predicate Carries<T>(k: Core<T>, want: nat, out: T, pc: ConsumerPc<T>) {
    match pc
    case Rechecking(w, o) => w == want && o == out
    case Committing(w, o) => w == want && o == out && !Republished(k, want)
    case _ => true
  }

  lemma AdvancesFurther<T>(a: Core<T>, b: Core<T>, c: Core<T>)
    requires Advances(a, b) && Advances(b, c)
    ensures Advances(a, c)
  {
    assert c.pushes[..|a.pushes|] == b.pushes[..|a.pushes|] by {
      assert forall i | 0 <= i < |b.pushes| :: c.pushes[i] == c.pushes[..|b.pushes|][i];
    }
  }

  /** What is known of the reader `c` in state `r` after it copied `out` from slot `want` in state `k`. */
  ghost predicate SinceCopy<T>(k: Core<T>, want: nat, out: T, r: Ring<T>, c: nat) {
    c < |r.consumers| && Advances(k, r.core) && Carries(k, want, out, r.consumers[c].pc)
  }

  lemma CopyCarries<T>(cfg: Config, r: Ring<T>, step: Step<T>)
    requires GoodCore(r.core) && step.Copy? && Enabled(cfg, r, step)
    ensures var want := r.consumers[step.c].pc.want;
            SinceCopy(r.core, want, SlotOf(r.core, want).value, Next(cfg, r, step), step.c)
  {
  }

  lemma StepCarries<T>(cfg: Config, r: Ring<T>, step: Step<T>, c: nat, k: Core<T>, want: nat, out: T)
    requires GoodCore(r.core) && Enabled(cfg, r, step) && !(step.Copy? && step.c == c)
    requires want < k.published && SinceCopy(k, want, out, r, c)
    ensures SinceCopy(k, want, out, Next(cfg, r, step), c)
  {
    if OfProducer(step) {
      ProducerStepGood(cfg, r, step);
      AdvancesFurther(k, r.core, Next(cfg, r, step).core);
    }
    if step.Recheck? && step.c == c {
      StaleStamp(r.core, want);
    }
  }

  /** Cursors do not come or go. */
  lemma {:induction false} SameCursors<T>(cfg: Config, trace: seq<Ring<T>>, steps: seq<Step<T>>, n: nat)
    requires Execution(cfg, trace, steps) && n < |trace|
    ensures |trace[n].consumers| == |trace[0].consumers|
  {
    if n > 0 {
      SameCursors(cfg, trace, steps, n - 1);
    }
  }

  lemma {:induction false} Carried<T>(cfg: Config, trace: seq<Ring<T>>, steps: seq<Step<T>>, c: nat, k: nat, m: nat)
    requires Execution(cfg, trace, steps) && LastCopy(steps, c, k, m) && c < |trace[k].consumers|
    requires trace[k].consumers[c].pc.Copying? && |trace[k].core.slots| > 0
    requires trace[k].consumers[c].pc.want < trace[k].core.published
    ensures var want := trace[k].consumers[c].pc.want;
            SinceCopy(trace[k].core, want, SlotOf(trace[k].core, want).value, trace[m], c)
    decreases m
  {
    var want := trace[k].consumers[c].pc.want;
    ExecutionGood(cfg, trace, steps, m - 1);
    if m == k + 1 {
      CopyCarries(cfg, trace[k], steps[k]);
    } else {
      Carried(cfg, trace, steps, c, k, m - 1);
      StepCarries(cfg, trace[m - 1], steps[m - 1], c, trace[k].core, want, SlotOf(trace[k].core, want).value);
    }
  }

  lemma StartsReady<T>(r: Ring<T>, c: nat)
    requires Initial(r) && c < |r.consumers|
    ensures r.consumers[c].pc.Ready?
  {
    assert r.consumers[c] == Consumer(r.consumers[c].policy, 0, 0, Ready, []);
  }

  /** A reader past its copy has copied. */
  lemma {:induction false} CopyBefore<T>(cfg: Config, trace: seq<Ring<T>>, steps: seq<Step<T>>, c: nat, m: nat)
    returns (k: nat)
    requires Execution(cfg, trace, steps) && m < |trace| && c < |trace[m].consumers|
    requires trace[m].consumers[c].pc.Rechecking? || trace[m].consumers[c].pc.Committing?
    ensures LastCopy(steps, c, k, m)
  {
    SameCursors(cfg, trace, steps, m);
    StartsReady(trace[0], c);
    if steps[m - 1].Copy? && steps[m - 1].c == c {
      k := m - 1;
    } else {
      SameCursors(cfg, trace, steps, m - 1);
      k := CopyBefore(cfg, trace, steps, c, m - 1);
    }
  }

  /** In every interleaving, an Ok read is wrong if and only if its copy ran after the value one lap later had been
      written and before the slot was stamped for it, and the two values differ. */
  lemma WrongExactlyWhenTorn<T>(cfg: Config, trace: seq<Ring<T>>, steps: seq<Step<T>>, m: nat) returns (k: nat)
    requires Execution(cfg, trace, steps) && m < |steps| && steps[m].Commit?
    ensures LastCopy(steps, steps[m].c, k, m) && steps[m].c < |trace[m + 1].consumers|
    ensures var copied, now, ds := trace[k].core, trace[m + 1].core, trace[m + 1].consumers[steps[m].c].delivered;
            && ds != [] && ds[|ds| - 1].sequence < |now.pushes|
            && var d, n := ds[|ds| - 1], |copied.slots|;
            (d.value != now.pushes[d.sequence] <==>
               && copied.producer.Stamping? && copied.published == d.sequence + n
               && d.sequence + n < |now.pushes| && now.pushes[d.sequence + n] != now.pushes[d.sequence])
  {
    var c := steps[m].c;
    k := CopyBefore(cfg, trace, steps, c, m);
    SameCursors(cfg, trace, steps, k);
    SameCursors(cfg, trace, steps, m);
    ExecutionGood(cfg, trace, steps, k);
    var k0, now, want := trace[k].core, trace[m].core, trace[k].consumers[c].pc.want;
    assert GoodConsumer(cfg, k0, trace[k].consumers[c]);
    Carried(cfg, trace, steps, c, k, m);
    CopiedValue(cfg, k0, want);
    assert forall i | 0 <= i < |k0.pushes| :: now.pushes[i] == now.pushes[..|k0.pushes|][i];
  }
}
