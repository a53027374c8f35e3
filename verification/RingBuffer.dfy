/** The ring buffer and the subscriber as objects, used by one thread at a time. */
module RingBuffers {
  import opened Domain
  import opened RingProtocol
  import opened RingSafety
  import opened RingDelivery
  import opened SlotArithmetic

  class RingBuffer<T(0)> {
    const mask: nat
    const slots: array<Slot<T>>
    var nextToClaim: nat
    var producerSequence: nat
    ghost var pushes: seq<T>

    ghost function View(): Core<T>
      reads this, slots
    {
      Core(slots[..], nextToClaim, producerSequence, Idle, pushes)
    }

    ghost predicate Valid()
      reads this, slots
    {
      GoodCore(View()) && slots.Length == mask + 1 && exists m :: Pow2(m) == mask + 1
    }

    constructor (capacity: nat, default: T)
      ensures Valid() && fresh(slots) && pushes == [] && producerSequence == 0
      ensures slots.Length == CapacityFor(capacity)
    {
      ghost var m := CapacityIsLeast(capacity);
      mask := CapacityFor(capacity) - 1;
      slots := new Slot<T>[CapacityFor(capacity)](_ => Slot(0, default));
      nextToClaim, producerSequence, pushes := 0, 0, [];
      new;
      assert Pow2(m) == mask + 1;
    }

    /** claim_overwrite, the write of the slot, and publish. */
    method PushOverwrite(value: T)
      requires Valid()
      modifies this, slots
      ensures Valid() && pushes == old(pushes) + [value] && producerSequence == old(producerSequence) + 1
    {
      ghost var k0 := View();
      var sequence := nextToClaim;
      ghost var m :| Pow2(m) == mask + 1;
      MaskIsModulo(sequence, m);
      var j := And(sequence, mask);
      slots[j] := slots[j].(value := value);
      slots[j] := slots[j].(stamp := sequence);
      nextToClaim := sequence + 1;
      producerSequence := sequence + 1;
      pushes := pushes + [value];
      PushIsSteps(k0, value, View());
    }
  }

  /** The three steps of a push, one after the other. */
  lemma PushIsSteps<T>(k: Core<T>, value: T, k': Core<T>)
    requires GoodCore(k) && k.producer.Idle?
    requires var j := k.next % |k.slots|;
             k' == Core(k.slots[j := Slot(k.next, value)], k.next + 1, k.next + 1, Idle, k.pushes + [value])
    ensures GoodCore(k')
  {
    var cfg, r := Config(false, false), Ring(k, []);
    var k1 := ProducerStep(cfg, r, Begin(value, false));
    ProducerStepGood(cfg, r, Begin(value, false));
    var k2 := ProducerStep(cfg, r.(core := k1), Write);
    ProducerStepGood(cfg, r.(core := k1), Write);
    var k3 := ProducerStep(cfg, r.(core := k2), Stamp);
    ProducerStepGood(cfg, r.(core := k2), Stamp);
    ProducerStepGood(cfg, r.(core := k3), Publish);
    var j := k.next % |k.slots|;
    assert k3.slots == k'.slots;
    assert ProducerStep(cfg, r.(core := k3), Publish) == k';
  }

  datatype ReadResult = Empty | Ok | Dropped

  class Cursor<T(0)> {
    const owner: RingBuffer<T>
    const policy: Policy
    var sequence: nat
    var dropped: nat
    ghost var delivered: seq<Delivery<T>>

    constructor (owner: RingBuffer<T>, policy: Policy)
      ensures View() == Consumer(policy, 0, 0, Ready, []) && this.owner == owner && this.policy == policy
    {
      this.owner, this.policy, sequence, dropped, delivered := owner, policy, 0, 0, [];
    }

    ghost function View(): Consumer<T>
      reads this
    {
      Consumer(policy, sequence, dropped, Ready, delivered)
    }

    /** The cursor has not run ahead. */
    ghost predicate Valid()
      reads this, owner, owner.slots
    {
      owner.Valid() && sequence <= owner.producerSequence
    }

    /** A slot that carries a later stamp: the item is counted as dropped. */
    method ReportStaleSlot(want: nat) returns (result: ReadResult)
      modifies this`dropped, this`sequence
      ensures result == Dropped && dropped == old(dropped) + 1 && sequence == want + 1
    {
      dropped := dropped + 1;
      sequence := want + 1;
      return Dropped;
    }

    /** The part of try_read that looks at the slot of item `want`. */
    method ReadSlot(want: nat) returns (result: ReadResult, out: Option<T>)
      requires owner.Valid() && want < owner.producerSequence
      modifies this
      ensures owner.Valid()
      ensures Republished(owner.View(), want) ==>
                && result.Dropped? && out == None
                && View() == old(View()).(position := want + 1, dropped := old(dropped) + 1)
      ensures !Republished(owner.View(), want) ==>
                && want < |owner.pushes| && result.Ok? && out == Some(owner.pushes[want])
                && View() == old(View()).(position := want + 1,
                                          delivered := old(delivered) + [Delivery(want, owner.pushes[want])])
    {
      StaleStamp(owner.View(), want);
      ghost var m :| Pow2(m) == owner.mask + 1;
      MaskIsModulo(want, m);
      var j := And(want, owner.mask);
      if owner.slots[j].stamp != want {
        result := ReportStaleSlot(want);
        return result, None;
      }
      var value := owner.slots[j].value;
      assert ValueRight(owner.View(), want);
      if owner.slots[j].stamp != want {
        assert false;
      }
      sequence := want + 1;
      delivered := delivered + [Delivery(want, value)];
      return Ok, Some(value);
    }

    /** try_read with the producer at rest: it drops an item exactly when a Lossless cursor was lapped. */
    method TryRead() returns (result: ReadResult, out: Option<T>)
      requires Valid()
      modifies this
      ensures Valid() && View() == SoloRead(owner.View(), old(View()))
      ensures result == if old(sequence) >= owner.producerSequence then Empty
                        else if Lapped(owner.View(), old(View())) then Dropped else Ok
      ensures result.Ok? ==> CatchUp(owner.View(), old(View())) < |owner.pushes|
      ensures out == if result.Ok? then Some(owner.pushes[CatchUp(owner.View(), old(View()))]) else None
    {
      SoloReadMeans(owner.View(), View());
      var want, produced := sequence, owner.producerSequence;
      if want >= produced {
        return Empty, None;
      }
      var capacity := owner.mask + 1;
      if policy.Lossy? && produced - want > capacity {
        var target := produced - capacity;
        dropped := dropped + (target - want);
        want := target;
      }
      result, out := ReadSlot(want);
    }
  }
}
