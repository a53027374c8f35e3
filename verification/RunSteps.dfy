/** What one more command does to a run: submitting, cancelling and modifying, known ids and unknown ones. */
module RunSteps {
  import opened Domain
  import opened Ladder
  import opened Matching
  import opened Consistency
  import opened Sweeping
  import opened Engine
  import opened Ledger
  import opened CancelModify

  /** The history goes on with what one call did, after withdrawing some orders. */
  ghost predicate Continues(h: History, h': History, out: Outcome, withdrawn: seq<OrderRecord>) {
    && h'.book == out.book
    && h'.placed == h.placed + (match out.placed case None => [] case Some(o) => [o])
    && h'.trades == h.trades + out.trades
    && h'.killed == h.killed + out.killed
    && h'.withdrawn == h.withdrawn + withdrawn
  }

  lemma {:induction false} RunContinues(commands: seq<Command>, c: Command)
    ensures var h := Run(commands);
            Continues(h, Run(commands + [c]), Apply(h.book, c), Withdrawn(h.book, c))
  {
    assert (commands + [c])[..|commands|] == commands;
  }

  lemma SubmitCalls(b: Book, kind: OrderType, id: OrderId, side: Side, price: Price, quantity: nat)
    requires Proper(b)
    ensures Apply(b, Submit(kind, id, side, price, quantity)) ==
            AddOrder(b, OrderRecord(kind, id, side, price, quantity, quantity))
    ensures Withdrawn(b, Submit(kind, id, side, price, quantity)) == []
  {
  }

  lemma ModifyCalls(b: Book, id: OrderId, side: Side, price: Price, quantity: nat)
    requires Proper(b)
    ensures Apply(b, ModifyOrder(id, side, price, quantity)) == Modify(b, id, side, price, quantity)
  {
  }

  /** A submission in a run is AddOrder of an order with nothing traded yet. */
  lemma {:induction false} AfterSubmit(commands: seq<Command>, kind: OrderType, id: OrderId, side: Side, price: Price,
                                       quantity: nat)
    ensures var h, h' := Run(commands), Run(commands + [Submit(kind, id, side, price, quantity)]);
            Continues(h, h', AddOrder(h.book, OrderRecord(kind, id, side, price, quantity, quantity)), [])
  {
    RunContinues(commands, Submit(kind, id, side, price, quantity));
    SubmitCalls(Run(commands).book, kind, id, side, price, quantity);
  }

  /** Cancelling or modifying an id the book does not know does nothing at all. */
  lemma UnknownId(b: Book, id: OrderId, side: Side, price: Price, quantity: nat)
    requires Proper(b) && id !in b.index
    ensures Cancel(b, id) == b && Modify(b, id, side, price, quantity) == Outcome(b, [], [], None)
  {
  }

  /** `h'` has the order called `id` taken out of its queue and the index, if there is one; nothing else happened. */
  ghost predicate JustCancelled(h: History, h': History, id: OrderId) {
    && (forall side: Side :: Flatten(Levels(h'.book, side)) == Without(Flatten(Levels(h.book, side)), id))
    && h'.book.index == h.book.index - {id}
    && (id !in h.book.index ==> h' == h)
    && h'.placed == h.placed && h'.trades == h.trades && h'.killed == h.killed
  }

  lemma CancelledHistory(h: History, h': History, id: OrderId, withdrawn: seq<OrderRecord>)
    requires Valid(h.book) && Continues(h, h', Outcome(Cancel(h.book, id), [], [], None), withdrawn)
    requires id !in h.book.index ==> withdrawn == []
    ensures JustCancelled(h, h', id)
  {
    forall side: Side ensures Flatten(Levels(h'.book, side)) == Without(Flatten(Levels(h.book, side)), id) {
      CancelKeepsPriority(h.book, id, side);
    }
    CancelConsistent(h.book, id);
  }

  lemma CancelCalls(b: Book, id: OrderId)
    requires Proper(b)
    ensures Apply(b, Command.CancelOrder(id)) == Outcome(Cancel(b, id), [], [], None)
    ensures id !in b.index ==> Withdrawn(b, Command.CancelOrder(id)) == []
  {
  }

  lemma {:induction false} AfterCancel(commands: seq<Command>, id: OrderId)
    ensures JustCancelled(Run(commands), Run(commands + [Command.CancelOrder(id)]), id)
  {
    var c := Command.CancelOrder(id);
    RunContinues(commands, c);
    CancelCalls(Run(commands).book, id);
    CancelledHistory(Run(commands), Run(commands + [c]), id, Withdrawn(Run(commands).book, c));
  }

  /** `h'` has the order called `id` withdrawn, its successor swept through the opposing orders, and what is left of
      that behind everybody at its price; an unknown id changed nothing. */
  ghost predicate JustModified(h: History, h': History, id: OrderId, side: Side, price: Price, quantity: nat) {
    if id !in h.book.index then h' == h
    else
      Resting(h.book, id).Some? &&
      var existing := Resting(h.book, id).value;
      var b1, o := Cancel(h.book, id), OrderRecord(existing.kind, id, side, price, quantity, quantity);
      var accepted, r := !TurnedDown(b1, o), Sweep(o, Queue(b1, o));
      && (forall p: Price ::
            At(h'.book, side, p) ==
            Without(At(h.book, side, p), id) + (if p == price && accepted then Survivor(r.taker) else []))
      && Queue(b1, o) + Beyond(b1, o) == Without(Flatten(Levels(h.book, side.Opposite())), id)
      && Flatten(Levels(h'.book, side.Opposite())) ==
           (if accepted then r.left else Queue(b1, o)) + Beyond(b1, o)
      && h'.trades == h.trades + (if accepted then r.trades else [])
      && h'.placed == h.placed + (if accepted then [o] else [])
      && h'.killed == h.killed
      && h'.withdrawn == h.withdrawn + [existing]
  }

  lemma ModifiedKinds(b: Book, id: OrderId, side: Side, price: Price, quantity: nat)
    requires Valid(b) && Resting(b, id).Some?
    ensures var b1, o := Cancel(b, id), NewOrder(Resting(b, id).value.kind, id, side, price, quantity);
            && (Accepted(b1, o) <==> !TurnedDown(b1, o))
            && Modify(b, id, side, price, quantity).placed == (if Accepted(b1, o) then Some(o) else None)
            && Modify(b, id, side, price, quantity).killed == []
  {
    var b1, o := Cancel(b, id), NewOrder(Resting(b, id).value.kind, id, side, price, quantity);
    CancelValid(b, id);
    RestingLasts(b, id);
    RefusedExactly(b1, o);
    RefusedOrAccepted(b1, o);
    if Accepted(b1, o) {
      AddOrderIsSweep(b1, o);
    }
  }

  lemma ModifiedHistory(h: History, h': History, id: OrderId, side: Side, price: Price, quantity: nat)
    requires Valid(h.book)
    requires Continues(h, h', Modify(h.book, id, side, price, quantity), Survivor(Resting(h.book, id)))
    ensures JustModified(h, h', id, side, price, quantity)
  {
    if id in h.book.index {
      var k := RestingFound(h.book, id);
      ModifiedKinds(h.book, id, side, price, quantity);
      forall p: Price {
        ModifyLosesPriority(h.book, id, side, price, quantity, p);
      }
      ModifyLosesPriority(h.book, id, side, price, quantity, price);
    } else {
      UnknownId(h.book, id, side, price, quantity);
    }
  }

  lemma {:induction false} AfterModify(commands: seq<Command>, id: OrderId, side: Side, price: Price, quantity: nat)
    ensures JustModified(Run(commands), Run(commands + [Command.ModifyOrder(id, side, price, quantity)]),
                         id, side, price, quantity)
  {
    var c := Command.ModifyOrder(id, side, price, quantity);
    RunContinues(commands, c);
    ModifyCalls(Run(commands).book, id, side, price, quantity);
    ModifiedHistory(Run(commands), Run(commands + [c]), id, side, price, quantity);
  }
}
