/** One shard: a book per symbol, the trade prints, and the top-of-book updates it publishes. */
module Shards {
  import opened Domain
  import opened Ladder
  import opened Matching
  import opened Engine
  import opened Ledger
  import opened BookViews

  type SymbolId = nat

  datatype Message = Message(sequence: nat, symbol: SymbolId, command: Command)

  /** A missing price stands for the not-a-number price of an empty side. */
  datatype Top = Top(symbol: SymbolId, bidPrice: Option<Price>, bidQuantity: nat,
                     askPrice: Option<Price>, askQuantity: nat, sequence: nat)

  /** A trade print; one quantity stands for both legs. */
  datatype TradeExecution = TradeExecution(symbol: SymbolId, sequence: nat, bidOrderId: OrderId, bidPrice: Price,
                                           askOrderId: OrderId, askPrice: Price, quantity: nat)

  type SoundBook = b: Book | Proper(b) witness EMPTY_BOOK

  /** The worker's private state and what it has published. */
  datatype ShardState = ShardState(books: map<SymbolId, SoundBook>, lastTop: map<SymbolId, Top>,
                                   tops: seq<Top>, trades: seq<TradeExecution>)

  const NEW_SHARD := ShardState(map[], map[], [], [])

  function EmptyTop(symbol: SymbolId): Top {
    Top(symbol, None, 0, None, 0, 0)
  }

  function BookOf(s: ShardState, symbol: SymbolId): SoundBook {
    if symbol in s.books then s.books[symbol] else EMPTY_BOOK
  }

  function LastTop(s: ShardState, symbol: SymbolId): Top {
    if symbol in s.lastTop then s.lastTop[symbol] else EmptyTop(0)
  }

  /** The fronts of the two lists of levels the book reports. */
  function MakeTop(b: Book, symbol: SymbolId, sequence: nat): Top {
    var bidInfos, askInfos := LevelInfos(b.bids), LevelInfos(b.asks);
    Top(symbol, FrontPrice(bidInfos), FrontQuantity(bidInfos), FrontPrice(askInfos), FrontQuantity(askInfos), sequence)
  }

  /** Equal up to the sequence number. */
  predicate SameTop(a: Top, b: Top) {
    a.(sequence := 0) == b.(sequence := 0)
  }

  lemma {:induction false} MatchOrdersProper(b: Book)
    requires Proper(b)
    ensures Proper(MatchOrders(b).book)
    decreases Orders(b)
  {
    if Crossed(b) {
      RoundShrinks(b);
      MatchOrdersProper(MatchRound(b).0);
    }
  }

  lemma AddOrderProper(b: Book, o: OrderRecord)
    requires Proper(b)
    ensures Proper(AddOrder(b, o).book)
  {
    RefusedOrAccepted(b, o);
    if Accepted(b, o) {
      RestProper(b, Effective(b, o));
      MatchOrdersProper(Rest(b, Effective(b, o)));
    }
  }

  lemma ApplyProper(b: Book, c: Command)
    requires Proper(b)
    ensures Proper(Apply(b, c).book)
  {
    match c
    case Submit(kind, id, side, price, quantity) => AddOrderProper(b, NewOrder(kind, id, side, price, quantity));
    case CancelOrder(id) => CancelProper(b, id);
    case ModifyOrder(id, side, price, quantity) =>
      CancelProper(b, id);
      if Resting(b, id).Some? {
        AddOrderProper(Cancel(b, id), NewOrder(Resting(b, id).value.kind, id, side, price, quantity));
      }
  }

  function BookAfter(b: SoundBook, c: Command): SoundBook {
    ApplyProper(b, c);
    Apply(b, c).book
  }

  function PrintOf(m: Message, t: Trade): TradeExecution {
    TradeExecution(m.symbol, m.sequence, t.bid.orderId, t.bid.price, t.ask.orderId, t.ask.price, t.bid.quantity)
  }

  /** Trade prints in the order of the trades, all with the message's sequence number. */
  function Prints(m: Message, trades: seq<Trade>): seq<TradeExecution> {
    seq(|trades|, i requires 0 <= i < |trades| => PrintOf(m, trades[i]))
  }

  function Process(s: ShardState, m: Message): ShardState {
    var book := BookOf(s, m.symbol);
    var book' := BookAfter(book, m.command);
    var update := MakeTop(book', m.symbol, m.sequence);
    var last := LastTop(s, m.symbol);
    ShardState(s.books[m.symbol := book'],
               s.lastTop[m.symbol := Remembered(last, update)],
               s.tops + Published(last, update),
               s.trades + Prints(m, Apply(book, m.command).trades))
  }

  function ProcessAll(ms: seq<Message>): ShardState {
    if ms == [] then NEW_SHARD else Process(ProcessAll(ms[..|ms| - 1]), ms[|ms| - 1])
  }

  // ---- each book is the fold of its own symbol's messages ----

  function OfSymbol(ms: seq<Message>, symbol: SymbolId): seq<Message> {
    if ms == [] then []
    else OfSymbol(ms[..|ms| - 1], symbol) + if ms[|ms| - 1].symbol == symbol then [ms[|ms| - 1]] else []
  }

  /** A single book fed a list of messages one after the other. */
  function BookFold(ms: seq<Message>): SoundBook {
    if ms == [] then EMPTY_BOOK else BookAfter(BookFold(ms[..|ms| - 1]), ms[|ms| - 1].command)
  }

  /** The trades it makes. */
  function TradesFold(ms: seq<Message>): seq<Trade> {
    if ms == [] then []
    else TradesFold(ms[..|ms| - 1]) + Apply(BookFold(ms[..|ms| - 1]), ms[|ms| - 1].command).trades
  }

  lemma FoldSnoc(ms: seq<Message>, m: Message)
    ensures BookFold(ms + [m]) == Apply(BookFold(ms), m.command).book
    ensures TradesFold(ms + [m]) == TradesFold(ms) + Apply(BookFold(ms), m.command).trades
  {
    assert (ms + [m])[..|ms|] == ms;
  }

  lemma FrontAndLast<T>(s: seq<T>)
    requires s != []
    ensures s[..|s| - 1] + [s[|s| - 1]] == s
  {
  }

  lemma OfSymbolSnoc(ms: seq<Message>, m: Message, symbol: SymbolId)
    ensures OfSymbol(ms + [m], symbol) == OfSymbol(ms, symbol) + if m.symbol == symbol then [m] else []
  {
    assert (ms + [m])[..|ms|] == ms;
  }

  /** The single-threaded fold of a symbol's messages after one more message. */
  lemma {:induction false} FoldStep(ms: seq<Message>, m: Message, symbol: SymbolId)
    ensures var before, out := OfSymbol(ms, symbol), Apply(BookFold(OfSymbol(ms, symbol)), m.command);
            && BookFold(OfSymbol(ms + [m], symbol)) == (if m.symbol == symbol then out.book else BookFold(before))
            && TradesFold(OfSymbol(ms + [m], symbol)) ==
                 TradesFold(before) + (if m.symbol == symbol then out.trades else [])
  {
    OfSymbolSnoc(ms, m, symbol);
    if m.symbol == symbol {
      FoldSnoc(OfSymbol(ms, symbol), m);
    } else {
      assert OfSymbol(ms, symbol) + [] == OfSymbol(ms, symbol);
      assert TradesFold(OfSymbol(ms, symbol)) + [] == TradesFold(OfSymbol(ms, symbol));
    }
  }

  lemma ProcessedBook(s: ShardState, m: Message, symbol: SymbolId)
    ensures BookOf(Process(s, m), symbol) ==
            if m.symbol == symbol then Apply(BookOf(s, symbol), m.command).book else BookOf(s, symbol)
  {
  }

  ghost predicate BookRight(s: ShardState, ms: seq<Message>, symbol: SymbolId) {
    BookOf(s, symbol) == BookFold(OfSymbol(ms, symbol))
  }

  lemma {:induction false} BookStep(s: ShardState, ms: seq<Message>, m: Message, symbol: SymbolId)
    requires BookRight(s, ms, symbol)
    ensures BookRight(Process(s, m), ms + [m], symbol)
  {
    ProcessedBook(s, m, symbol);
    FoldStep(ms, m, symbol);
  }

  lemma {:induction false} AlwaysBookRight(ms: seq<Message>, symbol: SymbolId)
    ensures BookRight(ProcessAll(ms), ms, symbol)
  {
    if ms != [] {
      var front, m := ms[..|ms| - 1], ms[|ms| - 1];
      AlwaysBookRight(front, symbol);
      BookStep(ProcessAll(front), front, m, symbol);
      FrontAndLast(ms);
    }
  }

  /** Symbols sharing a shard do not influence each other. */
  lemma {:induction false} BookIsFold(ms: seq<Message>, symbol: SymbolId)
    ensures BookOf(ProcessAll(ms), symbol) == BookFold(OfSymbol(ms, symbol))
  {
    AlwaysBookRight(ms, symbol);
  }

  function CommandsOf(ms: seq<Message>): seq<Command> {
    seq(|ms|, i requires 0 <= i < |ms| => ms[i].command)
  }

  lemma CommandsSnoc(ms: seq<Message>, m: Message)
    ensures CommandsOf(ms + [m]) == CommandsOf(ms) + [m.command]
  {
  }

  lemma {:induction false} RunFurther(h: History, commands: seq<Command>, c: Command)
    requires h == Run(commands)
    ensures Run(commands + [c]).book == Apply(h.book, c).book
    ensures Run(commands + [c]).trades == h.trades + Apply(h.book, c).trades
  {
    assert (commands + [c])[..|commands|] == commands;
  }

  lemma EmptyRun()
    ensures Run(CommandsOf([])).book == EMPTY_BOOK && Run(CommandsOf([])).trades == []
  {
    assert CommandsOf([]) == [];
  }

  ghost predicate FoldRight(ms: seq<Message>, h: History) {
    BookFold(ms) == h.book && TradesFold(ms) == h.trades
  }

  lemma {:induction false} FoldFurther(ms: seq<Message>, h: History, m: Message, h': History)
    requires FoldRight(ms, h) && Valid(h.book)
    requires h'.book == Apply(h.book, m.command).book && h'.trades == h.trades + Apply(h.book, m.command).trades
    ensures FoldRight(ms + [m], h')
  {
    FoldSnoc(ms, m);
  }

  lemma {:induction false} AlwaysFoldRight(ms: seq<Message>)
    ensures FoldRight(ms, Run(CommandsOf(ms)))
  {
    if ms == [] {
      EmptyRun();
    } else {
      var front, m := ms[..|ms| - 1], ms[|ms| - 1];
      AlwaysFoldRight(front);
      var h, commands := Run(CommandsOf(front)), CommandsOf(front) + [m.command];
      RunFurther(h, CommandsOf(front), m.command);
      FoldFurther(front, h, m, Run(commands));
      FrontAndLast(ms);
      CommandsSnoc(front, m);
    }
  }

  /** The single-threaded fold is the run of the messages' commands. */
  lemma {:induction false} FoldIsRun(ms: seq<Message>)
    ensures BookFold(ms) == Run(CommandsOf(ms)).book && TradesFold(ms) == Run(CommandsOf(ms)).trades
    ensures Valid(BookFold(ms))
  {
    AlwaysFoldRight(ms);
  }

  // ---- what is published ----

  /** The updates of one symbol, in order. */
  function TopsOf(tops: seq<Top>, symbol: SymbolId): seq<Top> {
    if tops == [] then []
    else TopsOf(tops[..|tops| - 1], symbol) + if tops[|tops| - 1].symbol == symbol then [tops[|tops| - 1]] else []
  }

  /** What a reader who keeps the latest update of each symbol shows. */
  function Shown(tops: seq<Top>, symbol: SymbolId): Top {
    var mine := TopsOf(tops, symbol);
    if mine == [] then EmptyTop(symbol) else mine[|mine| - 1]
  }

  /** Some field but symbol and sequence number differs. */
  predicate Differ(a: Top, b: Top) {
    || a.bidPrice != b.bidPrice || a.bidQuantity != b.bidQuantity
    || a.askPrice != b.askPrice || a.askQuantity != b.askQuantity
  }

  predicate NoRepeats(tops: seq<Top>) {
    forall i | 0 < i < |tops| :: Differ(tops[i - 1], tops[i])
  }

  /** The update shows the best bid and ask of the book and the quantities there. */
  ghost predicate ShowsBook(t: Top, b: Book, symbol: SymbolId) {
    t.symbol == symbol && ShowsSide(b, Buy, t.bidPrice, t.bidQuantity) && ShowsSide(b, Sell, t.askPrice, t.askQuantity)
  }

  lemma TopShowsBook(b: Book, symbol: SymbolId, sequence: nat)
    requires Valid(b)
    ensures ShowsBook(MakeTop(b, symbol, sequence), b, symbol)
  {
    InfosDescribe(b, Buy);
    InfosDescribe(b, Sell);
    FrontShowsSide(b, Buy, LevelInfos(b.bids));
    FrontShowsSide(b, Sell, LevelInfos(b.asks));
  }

  /** Only one thing can be shown of a book. */
  lemma OneTop(b: Book, symbol: SymbolId, s: Top, t: Top)
    requires ShowsBook(s, b, symbol) && ShowsBook(t, b, symbol)
    ensures SameTop(s, t)
  {
    OneFront(b, Buy, s.bidPrice, s.bidQuantity, t.bidPrice, t.bidQuantity);
    OneFront(b, Sell, s.askPrice, s.askQuantity, t.askPrice, t.askQuantity);
  }

  predicate Increasing(ms: seq<Message>) {
    forall i, j | 0 <= i < j < |ms| :: ms[i].sequence < ms[j].sequence
  }

  lemma TopsSnoc(tops: seq<Top>, t: Top, symbol: SymbolId)
    ensures TopsOf(tops + [t], symbol) == TopsOf(tops, symbol) + if t.symbol == symbol then [t] else []
  {
    assert (tops + [t])[..|tops|] == tops;
  }

  /** The worker's memory `last` of what it published for a symbol, the readers' view, and the current top agree. */
  predicate Mirrors(tops: seq<Top>, last: Top, symbol: SymbolId, current: Top) {
    var mine := TopsOf(tops, symbol);
    && last == (if mine == [] then EmptyTop(0) else mine[|mine| - 1])
    && SameTop(Shown(tops, symbol), current)
    && (forall i | 0 <= i < |mine| :: mine[i].symbol == symbol)
    && NoRepeats(mine)
  }

  function Published(last: Top, update: Top): seq<Top> {
    if SameTop(last, update) then [] else [update]
  }

  function Remembered(last: Top, update: Top): Top {
    if SameTop(last, update) then last else update
  }

  lemma OwnUpdate(tops: seq<Top>, last: Top, symbol: SymbolId, current: Top, update: Top)
    requires Mirrors(tops, last, symbol, current) && update.symbol == symbol
    ensures Mirrors(tops + Published(last, update), Remembered(last, update), symbol, update)
  {
    var mine := TopsOf(tops, symbol);
    if SameTop(last, update) {
      assert tops + [] == tops;
    } else {
      TopsSnoc(tops, update, symbol);
      assert forall i | 0 <= i < |mine| :: (mine + [update])[i] == mine[i];
    }
  }

  lemma OtherUpdate(tops: seq<Top>, last: Top, symbol: SymbolId, current: Top, other: Top, update: Top)
    requires Mirrors(tops, last, symbol, current) && update.symbol != symbol
    ensures Mirrors(tops + Published(other, update), last, symbol, current)
  {
    assert tops + [] == tops;
    TopsSnoc(tops, update, symbol);
    assert TopsOf(tops, symbol) + [] == TopsOf(tops, symbol);
  }

  ghost predicate TopsRight(s: ShardState, symbol: SymbolId) {
    Mirrors(s.tops, LastTop(s, symbol), symbol, MakeTop(BookOf(s, symbol), symbol, 0))
  }

  lemma ProcessTops(s: ShardState, m: Message, symbol: SymbolId)
    requires TopsRight(s, symbol)
    ensures TopsRight(Process(s, m), symbol)
  {
    var update := MakeTop(BookAfter(BookOf(s, m.symbol), m.command), m.symbol, m.sequence);
    var current := MakeTop(BookOf(s, symbol), symbol, 0);
    if m.symbol == symbol {
      OwnUpdate(s.tops, LastTop(s, symbol), symbol, current, update);
    } else {
      OtherUpdate(s.tops, LastTop(s, symbol), symbol, current, LastTop(s, m.symbol), update);
    }
  }

  lemma {:induction false} AlwaysTopsRight(ms: seq<Message>, symbol: SymbolId)
    ensures TopsRight(ProcessAll(ms), symbol)
  {
    if ms != [] {
      AlwaysTopsRight(ms[..|ms| - 1], symbol);
      ProcessTops(ProcessAll(ms[..|ms| - 1]), ms[|ms| - 1], symbol);
    }
  }

  /** From the published updates alone, keeping the latest per symbol and starting from an empty top, a reader
      always shows the best bid and ask of the single-threaded book with their quantities; and no update repeats the
      previous one of its symbol. */
  lemma {:induction false} PublishedTopsShowBooks(ms: seq<Message>, symbol: SymbolId)
    ensures var s := ProcessAll(ms);
            && ShowsBook(Shown(s.tops, symbol), BookFold(OfSymbol(ms, symbol)), symbol)
            && NoRepeats(TopsOf(s.tops, symbol))
  {
    AlwaysTopsRight(ms, symbol);
    BookIsFold(ms, symbol);
    FoldIsRun(OfSymbol(ms, symbol));
    TopShowsBook(BookFold(OfSymbol(ms, symbol)), symbol, 0);
  }

  /** Whether an update is published: not when readers show it already, except that the first one of a symbol other
      than 0 always is. */
  lemma PublishedIff(tops: seq<Top>, last: Top, symbol: SymbolId, current: Top, update: Top, b: Book)
    requires Mirrors(tops, last, symbol, current) && ShowsBook(update, b, symbol)
    ensures Published(last, update) == [] <==>
            ShowsBook(Shown(tops, symbol), b, symbol) && (TopsOf(tops, symbol) != [] || symbol == 0)
    ensures Published(last, update) == [] || Published(last, update) == [update]
  {
    if ShowsBook(Shown(tops, symbol), b, symbol) {
      OneTop(b, symbol, Shown(tops, symbol), update);
    }
  }

  /** What one message adds to the published updates: nothing or one update, with the message's number, that shows the
      book after it. */
  lemma {:induction false} PublishesExactly(ms: seq<Message>, m: Message)
    ensures var tops, tops' := ProcessAll(ms).tops, ProcessAll(ms + [m]).tops;
            var b := BookFold(OfSymbol(ms + [m], m.symbol));
            if ShowsBook(Shown(tops, m.symbol), b, m.symbol) && (TopsOf(tops, m.symbol) != [] || m.symbol == 0)
            then tops' == tops
            else
              && |tops'| == |tops| + 1 && tops'[..|tops|] == tops
              && ShowsBook(tops'[|tops|], b, m.symbol) && tops'[|tops|].sequence == m.sequence
  {
    var s, b := ProcessAll(ms), BookFold(OfSymbol(ms + [m], m.symbol));
    ProcessSnoc(ms, m);
    AlwaysTopsRight(ms, m.symbol);
    BookIsFold(ms + [m], m.symbol);
    FoldIsRun(OfSymbol(ms + [m], m.symbol));
    TopShowsBook(b, m.symbol, m.sequence);
    PublishedIff(s.tops, LastTop(s, m.symbol), m.symbol, MakeTop(BookOf(s, m.symbol), m.symbol, 0),
                 MakeTop(b, m.symbol, m.sequence), b);
  }

  // ---- trade prints ----

  /** The trades a symbol's prints report. */
  function TradesOf(prints: seq<TradeExecution>, symbol: SymbolId): seq<Trade> {
    if prints == [] then []
    else
      var front, p := prints[..|prints| - 1], prints[|prints| - 1];
      TradesOf(front, symbol) +
      if p.symbol == symbol
      then [Trade(TradeInfo(p.bidOrderId, p.bidPrice, p.quantity), TradeInfo(p.askOrderId, p.askPrice, p.quantity))]
      else []
  }

  lemma {:induction false} TradesOfSnoc(prints: seq<TradeExecution>, p: TradeExecution, symbol: SymbolId)
    ensures TradesOf(prints + [p], symbol) ==
            TradesOf(prints, symbol) +
            if p.symbol == symbol
            then [Trade(TradeInfo(p.bidOrderId, p.bidPrice, p.quantity),
                        TradeInfo(p.askOrderId, p.askPrice, p.quantity))]
            else []
  {
    assert (prints + [p])[..|prints|] == prints;
  }

  lemma PrintsSnoc(prints: seq<TradeExecution>, m: Message, ts: seq<Trade>, t: Trade)
    ensures prints + Prints(m, ts + [t]) == prints + Prints(m, ts) + [PrintOf(m, t)]
  {
  }

  lemma {:induction false} PrintedTrades(prints: seq<TradeExecution>, m: Message, ts: seq<Trade>, symbol: SymbolId)
    requires FairTrades(ts)
    ensures TradesOf(prints + Prints(m, ts), symbol) == TradesOf(prints, symbol) + if m.symbol == symbol then ts else []
  {
    if ts == [] {
      assert prints + Prints(m, ts) == prints;
      assert TradesOf(prints, symbol) + [] == TradesOf(prints, symbol);
    } else {
      var front, t := ts[..|ts| - 1], ts[|ts| - 1];
      assert FairTrade(t);
      PrintedTrades(prints, m, front, symbol);
      FrontAndLast(ts);
      PrintsSnoc(prints, m, front, t);
      TradesOfSnoc(prints + Prints(m, front), PrintOf(m, t), symbol);
      ConcatAssociates(TradesOf(prints, symbol), front, [t]);
    }
  }

  lemma ProcessedPrints(s: ShardState, m: Message, symbol: SymbolId)
    requires Valid(BookOf(s, m.symbol))
    ensures TradesOf(Process(s, m).trades, symbol) ==
            TradesOf(s.trades, symbol) +
            if m.symbol == symbol then Apply(BookOf(s, m.symbol), m.command).trades else []
  {
    ApplyFair(BookOf(s, m.symbol), m.command);
    PrintedTrades(s.trades, m, Apply(BookOf(s, m.symbol), m.command).trades, symbol);
  }

  ghost predicate PrintsRight(s: ShardState, ms: seq<Message>, symbol: SymbolId) {
    TradesOf(s.trades, symbol) == TradesFold(OfSymbol(ms, symbol))
  }

  lemma {:induction false} PrintsStep(s: ShardState, ms: seq<Message>, m: Message, symbol: SymbolId)
    requires Valid(BookOf(s, m.symbol)) && BookRight(s, ms, m.symbol) && PrintsRight(s, ms, symbol)
    ensures PrintsRight(Process(s, m), ms + [m], symbol)
  {
    ProcessedPrints(s, m, symbol);
    FoldStep(ms, m, symbol);
  }

  lemma {:induction false} BookValid(ms: seq<Message>, symbol: SymbolId)
    ensures Valid(BookOf(ProcessAll(ms), symbol))
  {
    AlwaysBookRight(ms, symbol);
    FoldIsRun(OfSymbol(ms, symbol));
  }

  lemma {:induction false} AlwaysPrintsRight(ms: seq<Message>, symbol: SymbolId)
    ensures PrintsRight(ProcessAll(ms), ms, symbol)
  {
    if ms != [] {
      var front, m := ms[..|ms| - 1], ms[|ms| - 1];
      AlwaysPrintsRight(front, symbol);
      AlwaysBookRight(front, m.symbol);
      BookValid(front, m.symbol);
      PrintsStep(ProcessAll(front), front, m, symbol);
      FrontAndLast(ms);
    }
  }

  /** The trades printed for a symbol are the trades of the single-threaded book fed its messages, in order. */
  lemma {:induction false} PrintsAreTrades(ms: seq<Message>, symbol: SymbolId)
    ensures TradesOf(ProcessAll(ms).trades, symbol) == TradesFold(OfSymbol(ms, symbol))
  {
    AlwaysPrintsRight(ms, symbol);
  }

  /** `prints'` goes on after `prints` with the trades `ts`, one print each, under the message's symbol and number. */
  predicate PrintsAdded(prints: seq<TradeExecution>, prints': seq<TradeExecution>, m: Message, ts: seq<Trade>) {
    && |prints'| == |prints| + |ts| && prints'[..|prints|] == prints
    && forall i | 0 <= i < |ts| ::
         var p := prints'[|prints| + i];
         && p.symbol == m.symbol && p.sequence == m.sequence
         && p.bidOrderId == ts[i].bid.orderId && p.bidPrice == ts[i].bid.price
         && p.askOrderId == ts[i].ask.orderId && p.askPrice == ts[i].ask.price
         && p.quantity == ts[i].bid.quantity
  }

  lemma ProcessAdds(s: ShardState, m: Message)
    ensures PrintsAdded(s.trades, Process(s, m).trades, m, Apply(BookOf(s, m.symbol), m.command).trades)
  {
  }

  /** The prints one message adds carry its symbol and number and are, field by field, the trades it makes in the
      single-threaded fold of its symbol. */
  lemma {:induction false} PrintsExactly(ms: seq<Message>, m: Message) returns (ts: seq<Trade>)
    ensures PrintsAdded(ProcessAll(ms).trades, ProcessAll(ms + [m]).trades, m, ts)
    ensures TradesFold(OfSymbol(ms + [m], m.symbol)) == TradesFold(OfSymbol(ms, m.symbol)) + ts
  {
    ts := Apply(BookOf(ProcessAll(ms), m.symbol), m.command).trades;
    ProcessSnoc(ms, m);
    ProcessAdds(ProcessAll(ms), m);
    BookIsFold(ms, m.symbol);
    FoldStep(ms, m, m.symbol);
  }

  predicate TopsRise(tops: seq<Top>, limit: int) {
    && (forall i, j | 0 <= i < j < |tops| :: tops[i].sequence < tops[j].sequence)
    && (forall i | 0 <= i < |tops| :: tops[i].sequence <= limit)
  }

  predicate TradesRise(trades: seq<TradeExecution>, limit: int) {
    && (forall i, j | 0 <= i < j < |trades| :: trades[i].sequence <= trades[j].sequence)
    && (forall i | 0 <= i < |trades| :: trades[i].sequence <= limit)
  }

  function LastSequence(ms: seq<Message>): int {
    if ms == [] then -1 else ms[|ms| - 1].sequence
  }

  lemma RiseFurther(tops: seq<Top>, limit: int, last: Top, update: Top, trades: seq<TradeExecution>, m: Message,
                    ts: seq<Trade>)
    requires TopsRise(tops, limit) && TradesRise(trades, limit) && limit < m.sequence && update.sequence == m.sequence
    ensures TopsRise(tops + Published(last, update), m.sequence)
    ensures TradesRise(trades + Prints(m, ts), m.sequence)
  {
  }

  /** With rising message numbers, update numbers rise strictly and trade numbers never fall, over all symbols of
      the shard, and none is beyond the last message. */
  lemma {:induction false} PublishedSequences(ms: seq<Message>)
    requires Increasing(ms)
    ensures TopsRise(ProcessAll(ms).tops, LastSequence(ms))
    ensures TradesRise(ProcessAll(ms).trades, LastSequence(ms))
  {
    if ms != [] {
      var front, m := ms[..|ms| - 1], ms[|ms| - 1];
      PublishedSequences(front);
      var s := ProcessAll(front);
      var update := MakeTop(BookAfter(BookOf(s, m.symbol), m.command), m.symbol, m.sequence);
      RiseFurther(s.tops, LastSequence(front), LastTop(s, m.symbol), update, s.trades, m,
                  Apply(BookOf(s, m.symbol), m.command).trades);
    }
  }

  // ---- the worker ----

  class Shard {
    var books: map<SymbolId, SoundBook>
    var lastTop: map<SymbolId, Top>
    var outbound: seq<Top>
    var tradeOutbound: seq<TradeExecution>
    var inbound: seq<Message>

    constructor ()
      ensures State() == NEW_SHARD && inbound == []
    {
      books, lastTop, outbound, tradeOutbound, inbound := map[], map[], [], [], [];
    }

    function State(): ShardState
      reads this
    {
      ShardState(books, lastTop, outbound, tradeOutbound)
    }

    method ProcessOne(message: Message)
      modifies this`books, this`lastTop, this`outbound, this`tradeOutbound
      ensures State() == Process(old(State()), message)
    {
      if message.symbol !in books {
        books := books[message.symbol := EMPTY_BOOK];
      }
      ApplyProper(books[message.symbol], message.command);
      var outcome := Apply(books[message.symbol], message.command);
      books := books[message.symbol := outcome.book];
      PublishTrades(message, outcome.trades);
      PublishTop(MakeTop(outcome.book, message.symbol, message.sequence));
    }

    method PublishTop(update: Top)
      modifies this`lastTop, this`outbound
      ensures var last := LastTop(old(State()), update.symbol);
              && lastTop == old(lastTop)[update.symbol := Remembered(last, update)]
              && outbound == old(outbound) + Published(last, update)
      ensures var last := LastTop(old(State()), update.symbol);
              outbound == old(outbound) + if last.symbol != update.symbol || Differ(last, update) then [update] else []
    {
      if update.symbol !in lastTop {
        lastTop := lastTop[update.symbol := EmptyTop(0)];
      }
      if !SameTop(lastTop[update.symbol], update) {
        lastTop := lastTop[update.symbol := update];
        outbound := outbound + [update];
      }
    }

    method PublishTrades(message: Message, trades: seq<Trade>)
      modifies this`tradeOutbound
      ensures tradeOutbound == old(tradeOutbound) + Prints(message, trades)
      ensures forall i | 0 <= i < |trades| ::
                var t := trades[i];
                tradeOutbound[|old(tradeOutbound)| + i] ==
                TradeExecution(message.symbol, message.sequence, t.bid.orderId, t.bid.price, t.ask.orderId, t.ask.price,
                               t.bid.quantity)
    {
      ghost var before, prints := tradeOutbound, Prints(message, trades);
      for i := 0 to |trades|
        invariant tradeOutbound == before + prints[..i]
      {
        assert prints[..i + 1] == prints[..i] + [prints[i]];
        tradeOutbound := tradeOutbound + [PrintOf(message, trades[i])];
      }
      assert prints[..|trades|] == prints;
    }

    /** Takes the front message of the inbound ring and processes it. */
    method Advance(ghost done: seq<Message>)
      requires inbound != [] && State() == ProcessAll(done)
      modifies this
      ensures inbound == old(inbound)[1..] && State() == ProcessAll(done + [old(inbound)[0]])
    {
      var message := inbound[0];
      ProcessSnoc(done, message);
      inbound := inbound[1..];
      ProcessOne(message);
    }

    /** Everything left in the inbound ring, in order. */
    method Drain(ghost done: seq<Message>)
      requires State() == ProcessAll(done)
      modifies this
      ensures inbound == [] && State() == ProcessAll(done + old(inbound))
    {
      ghost var all, count := done + inbound, done;
      while inbound != []
        invariant count + inbound == all
        invariant State() == ProcessAll(count)
        decreases |inbound|
      {
        MoveOne(count, inbound);
        ghost var next := count + [inbound[0]];
        Advance(count);
        count := next;
      }
      assert count + [] == count;
    }
  }

  lemma MoveOne<T>(done: seq<T>, left: seq<T>)
    requires left != []
    ensures (done + [left[0]]) + left[1..] == done + left
  {
  }

  lemma ProcessSnoc(ms: seq<Message>, m: Message)
    ensures ProcessAll(ms + [m]) == Process(ProcessAll(ms), m)
  {
    assert (ms + [m])[..|ms|] == ms;
  }
}
