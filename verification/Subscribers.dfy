/** A subscriber polling many lossy cursors, and its final drain while the producers are at rest. */
module Subscribers {
  import opened Domain
  import opened RingProtocol
  import opened RingSafety
  import opened RingDelivery
  import opened RingBuffers

  /** An event handed to the subscriber; the model also notes which source it came from. */
  datatype Event<T> = Event(source: nat, value: T)

  /** The values received from one source, in order. */
  function From<T>(events: seq<Event<T>>, source: nat): seq<T> {
    if events == [] then []
    else
      var n := |events| - 1;
      From(events[..n], source) + if events[n].source == source then [events[n].value] else []
  }

  lemma FromSnoc<T>(events: seq<Event<T>>, e: Event<T>, source: nat)
    ensures From(events + [e], source) == From(events, source) + if e.source == source then [e.value] else []
  {
    assert (events + [e])[..|events|] == events;
  }

  // ---- one source, seen as values ----

  /** A cursor that has not run ahead of its ring, whose producer is at rest. */
  ghost predicate Fit<T>(k: Core<T>, c: Consumer<T>) {
    GoodCore(k) && k.producer.Idle? && c.pc.Ready? && c.policy.Lossy? && c.position <= k.published
  }

  /** What one poll takes from the source. */
  ghost function Taken<T>(k: Core<T>, c: Consumer<T>): seq<T>
    requires Fit(k, c)
  {
    if c.position < k.published then [k.pushes[CatchUp(k, c)]] else []
  }

  /** Since the drain began at `c0` with `got0`, the source gave its items from the catch-up point on, in order. */
  ghost predicate Draining<T>(k: Core<T>, c0: Consumer<T>, got0: seq<T>, c: Consumer<T>, got: seq<T>)
    requires Fit(k, c0)
  {
    var start := CatchUp(k, c0);
    && Fit(k, c)
    && if c.position == c0.position then c.dropped == c0.dropped && got == got0
       else
         && start < c.position && c.dropped == c0.dropped + (start - c0.position)
         && got == got0 + k.pushes[start..c.position]
  }

  lemma OneSlice<T>(s: seq<T>, i: nat)
    requires i < |s|
    ensures s[i..i + 1] == [s[i]]
  {
  }

  lemma FirstTaken<T>(k: Core<T>, c0: Consumer<T>, got0: seq<T>, c: Consumer<T>, got: seq<T>)
    requires Fit(k, c0) && Draining(k, c0, got0, c, got) && c.position == c0.position && c.position < k.published
    ensures Draining(k, c0, got0, SoloRead(k, c), got + Taken(k, c))
  {
    SoloReadMeans(k, c);
    var start := CatchUp(k, c0);
    assert CatchUp(k, c) == start;
    OneSlice(k.pushes, start);
  }

  lemma MoreTaken<T>(k: Core<T>, c0: Consumer<T>, got0: seq<T>, c: Consumer<T>, got: seq<T>)
    requires Fit(k, c0) && Draining(k, c0, got0, c, got) && c.position != c0.position && c.position < k.published
    ensures Draining(k, c0, got0, SoloRead(k, c), got + Taken(k, c))
  {
    SoloReadMeans(k, c);
    var start, s := CatchUp(k, c0), c.position;
    assert CatchUp(k, c) == s;
    assert k.pushes[start..s + 1] == k.pushes[start..s] + [k.pushes[s]];
    assert got0 + k.pushes[start..s] + [k.pushes[s]] == got0 + k.pushes[start..s + 1];
  }

  lemma DrainStep<T>(k: Core<T>, c0: Consumer<T>, got0: seq<T>, c: Consumer<T>, got: seq<T>)
    requires Fit(k, c0) && Draining(k, c0, got0, c, got)
    ensures Draining(k, c0, got0, SoloRead(k, c), got + Taken(k, c))
  {
    if c.position >= k.published {
      ReadStaysFit(k, c);
      assert got + [] == got;
    } else if c.position == c0.position {
      FirstTaken(k, c0, got0, c, got);
    } else {
      MoreTaken(k, c0, got0, c, got);
    }
  }

  /** A drained source gave exactly its last min(capacity, backlog) items and counted the others as dropped. */
  ghost predicate Drained<T>(k: Core<T>, c0: Consumer<T>, got0: seq<T>, c: Consumer<T>, got: seq<T>)
    requires Fit(k, c0)
  {
    var backlog := k.published - c0.position;
    var taken := if backlog <= |k.slots| then backlog else |k.slots|;
    && c.position == k.published
    && got == got0 + k.pushes[k.published - taken..k.published]
    && c.dropped == c0.dropped + (backlog - taken)
  }

  lemma DrainEnds<T>(k: Core<T>, c0: Consumer<T>, got0: seq<T>, c: Consumer<T>, got: seq<T>)
    requires Fit(k, c0) && Draining(k, c0, got0, c, got) && c.position >= k.published
    ensures Drained(k, c0, got0, c, got)
  {
    if c.position == c0.position {
      assert k.pushes[k.published..k.published] == [];
    }
  }

  /** Items still unread over all sources: the measure of the drain loop. */
  ghost function Backlog<T>(ks: seq<Core<T>>, cs: seq<Consumer<T>>): nat
    requires |ks| == |cs| && forall i | 0 <= i < |ks| :: Fit(ks[i], cs[i])
  {
    if ks == [] then 0
    else
      assert Fit(ks[0], cs[0]);
      ks[0].published - cs[0].position + Backlog(ks[1..], cs[1..])
  }

  lemma {:induction false} BacklogShrinks<T>(ks: seq<Core<T>>, cs: seq<Consumer<T>>, cs': seq<Consumer<T>>)
    requires |ks| == |cs| == |cs'| && forall i | 0 <= i < |ks| :: Fit(ks[i], cs[i]) && Fit(ks[i], cs'[i])
    requires forall i | 0 <= i < |ks| :: cs'[i].position >= cs[i].position
    ensures Backlog(ks, cs') <= Backlog(ks, cs)
    ensures (exists i :: 0 <= i < |ks| && cs'[i].position > cs[i].position) ==> Backlog(ks, cs') < Backlog(ks, cs)
  {
    if ks != [] {
      BacklogShrinks(ks[1..], cs[1..], cs'[1..]);
      assert forall i | 1 <= i < |ks| :: cs[i] == cs[1..][i - 1] && cs'[i] == cs'[1..][i - 1];
    }
  }

  ghost predicate AllFit<T>(ks: seq<Core<T>>, cs: seq<Consumer<T>>) {
    |ks| == |cs| && forall i | 0 <= i < |ks| :: Fit(ks[i], cs[i])
  }

  lemma ReadStaysFit<T>(k: Core<T>, c: Consumer<T>)
    requires Fit(k, c)
    ensures Fit(k, SoloRead(k, c)) && SoloRead(k, c).position >= c.position
    ensures c.position < k.published ==> SoloRead(k, c).position > c.position
    ensures c.position >= k.published ==> SoloRead(k, c) == c
  {
    SoloReadMeans(k, c);
  }

  /** What reading source `i` once adds to the events. */
  ghost function Once<T>(k: Core<T>, c: Consumer<T>, i: nat): seq<Event<T>>
    requires Fit(k, c)
  {
    if c.position < k.published then [Event(i, k.pushes[CatchUp(k, c)])] else []
  }

  /** What reading the first `n` sources once adds: at most one event each, in the order of the sources. */
  ghost function Round<T>(ks: seq<Core<T>>, cs: seq<Consumer<T>>, n: nat): seq<Event<T>>
    requires AllFit(ks, cs) && n <= |cs|
  {
    if n == 0 then [] else Round(ks, cs, n - 1) + Once(ks[n - 1], cs[n - 1], n - 1)
  }

  ghost predicate InOrder<T>(ks: seq<Core<T>>, cs: seq<Consumer<T>>, es: seq<Event<T>>, events: seq<Event<T>>, n: nat)
    requires AllFit(ks, cs)
  {
    n <= |cs| && events == es + Round(ks, cs, n)
  }

  lemma InOrderFurther<T>(ks: seq<Core<T>>, cs: seq<Consumer<T>>, es: seq<Event<T>>, events: seq<Event<T>>, n: nat)
    requires AllFit(ks, cs) && n < |cs| && InOrder(ks, cs, es, events, n)
    ensures InOrder(ks, cs, es, events + Once(ks[n], cs[n], n), n + 1)
  {
    var done, once := Round(ks, cs, n), Once(ks[n], cs[n], n);
    assert es + done + once == es + (done + once);
  }

  /** The first `n` sources have been read once since the sources were `cs` and the events `es`. */
  ghost predicate PolledTo<T>(ks: seq<Core<T>>, cs: seq<Consumer<T>>, es: seq<Event<T>>, sources: seq<Consumer<T>>,
                              events: seq<Event<T>>, n: nat)
    requires AllFit(ks, cs)
  {
    && |sources| == |cs|
    && (forall j | 0 <= j < |cs| :: sources[j] == if j < n then SoloRead(ks[j], cs[j]) else cs[j])
    && (forall j | 0 <= j < |cs| :: From(events, j) == From(es, j) + if j < n then Taken(ks[j], cs[j]) else [])
  }

  lemma PolledFurther<T>(ks: seq<Core<T>>, cs: seq<Consumer<T>>, es: seq<Event<T>>, sources: seq<Consumer<T>>,
                         events: seq<Event<T>>, n: nat, events': seq<Event<T>>)
    requires AllFit(ks, cs) && n < |cs| && PolledTo(ks, cs, es, sources, events, n)
    requires forall j: nat | j < |cs| ::
               From(events', j) == From(events, j) + if j == n then Taken(ks[n], cs[n]) else []
    ensures PolledTo(ks, cs, es, sources[n := SoloRead(ks[n], cs[n])], events', n + 1)
  {
  }

  /** Some of the first `n` sources has an item the cursor has not read. */
  ghost predicate SomeUnread<T>(ks: seq<Core<T>>, cs: seq<Consumer<T>>, n: nat)
    requires AllFit(ks, cs)
  {
    exists i :: 0 <= i < n && i < |cs| && cs[i].position < ks[i].published
  }

  ghost predicate Rounding<T>(ks: seq<Core<T>>, cs: seq<Consumer<T>>, es: seq<Event<T>>, sources: seq<Consumer<T>>,
                              events: seq<Event<T>>, n: nat, progressed: bool)
    requires AllFit(ks, cs)
  {
    && PolledTo(ks, cs, es, sources, events, n) && InOrder(ks, cs, es, events, n)
    && (progressed <==> SomeUnread(ks, cs, n))
  }

  lemma RoundingFurther<T>(ks: seq<Core<T>>, cs: seq<Consumer<T>>, es: seq<Event<T>>, sources: seq<Consumer<T>>,
                           events: seq<Event<T>>, n: nat, progressed: bool, events': seq<Event<T>>)
    requires AllFit(ks, cs) && n < |cs| && Rounding(ks, cs, es, sources, events, n, progressed)
    requires forall j: nat | j < |cs| ::
               From(events', j) == From(events, j) + if j == n then Taken(ks[n], cs[n]) else []
    requires events' == events + Once(ks[n], cs[n], n)
    ensures Rounding(ks, cs, es, sources[n := SoloRead(ks[n], cs[n])], events', n + 1,
                     progressed || cs[n].position < ks[n].published)
  {
    PolledFurther(ks, cs, es, sources, events, n, events');
    InOrderFurther(ks, cs, es, events, n);
  }

  ghost predicate AllDraining<T>(ks: seq<Core<T>>, c0: seq<Consumer<T>>, e0: seq<Event<T>>, cs: seq<Consumer<T>>,
                                 es: seq<Event<T>>)
    requires AllFit(ks, c0)
  {
    |cs| == |c0| && forall i | 0 <= i < |c0| :: Draining(ks[i], c0[i], From(e0, i), cs[i], From(es, i))
  }

  /** One round over all sources goes on with every drain and, if any source had something, shrinks the backlog. */
  lemma RoundDrains<T>(ks: seq<Core<T>>, c0: seq<Consumer<T>>, e0: seq<Event<T>>, cs: seq<Consumer<T>>,
                       es: seq<Event<T>>, cs': seq<Consumer<T>>, es': seq<Event<T>>)
    requires AllFit(ks, c0) && AllFit(ks, cs) && AllFit(ks, cs') && AllDraining(ks, c0, e0, cs, es)
    requires PolledTo(ks, cs, es, cs', es', |cs|)
    ensures AllDraining(ks, c0, e0, cs', es')
    ensures Backlog(ks, cs') <= Backlog(ks, cs)
    ensures SomeUnread(ks, cs, |cs|) ==> Backlog(ks, cs') < Backlog(ks, cs)
    ensures !SomeUnread(ks, cs, |cs|) ==> forall i | 0 <= i < |cs| :: cs'[i].position >= ks[i].published
  {
    forall i | 0 <= i < |c0| ensures Draining(ks[i], c0[i], From(e0, i), cs'[i], From(es', i)) {
      DrainStep(ks[i], c0[i], From(e0, i), cs[i], From(es, i));
    }
    forall i | 0 <= i < |cs|
      ensures cs'[i].position >= cs[i].position
      ensures cs[i].position < ks[i].published ==> cs'[i].position > cs[i].position
    {
      ReadStaysFit(ks[i], cs[i]);
    }
    BacklogShrinks(ks, cs, cs');
  }

  class Subscriber<T(0)> {
    const cursors: seq<Cursor<T>>
    var events: seq<Event<T>>
    // What the rings and the cursors hold, as values.
    ghost var rings: seq<Core<T>>
    ghost var sources: seq<Consumer<T>>

    ghost function Objects(): (objects: set<object>)
      ensures forall i | 0 <= i < |cursors| ::
                cursors[i] in objects && cursors[i].owner in objects && cursors[i].owner.slots in objects
    {
      assert forall i | 0 <= i < |cursors| :: cursors[i] in cursors;
      (set c | c in cursors :: c as object) + (set c | c in cursors :: c.owner as object) +
      (set c | c in cursors :: c.owner.slots as object)
    }

    ghost predicate Valid()
      reads this, Objects()
    {
      && |cursors| == |sources| && AllFit(rings, sources)
      && (forall i | 0 <= i < |cursors| :: Mirrored(i))
      && (forall i, j | 0 <= i < j < |cursors| :: cursors[i] != cursors[j])
    }

    ghost predicate Mirrored(i: nat)
      requires i < |cursors|
      reads this, cursors[i], cursors[i].owner, cursors[i].owner.slots
    {
      && i < |rings| && i < |sources|
      && cursors[i].Valid() && cursors[i].owner.View() == rings[i] && cursors[i].View() == sources[i]
    }

    constructor (cursors: seq<Cursor<T>>, ghost rings: seq<Core<T>>, ghost sources: seq<Consumer<T>>)
      requires |cursors| == |sources| && AllFit(rings, sources)
      requires forall i | 0 <= i < |cursors| ::
                 cursors[i].Valid() && cursors[i].owner.View() == rings[i] && cursors[i].View() == sources[i]
      requires forall i, j | 0 <= i < j < |cursors| :: cursors[i] != cursors[j]
      ensures Valid() && this.cursors == cursors && this.rings == rings && this.sources == sources && events == []
    {
      this.cursors, this.rings, this.sources, events := cursors, rings, sources, [];
    }

    /** try_read on source `i`. */
    method TryRead(i: nat) returns (out: Option<T>)
      requires Valid() && i < |sources|
      modifies cursors[i], this`sources
      ensures Valid() && sources == old(sources)[i := SoloRead(rings[i], old(sources[i]))]
      ensures out.Some? <==> old(sources[i].position) < rings[i].published
      ensures Taken(rings[i], old(sources[i])) == match out case Some(v) => [v] case None => []
    {
      assert Mirrored(i);
      ReadStaysFit(rings[i], sources[i]);
      var result;
      result, out := cursors[i].TryRead();
      sources := sources[i := SoloRead(rings[i], sources[i])];
      forall j | 0 <= j < |cursors| ensures Mirrored(j) {
        assert old(Mirrored(j));
      }
    }

    /** Reads at most one item from source `i` and passes it on. */
    method PollSource(i: nat) returns (progressed: bool)
      requires Valid() && i < |sources|
      modifies cursors[i], this`events, this`sources
      ensures Valid() && sources == old(sources)[i := SoloRead(rings[i], old(sources[i]))]
      ensures progressed <==> old(sources[i].position) < rings[i].published
      ensures forall j: nat ::
                From(events, j) == From(old(events), j) + if j == i then Taken(rings[i], old(sources[i])) else []
      ensures events == old(events) + Once(rings[i], old(sources[i]), i)
    {
      var out := TryRead(i);
      if out.Some? {
        Handle(i, out.value);
      }
      return out.Some?;
    }

    /** One turn of the polling loop: source `i`, after the sources before it were read once since `cs` and `es`. */
    method PollNext(i: nat, before: bool, ghost cs: seq<Consumer<T>>, ghost es: seq<Event<T>>)
      returns (progressed: bool)
      requires Valid() && i < |cursors| && AllFit(rings, cs) && Rounding(rings, cs, es, sources, events, i, before)
      modifies cursors[i], this`events, this`sources
      ensures Valid() && Rounding(rings, cs, es, sources, events, i + 1, progressed)
    {
      ghost var sources0, events0 := sources, events;
      var one := PollSource(i);
      RoundingFurther(rings, cs, es, sources0, events0, i, before, events);
      progressed := before || one;
    }

    /** Reads at most one item from each source. */
    method PollAllSourcesOnce() returns (progressed: bool)
      requires Valid()
      modifies this`events, this`sources, set c | c in cursors :: c
      ensures Valid() && |sources| == old(|sources|) && AllFit(rings, old(sources))
      ensures PolledTo(rings, old(sources), old(events), sources, events, |old(sources)|)
      ensures InOrder(rings, old(sources), old(events), events, |old(sources)|)
      ensures progressed <==> SomeUnread(rings, old(sources), |old(sources)|)
    {
      ghost var cs, es := sources, events;
      progressed := false;
      for i := 0 to |cursors|
        invariant Valid() && AllFit(rings, cs) && Rounding(rings, cs, es, sources, events, i, progressed)
      {
        assert cursors[i] in cursors;
        progressed := PollNext(i, progressed, cs, es);
      }
    }

    /** Passes one value on. */
    method Handle(i: nat, value: T)
      requires Valid()
      modifies this`events
      ensures Valid()
      ensures events == old(events) + [Event(i, value)]
      ensures forall j: nat :: From(events, j) == From(old(events), j) + if i == j then [value] else []
    {
      forall j: nat ensures From(events + [Event(i, value)], j) == From(events, j) + if i == j then [value] else [] {
        FromSnoc(events, Event(i, value), j);
      }
      events := events + [Event(i, value)];
      assert forall j | 0 <= j < |cursors| :: old(Mirrored(j)) ==> Mirrored(j);
    }

    /** The drain loop of stop. */
    method Drain()
      requires Valid()
      modifies this`events, this`sources, set c | c in cursors :: c
      ensures Valid() && |sources| == old(|sources|)
      ensures forall i | 0 <= i < |sources| ::
                Drained(rings[i], old(sources)[i], From(old(events), i), sources[i], From(events, i))
    {
      ghost var c0, e0 := sources, events;
      var more := true;
      while more
        invariant Valid() && AllFit(rings, c0) && AllDraining(rings, c0, e0, sources, events)
        invariant !more ==> forall i | 0 <= i < |c0| :: sources[i].position >= rings[i].published
        decreases Backlog(rings, sources), more
      {
        ghost var cs, es := sources, events;
        more := PollAllSourcesOnce();
        RoundDrains(rings, c0, e0, cs, es, sources, events);
      }
      forall i | 0 <= i < |c0|
        ensures Drained(rings[i], c0[i], From(e0, i), sources[i], From(events, i))
      {
        DrainEnds(rings[i], c0[i], From(e0, i), sources[i], From(events, i));
      }
    }
  }
}
