/** What each field of a flow says of the events it was made from. */
module FlowLaws {
  import opened Text
  import opened Sorting
  import opened Events
  import opened Ordering
  import opened Identifiers
  import opened Materializing
  import opened Closing

  // ---- the events ----

  /** Known layers before unknown ones and by their place on the request path, within a layer by time, then by id. */
  ghost predicate InCausalOrder(a: Event, b: Event) {
    && (b.layer.Known() ==> a.layer.Known() && a.layer.Order() <= b.layer.Order())
    && ((a.layer == b.layer || (!a.layer.Known() && !b.layer.Known())) ==>
          a.eventTime < b.eventTime || (a.eventTime == b.eventTime && AtMost(a.eventID, b.eventID)))
  }

  lemma NotAfterIsCausal(a: Event, b: Event)
    ensures NotAfter(a, b) ==> InCausalOrder(a, b)
  {
    LessTotal(a.eventID, b.eventID);
  }

  /** The flow holds its events, each as often as given, in causal order. */
  lemma EventsInOrder(key: string, events: seq<Event>, o: Options)
    requires events != []
    ensures Materialized(key, events, o).Some?
    ensures var f := Materialized(key, events, o).value;
      && multiset(f.events) == multiset(events)
      && forall i, j | 0 <= i < j < |f.events| :: InCausalOrder(f.events[i], f.events[j])
  {
    var ordered := OrderEvents(events);
    NotAfterIsTotal();
    SortSorted(NotAfter, events);
    hide NotAfter, InCausalOrder;
    forall i, j | 0 <= i < j < |ordered|
      ensures InCausalOrder(ordered[i], ordered[j])
    {
      NotAfterIsCausal(ordered[i], ordered[j]);
    }
  }

  // ---- the labels ----

  /** Different keys never share a flow id. */
  lemma FlowIDsDiffer(key: string, other: string)
    ensures FlowID(key) == FlowID(other) ==> key == other
    ensures "flow:" <= FlowID(key)
  {
    assert FlowID(key)[5..] == key && FlowID(other)[5..] == other;
  }

  /** What the caller says of a flow is copied; a new flow is not amended. */
  lemma Labels(key: string, events: seq<Event>, o: Options)
    requires events != []
    ensures Materialized(key, events, o).Some?
    ensures var f := Materialized(key, events, o).value;
      && f.flowID == FlowID(key) && f.correlationKey == key && f.tenant == o.tenant && f.tier == o.tier
      && f.bridged == o.bridged && !f.amended && f.closedAt == if o.closed then Some(o.now) else None
  {
  }

  lemma OutcomePart(key: string, events: seq<Event>, o: Options)
    requires events != [] && OrderEvents(events) != []
    ensures Materialized(key, events, o).Some?
    ensures var f := Materialized(key, events, o).value;
      (f.effectiveOutcome, f.terminatingLayer) == Outcome(OrderEvents(events))
  {
  }

  lemma LayerParts(key: string, events: seq<Event>, o: Options)
    requires events != [] && OrderEvents(events) != []
    ensures Materialized(key, events, o).Some?
    ensures var f, ordered := Materialized(key, events, o).value, OrderEvents(events);
      f.layersPresent == Present(ordered, Judged(ordered, o)) && f.layersMissing == Missing(ordered, Judged(ordered, o))
  {
  }

  // ---- the outcome ----

  lemma OutcomeAt(ordered: seq<Event>, i: nat)
    requires i < |ordered| && FirstTerminating(ordered) == i
    ensures ordered != [] && Outcome(ordered) == (ordered[i].verdict.action, ordered[i].layer)
  {
  }

  /** The terminating event that no other comes before decides what happened and where. */
  lemma FirstStopDecides(key: string, events: seq<Event>, e: Event, o: Options)
    requires DistinctIDs(events) && StopsFirst(events, e)
    ensures Materialized(key, events, o).Some?
    ensures var f := Materialized(key, events, o).value;
      f.effectiveOutcome == e.verdict.action && f.terminatingLayer == e.layer
  {
    assert events != [];
    OrderedFacts(events);
    NotAfterIsTotal();
    DistinctTies(events);
    hide NotAfter;
    var ordered := OrderEvents(events);
    assert StopsFirst(ordered, e);
    OnlyFirst(ordered, e);
    OutcomeAt(ordered, FirstTerminating(ordered));
    OutcomePart(key, events, o);
  }

  lemma {:induction false} NoneTerminates(ordered: seq<Event>)
    requires forall e | e in ordered :: !e.verdict.terminating
    ensures FirstTerminating(ordered) == |ordered|
  {
    if ordered != [] {
      assert ordered[0] in ordered;
      NoneTerminates(ordered[1..]);
    }
  }

  lemma LastIsLatest(ordered: seq<Event>, e: Event)
    requires Sorted(NotAfter, ordered) && TiesEqual(NotAfter, ordered) && e in ordered
    requires forall f | f in ordered :: NotAfter(f, e)
    ensures ordered[|ordered| - 1] == e
  {
    hide NotAfter;
    var last := ordered[|ordered| - 1];
    assert last in ordered;
    var j :| 0 <= j < |ordered| && ordered[j] == e;
    assert j < |ordered| - 1 ==> NotAfter(e, last);
  }

  lemma LastActs(ordered: seq<Event>)
    requires ordered != [] && FirstTerminating(ordered) == |ordered|
    ensures Outcome(ordered) == (ordered[|ordered| - 1].verdict.action, NO_LAYER)
  {
  }

  /** When nothing stops the request, the event that comes after all others says what happened. */
  lemma LastDecides(key: string, events: seq<Event>, e: Event, o: Options)
    requires DistinctIDs(events) && e in events
    requires forall f | f in events :: !f.verdict.terminating && NotAfter(f, e)
    ensures Materialized(key, events, o).Some?
    ensures var f := Materialized(key, events, o).value;
      f.effectiveOutcome == e.verdict.action && f.terminatingLayer == NO_LAYER
  {
    hide NotAfter, OrderEvents, Materialized, Outcome, FirstTerminating;
    OrderedFacts(events);
    DistinctTies(events);
    var ordered := OrderEvents(events);
    NoneTerminates(ordered);
    OutcomePart(key, events, o);
    LastIsLatest(ordered, e);
    LastActs(ordered);
  }

  // ---- the span ----

  lemma {:induction false} SpanIs(events: seq<Event>)
    ensures var (first, last) := Span(events);
      && (forall e | e in events && e.eventTime != 0 :: first != 0 && first <= e.eventTime <= last)
      && (first != 0 ==> exists e | e in events :: e.eventTime == first)
      && (last != 0 ==> exists e | e in events :: e.eventTime == last) && last >= 0
  {
    if events != [] {
      var n := |events| - 1;
      SpanIs(events[..n]);
      assert events == events[..n] + [events[n]];
      assert events[n] in events;
    }
  }

  /** First and last seen are the extreme times of the events that have one, and zero when none has. */
  lemma SeenSpan(key: string, events: seq<Event>, o: Options)
    requires events != []
    ensures Materialized(key, events, o).Some?
    ensures var f := Materialized(key, events, o).value;
      && (forall e | e in events && e.eventTime != 0 :: f.firstSeen != 0 && f.firstSeen <= e.eventTime <= f.lastSeen)
      && (f.firstSeen != 0 ==> exists e | e in events :: e.eventTime == f.firstSeen)
      && (f.lastSeen != 0 ==> exists e | e in events :: e.eventTime == f.lastSeen) && f.lastSeen >= 0
  {
    OrderedFacts(events);
    SpanIs(OrderEvents(events));
  }

  // ---- the time spent in each layer ----

  /** What an event adds to its layer's time. */
  function SpentAt(e: Event, l: Layer): real {
    if e.layer == l && e.response.durationMS > 0.0 then e.response.durationMS else 0.0
  }

  function Spent(events: seq<Event>, l: Layer): real {
    if events == [] then 0.0 else SpentAt(events[0], l) + Spent(events[1..], l)
  }

  lemma {:induction false} SpentAppend(xs: seq<Event>, ys: seq<Event>, l: Layer)
    ensures Spent(xs + ys, l) == Spent(xs, l) + Spent(ys, l)
  {
    if xs == [] {
      assert xs + ys == ys;
    } else {
      SpentAppend(xs[1..], ys, l);
      assert (xs + ys)[1..] == xs[1..] + ys;
    }
  }

  lemma SpentOne(e: Event, l: Layer)
    ensures Spent([e], l) == SpentAt(e, l)
  {
    assert [e][1..] == [];
  }

  lemma {:induction false} SpentPermuted(xs: seq<Event>, ys: seq<Event>, l: Layer)
    requires multiset(xs) == multiset(ys)
    ensures Spent(xs, l) == Spent(ys, l)
    decreases |xs|
  {
    if xs == [] {
      assert |multiset(ys)| == 0;
    } else {
      var n := |xs| - 1;
      var j := TakeOut(xs, ys);
      SpentPermuted(xs[..n], ys[..j] + ys[j + 1..], l);
      assert xs == xs[..n] + [xs[n]];
      SpentAppend(xs[..n], [xs[n]], l);
      SpentAppend(ys[..j], ys[j + 1..], l);
      SpentAppend(ys[..j], [ys[j]], l);
      SpentAppend(ys[..j] + [ys[j]], ys[j + 1..], l);
    }
  }

  lemma TimingSnoc(events: seq<Event>, l: Layer)
    requires events != []
    ensures var n := |events| - 1; var before, after := Timing(events[..n]), Timing(events);
      && (l in after <==> l in before || SpentAt(events[n], l) > 0.0)
      && (l in after ==> after[l] == (if l in before then before[l] else 0.0) + SpentAt(events[n], l))
  {
  }

  lemma NoTime(l: Layer)
    ensures l !in Timing([]) && Spent([], l) == 0.0
  {
  }

  ghost predicate SpendsTime(events: seq<Event>, l: Layer) {
    exists e | e in events :: e.layer == l && e.response.durationMS > 0.0
  }

  lemma NothingSpends(l: Layer)
    ensures !SpendsTime([], l)
  {
  }

  lemma SpendsMore(events: seq<Event>, l: Layer)
    requires events != []
    ensures var n := |events| - 1; SpendsTime(events, l) <==> SpendsTime(events[..n], l) || SpentAt(events[n], l) > 0.0
  {
    assert events == events[..|events| - 1] + [events[|events| - 1]];
  }

  lemma {:induction false} TimingIs(events: seq<Event>, l: Layer)
    ensures l in Timing(events) <==> SpendsTime(events, l)
    ensures l in Timing(events) ==> Timing(events)[l] == Spent(events, l)
    ensures l !in Timing(events) ==> Spent(events, l) == 0.0
  {
    hide Timing, Spent, SpendsTime;
    if events == [] {
      NoTime(l);
      NothingSpends(l);
    } else {
      var n := |events| - 1;
      TimingIs(events[..n], l);
      TimingSnoc(events, l);
      SpendsMore(events, l);
      assert events == events[..n] + [events[n]];
      SpentAppend(events[..n], [events[n]], l);
      SpentOne(events[n], l);
    }
  }

  /** A layer's time is the sum of its records' positive durations; a layer without any has none. */
  lemma TimeAttributed(key: string, events: seq<Event>, o: Options, l: Layer)
    requires events != []
    ensures Materialized(key, events, o).Some?
    ensures var f := Materialized(key, events, o).value;
      && (l in f.timing <==> exists e | e in events :: e.layer == l && e.response.durationMS > 0.0)
      && (l in f.timing ==> f.timing[l] == Spent(events, l))
  {
    OrderedFacts(events);
    TimingIs(OrderEvents(events), l);
    SpentPermuted(OrderEvents(events), events, l);
  }

  // ---- the attributes ----

  /** v is the first value that is there, or `none` when no value is. */
  ghost predicate FirstThere<T>(none: T, values: seq<T>, v: T) {
    if v == none then forall i | 0 <= i < |values| :: values[i] == none
    else exists i | 0 <= i < |values| :: values[i] == v && forall k | 0 <= k < i :: values[k] == none
  }

  function Column<T>(events: seq<Event>, field: Event -> T): (values: seq<T>)
    ensures |values| == |events| && forall i | 0 <= i < |events| :: values[i] == field(events[i])
  {
    seq(|events|, i requires 0 <= i < |events| => field(events[i]))
  }

  lemma FirstThereMore<T>(none: T, values: seq<T>, v: T, next: T)
    requires FirstThere(none, values, v)
    ensures FirstThere(none, values + [next], if v == none then next else v)
  {
    var all := values + [next];
    if v == none {
      assert all[|values|] == next;
    } else {
      var i :| 0 <= i < |values| && values[i] == v && forall k | 0 <= k < i :: values[k] == none;
      assert all[i] == v && forall k | 0 <= k < i :: all[k] == none;
    }
  }

  lemma ColumnSnoc<T>(events: seq<Event>, field: Event -> T)
    requires events != []
    ensures var n := |events| - 1; Column(events, field) == Column(events[..n], field) + [field(events[n])]
  {
  }

  ghost predicate ClientFrom(events: seq<Event>, c: Client) {
    && FirstThere("", Column(events, (e: Event) => e.client.ip), c.ip)
    && FirstThere(0, Column(events, (e: Event) => e.client.asn), c.asn)
    && FirstThere("", Column(events, (e: Event) => e.client.country), c.country)
    && FirstThere("", Column(events, (e: Event) => e.client.userAgent), c.userAgent)
  }

  ghost predicate RequestFrom(events: seq<Event>, r: Request) {
    && FirstThere("", Column(events, (e: Event) => e.request.verb), r.verb)
    && FirstThere("", Column(events, (e: Event) => e.request.host), r.host)
    && FirstThere("", Column(events, (e: Event) => e.request.path), r.path)
    && FirstThere("", Column(events, (e: Event) => e.request.query), r.query)
  }

  lemma MoreText(events: seq<Event>, field: Event -> string, v: string)
    requires events != [] && FirstThere("", Column(events[..|events| - 1], field), v)
    ensures FirstThere("", Column(events, field), Or(v, field(events[|events| - 1])))
  {
    hide FirstThere;
    ColumnSnoc(events, field);
    FirstThereMore("", Column(events[..|events| - 1], field), v, field(events[|events| - 1]));
  }

  lemma MoreNumber(events: seq<Event>, field: Event -> int, v: int)
    requires events != [] && FirstThere(0, Column(events[..|events| - 1], field), v)
    ensures FirstThere(0, Column(events, field), if v == 0 then field(events[|events| - 1]) else v)
  {
    hide FirstThere;
    ColumnSnoc(events, field);
    FirstThereMore(0, Column(events[..|events| - 1], field), v, field(events[|events| - 1]));
  }

  lemma ClientMore(events: seq<Event>, c: Client)
    requires events != [] && ClientFrom(events[..|events| - 1], c)
    ensures var e := events[|events| - 1];
      ClientFrom(events, Client(Or(c.ip, e.client.ip), if c.asn == 0 then e.client.asn else c.asn,
                                Or(c.country, e.client.country), Or(c.userAgent, e.client.userAgent)))
  {
    hide FirstThere, Column, Or;
    MoreText(events, (e: Event) => e.client.ip, c.ip);
    MoreNumber(events, (e: Event) => e.client.asn, c.asn);
    MoreText(events, (e: Event) => e.client.country, c.country);
    MoreText(events, (e: Event) => e.client.userAgent, c.userAgent);
  }

  lemma RequestMore(events: seq<Event>, r: Request)
    requires events != [] && RequestFrom(events[..|events| - 1], r)
    ensures var e := events[|events| - 1];
      RequestFrom(events, Request(Or(r.verb, e.request.verb), Or(r.host, e.request.host),
                                  Or(r.path, e.request.path), Or(r.query, e.request.query)))
  {
    hide FirstThere, Column, Or;
    MoreText(events, (e: Event) => e.request.verb, r.verb);
    MoreText(events, (e: Event) => e.request.host, r.host);
    MoreText(events, (e: Event) => e.request.path, r.path);
    MoreText(events, (e: Event) => e.request.query, r.query);
  }

  lemma {:induction false} LiftedIs(events: seq<Event>)
    ensures ClientFrom(events, Lifted(events).0) && RequestFrom(events, Lifted(events).1)
  {
    if events != [] {
      var n := |events| - 1;
      LiftedIs(events[..n]);
      hide ClientFrom, RequestFrom, Or;
      ClientMore(events, Lifted(events[..n]).0);
      RequestMore(events, Lifted(events[..n]).1);
    }
  }

  /** Each attribute of the client and the request is the first one in causal order that is there. */
  lemma FirstAttributeWins(key: string, events: seq<Event>, o: Options)
    requires events != []
    ensures Materialized(key, events, o).Some?
    ensures var f := Materialized(key, events, o).value;
      ClientFrom(f.events, f.client) && RequestFrom(f.events, f.request)
  {
    hide ClientFrom, RequestFrom;
    LiftedIs(OrderEvents(events));
  }

  // ---- the layers ----

  /** r is xs without the elements that are not wanted, in order: `at` says where each came from. */
  ghost predicate Selects<T>(xs: seq<T>, want: T -> bool, r: seq<T>, at: seq<nat>) {
    && |at| == |r|
    && (forall k | 0 <= k < |r| :: at[k] < |xs| && r[k] == xs[at[k]] && want(r[k]))
    && (forall j, k | 0 <= j < k < |r| :: at[j] < at[k])
    && forall i | 0 <= i < |xs| && want(xs[i]) :: exists k | 0 <= k < |r| :: at[k] == i
  }

  lemma FilterSnoc(layers: seq<Layer>, want: Layer -> bool)
    requires layers != []
    ensures var n := |layers| - 1;
      Filter(layers, want)
        == if want(layers[n]) then Filter(layers[..n], want) + [layers[n]] else Filter(layers[..n], want)
  {
  }

  lemma SelectsNone(want: Layer -> bool)
    ensures Selects([], want, Filter([], want), [])
  {
  }

  lemma SelectsMore<T>(xs: seq<T>, want: T -> bool, r: seq<T>, at: seq<nat>, x: T)
    requires Selects(xs, want, r, at)
    ensures want(x) ==> Selects(xs + [x], want, r + [x], at + [|xs|])
    ensures !want(x) ==> Selects(xs + [x], want, r, at)
  {
    var all, more := xs + [x], at + [|xs|];
    forall i | 0 <= i < |all| && want(all[i])
      ensures i < |xs| ==> exists k | 0 <= k < |r| :: at[k] == i == more[k]
    {
      if i < |xs| {
        assert want(xs[i]);
        var k :| 0 <= k < |r| && at[k] == i;
        assert more[k] == i;
      }
    }
    assert more[|r|] == |xs|;
  }

  lemma {:induction false} FilterSelects(layers: seq<Layer>, want: Layer -> bool) returns (at: seq<nat>)
    ensures Selects(layers, want, Filter(layers, want), at)
  {
    hide Filter, Selects;
    if layers == [] {
      at := [];
      SelectsNone(want);
    } else {
      var n := |layers| - 1;
      at := FilterSelects(layers[..n], want);
      FilterSnoc(layers, want);
      SelectsMore(layers[..n], want, Filter(layers[..n], want), at, layers[n]);
      assert layers == layers[..n] + [layers[n]];
      at := if want(layers[n]) then at + [n] else at;
    }
  }

  /** The layers a flow is judged on: the expected known ones down to its reach. */
  predicate IsJudged(reach: nat, l: Layer) {
    l.Known() && l.Order() <= reach
  }

  lemma FilterNone(p: Layer -> bool, q: Layer -> bool, both: Layer -> bool)
    ensures Filter(Filter([], p), q) == [] == Filter([], both)
  {
  }

  lemma {:induction false} FilterTwice(layers: seq<Layer>, p: Layer -> bool, q: Layer -> bool, both: Layer -> bool)
    requires forall l :: both(l) == (p(l) && q(l))
    ensures Filter(Filter(layers, p), q) == Filter(layers, both)
  {
    hide Filter;
    if layers == [] {
      FilterNone(p, q, both);
    } else {
      var n := |layers| - 1;
      FilterTwice(layers[..n], p, q, both);
      FilterSnoc(layers, p);
      FilterSnoc(layers, both);
      var was := Filter(layers[..n], p);
      if p(layers[n]) {
        FilterSnoc(was + [layers[n]], q);
        assert (was + [layers[n]])[..|was|] == was;
      }
    }
  }

  lemma LayersAre(events: seq<Event>, l: Layer)
    ensures l in Layers(events) <==> exists e | e in events :: e.layer == l
  {
    if e :| e in events && e.layer == l {
      var i :| 0 <= i < |events| && events[i] == e;
    }
    if l in Layers(events) {
      var i :| 0 <= i < |events| && events[i].layer == l;
      assert events[i] in events;
    }
  }

  lemma ReachIsLayer(reach: nat)
    ensures LayerAt(reach).Known() && (reach <= 3 ==> LayerAt(reach).Order() == reach)
  {
  }

  lemma JudgedIs(events: seq<Event>, o: Options)
    requires events != [] && DistinctIDs(events)
    ensures var ordered := OrderEvents(events);
      && ordered != []
      && Judged(ordered, o)
         == Filter(ExpectedIn(o), (l: Layer) => l.Known() && l.Order() <= LayerAt(Reach(events)).Order())
      && LayerAt(Reach(events)).Order() == Reach(events)
  {
    hide Stopped, ServedFromCache, Deepest, Boundary, Outcome, OrderEvents, Filter, ExpectedIn, LayerAt;
    OrderedFacts(events);
    BoundaryIsReach(events);
    ReachIsLayer(Reach(events));
  }

  lemma JudgedLayers(ordered: seq<Event>, events: seq<Event>, reach: nat)
    requires (forall e :: e in events <==> e in ordered) && LayerAt(reach).Order() == reach
    ensures forall l ::
      && (l in Layers(ordered) <==> exists e | e in events :: e.layer == l)
      && (IsJudged(reach, l) <==> l.Known() && l.Order() <= LayerAt(reach).Order())
  {
    forall l
      ensures l in Layers(ordered) <==> exists e | e in events :: e.layer == l
    {
      LayersAre(ordered, l);
    }
  }

  lemma PresentIn(ordered: seq<Event>, expected: seq<Layer>, judged: Layer -> bool, seen: Layer -> bool)
    requires forall l :: seen(l) == (judged(l) && l in Layers(ordered))
    ensures Present(ordered, Filter(expected, judged)) == Filter(expected, seen)
  {
    hide Filter, Layers;
    FilterTwice(expected, judged, (l: Layer) => l in Layers(ordered), seen);
  }

  lemma MissingIn(ordered: seq<Event>, expected: seq<Layer>, judged: Layer -> bool, unseen: Layer -> bool)
    requires forall l :: unseen(l) == (judged(l) && l !in Layers(ordered))
    ensures Missing(ordered, Filter(expected, judged)) == Filter(expected, unseen)
  {
    hide Filter, Layers;
    FilterTwice(expected, judged, (l: Layer) => l !in Layers(ordered), unseen);
  }

  /** Of the layers a flow expects, the known ones down to its reach are split, in order, by whether one of its events
      reports them. */
  lemma LayersSplit(key: string, events: seq<Event>, o: Options) returns (present: seq<nat>, missing: seq<nat>)
    requires events != [] && DistinctIDs(events)
    ensures Materialized(key, events, o).Some?
    ensures var f, reach := Materialized(key, events, o).value, Reach(events);
      && Selects(ExpectedIn(o), (l: Layer) => IsJudged(reach, l) && exists e | e in events :: e.layer == l,
                 f.layersPresent, present)
      && Selects(ExpectedIn(o), (l: Layer) => IsJudged(reach, l) && !exists e | e in events :: e.layer == l,
                 f.layersMissing, missing)
  {
    hide Filter, Reach, Layers, Judged, Present, Missing, OrderEvents, Materialized, IsJudged, LayerAt, Selects;
    var judged := (l: Layer) => l.Known() && l.Order() <= LayerAt(Reach(events)).Order();
    var reach, ordered := Reach(events), OrderEvents(events);
    var seen := (l: Layer) => IsJudged(reach, l) && exists e | e in events :: e.layer == l;
    var unseen := (l: Layer) => IsJudged(reach, l) && !exists e | e in events :: e.layer == l;
    OrderedFacts(events);
    JudgedIs(events, o);
    LayerParts(key, events, o);
    JudgedLayers(ordered, events, reach);
    PresentIn(ordered, ExpectedIn(o), judged, seen);
    MissingIn(ordered, ExpectedIn(o), judged, unseen);
    present := FilterSelects(ExpectedIn(o), seen);
    missing := FilterSelects(ExpectedIn(o), unseen);
  }

  // ---- the flags ----

  lemma FlagPart(key: string, events: seq<Event>, o: Options)
    requires events != []
    ensures Materialized(key, events, o).Some?
    ensures var f, ordered := Materialized(key, events, o).value, OrderEvents(events);
      f.events == ordered && f.flags == FlowFlags(EventFlags(ordered), Skewed(ordered), o.tier, o.bridged)
  {
  }

  /** A flow carries, each once, the flags of its events; skew when two events of known layers are out of time order;
      and how it was joined. */
  lemma FlagsCarried(key: string, events: seq<Event>, o: Options)
    requires events != []
    ensures Materialized(key, events, o).Some?
    ensures var f := Materialized(key, events, o).value;
      && Distinct(f.flags)
      && forall x :: x in f.flags <==>
           || (exists e | e in events :: x in e.flags)
           || (x == ClockSkew && exists i, j | 0 <= i < j < |f.events| ::
                 f.events[i].layer.Known() && f.events[j].layer.Known()
                 && f.events[j].eventTime < f.events[i].eventTime)
           || (x == HeuristicCorrelation && o.tier == TierHeuristic)
           || (x == BridgedCorrelation && o.bridged)
  {
    hide Materialized, FlowFlags, EventFlags, Skewed, OrderEvents, Distinct;
    var ordered := OrderEvents(events);
    OrderedFacts(events);
    FlagPart(key, events, o);
    FlowFlagsOnce(ordered, Skewed(ordered), o.tier, o.bridged);
    SkewIsDisorder(events);
  }

  // ---- how far to trust it ----

  /** A flow is ambiguous without a join, and partial exactly when it is closed with a layer missing. Its score is that
      of its tier: one for an exact join, none without a join, and for a heuristic join six tenths, or seven when three
      layers or more are there. */
  lemma Trusted(key: string, events: seq<Event>, o: Options)
    requires events != []
    ensures Materialized(key, events, o).Some?
    ensures var f := Materialized(key, events, o).value;
      && (f.completeness == Ambiguous <==> o.tier == TierNone)
      && (f.completeness == Partial <==> o.tier != TierNone && o.closed && f.layersMissing != [])
      && (o.tier == TierExact ==> f.confidence == 1.0) && (o.tier == TierNone ==> f.confidence == 0.0)
      && (o.tier == TierHeuristic ==> f.confidence == if |f.layersPresent| >= 3 then 0.7 else 0.6)
  {
    hide Judged, Present, Missing;
  }

  /** The edge answered from its cache exactly when its status says so, in any case. */
  lemma CacheStatuses()
    ensures forall s | s in {"hit", "HIT", "Revalidated", "updating", "STALE"} :: IsCacheServed(s)
    ensures forall s | s in {"miss", "MISS", "expired", "bypass", "dynamic", "none", ""} :: !IsCacheServed(s)
  {
    assert ToLower("hit") == "hit" && ToLower("HIT") == "hit" && ToLower("Revalidated") == "revalidated";
    assert ToLower("updating") == "updating" && ToLower("STALE") == "stale";
    assert ToLower("miss") == "miss" && ToLower("MISS") == "miss" && ToLower("none") == "none" && ToLower("") == "";
    assert |ToLower("expired")| == 7 && |ToLower("bypass")| == 6 && ToLower("dynamic")[0] == 'd';
    assert |"revalidated"| == 11 && |"updating"| == 8 && |"stale"| == 5 && |"hit"| == 3;
  }
}
