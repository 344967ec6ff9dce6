/** When a window may close early, and what the closed flow then reports. */
module Closing {
  import opened Text
  import opened Sorting
  import opened Events
  import opened Ordering
  import opened Identifiers
  import opened Materializing
  import opened Sets

  ghost predicate Reported(events: seq<Event>, order: int) {
    exists e | e in events :: e.layer.Known() && e.layer.Order() == order
  }

  ghost predicate Terminates(e: Event) {
    e.verdict.terminating && e.layer.Known()
  }

  /** The shallowest known layer that terminated the request has this order. */
  ghost predicate StopsAt(events: seq<Event>, stop: int) {
    && (exists e | e in events :: Terminates(e) && e.layer.Order() == stop)
    && forall e | e in events && Terminates(e) :: stop <= e.layer.Order()
  }

  ghost predicate TerminallyComplete(events: seq<Event>) {
    exists stop :: StopsAt(events, stop) && forall o | 0 <= o <= stop :: Reported(events, o)
  }

  /** The window's own test, on the unsorted list. */
  method IsTerminallyComplete(events: seq<Event>) returns (ok: bool)
    ensures ok <==> TerminallyComplete(events)
  {
    var present: set<int> := {};
    var stop: int := -1;
    for i := 0 to |events|
      invariant forall o :: o in present <==> Reported(events[..i], o)
      invariant -1 <= stop <= 3
      invariant stop < 0 ==> forall e | e in events[..i] :: !Terminates(e)
      invariant stop >= 0 ==> StopsAt(events[..i], stop)
    {
      var e := events[i];
      assert events[..i + 1] == events[..i] + [e];
      assert forall x :: x in events[..i + 1] <==> x in events[..i] || x == e;
      forall o
        ensures Reported(events[..i + 1], o) <==> Reported(events[..i], o) || (e.layer.Known() && e.layer.Order() == o)
      {
        assert e in events[..i + 1];
      }
      if !e.layer.Known() {
        continue;
      }
      present := present + {e.layer.Order()};
      if e.verdict.terminating && (stop < 0 || e.layer.Order() < stop) {
        assert Terminates(e) && e in events[..i + 1];
        stop := e.layer.Order();
      }
    }
    assert events[..|events|] == events;
    if stop < 0 {
      return false;
    }
    for o := 0 to stop + 1
      invariant forall k | 0 <= k < o :: Reported(events, k)
    {
      if o !in present {
        return false;
      }
    }
    assert StopsAt(events, stop);
    return true;
  }

  predicate HasAllLayers(events: seq<Event>, expected: int) {
    |Layers(events)| >= expected
  }

  lemma LayersSnoc(events: seq<Event>, i: nat)
    requires i < |events|
    ensures Layers(events[..i + 1]) == Layers(events[..i]) + {events[i].layer}
  {
    var p, q := events[..i], events[..i + 1];
    assert forall k :: 0 <= k < i ==> q[k] == p[k];
    forall l
      ensures l in Layers(q) <==> l in Layers(p) || l == events[i].layer
    {
      if l in Layers(p) {
        var k :| 0 <= k < |p| && p[k].layer == l;
        assert q[k].layer == l;
      }
      assert q[i].layer == events[i].layer;
    }
  }

  method HasEveryLayer(events: seq<Event>, expected: int) returns (ok: bool)
    ensures ok <==> HasAllLayers(events, expected)
  {
    var seen: set<Layer> := {};
    for i := 0 to |events|
      invariant seen == Layers(events[..i])
    {
      LayersSnoc(events, i);
      seen := seen + {events[i].layer};
    }
    assert events[..|events|] == events;
    return |seen| >= expected;
  }

  // ---- the window's view and the flow's view of where the request stopped ----

  lemma OrderedFacts(events: seq<Event>)
    ensures Sorted(NotAfter, OrderEvents(events))
    ensures forall e :: e in events <==> e in OrderEvents(events)
    ensures events != [] <==> OrderEvents(events) != []
  {
    NotAfterIsTotal();
    SortSorted(NotAfter, events);
    SameElements(events, OrderEvents(events));
  }

  lemma FirstStop(ordered: seq<Event>, stop: int)
    requires Sorted(NotAfter, ordered) && StopsAt(ordered, stop)
    ensures 0 <= stop <= 3 && ordered != [] && Outcome(ordered).1 == LayerAt(stop)
  {
    var e :| e in ordered && Terminates(e) && e.layer.Order() == stop;
    var j :| 0 <= j < |ordered| && ordered[j] == e;
    var i := FirstTerminating(ordered);
    assert i < j ==> NotAfter(ordered[i], ordered[j]);
    assert ordered[i] in ordered;
  }

  /** The terminating layer the flow reports, found first in the sorted list, is the shallowest
      one the window computed from the unsorted one. */
  lemma TerminationAgrees(events: seq<Event>, stop: int)
    requires StopsAt(events, stop)
    ensures events != [] && Outcome(OrderEvents(events)).1 == LayerAt(stop) && 0 <= stop <= 3
  {
    OrderedFacts(events);
    assert StopsAt(OrderEvents(events), stop) by {
      var e :| e in events && Terminates(e) && e.layer.Order() == stop;
      assert e in OrderEvents(events);
    }
    FirstStop(OrderEvents(events), stop);
  }

  /** Every expected known layer down to this order has reported. */
  ghost predicate NoGapTo(events: seq<Event>, expected: seq<Layer>, limit: nat) {
    forall l | l in expected && l.Known() && l.Order() <= limit :: Reported(events, l.Order())
  }

  ghost predicate NoGap(events: seq<Event>, expected: seq<Layer>) {
    NoGapTo(events, expected, Deepest(events))
  }

  lemma DeepestForgetsOrder(events: seq<Event>, other: seq<Event>)
    requires forall e :: e in events <==> e in other
    ensures Deepest(events) == Deepest(other)
  {
    if Deepest(events) > 0 {
      var e :| e in events && e.layer.Known() && e.layer.Order() == Deepest(events);
      assert e in other;
    }
    if Deepest(other) > 0 {
      var e :| e in other && e.layer.Known() && e.layer.Order() == Deepest(other);
      assert e in events;
    }
  }

  lemma ReportedIsPresent(events: seq<Event>, l: Layer)
    requires l.Known()
    ensures Reported(events, l.Order()) <==> l in Layers(events)
  {
    if Reported(events, l.Order()) {
      var e :| e in events && e.layer.Known() && e.layer.Order() == l.Order();
      var i :| 0 <= i < |events| && events[i] == e;
      assert events[i].layer == l;
    }
    if l in Layers(events) {
      var i :| 0 <= i < |events| && events[i].layer == l;
      assert events[i] in events;
    }
  }

  lemma NothingMissing(events: seq<Event>, ord: seq<Event>, expected: seq<Layer>, limit: nat)
    requires limit <= 3 && forall e :: e in events <==> e in ord
    ensures Missing(ord, UpTo(expected, LayerAt(limit))) == [] <==> NoGapTo(events, expected, limit)
  {
    var missing := Missing(ord, UpTo(expected, LayerAt(limit)));
    forall l
      ensures l in missing <==> l in expected && l.Known() && l.Order() <= limit && !Reported(events, l.Order())
    {
      if l.Known() {
        ReportedIsPresent(ord, l);
        assert Reported(events, l.Order()) <==> Reported(ord, l.Order());
      }
    }
    if missing != [] {
      assert missing[0] in missing;
    }
  }

  lemma BoundaryAtStop(events: seq<Event>, ord: seq<Event>, stop: int)
    requires StopsAt(events, stop) && 0 <= stop <= 3
    requires forall e :: e in events <==> e in ord
    ensures Boundary(ord, LayerAt(stop)) == LayerAt(Deepest(events))
  {
    DeepestForgetsOrder(events, ord);
    var e :| e in events && Terminates(e) && e.layer.Order() == stop;
  }

  /** A closed flow joined by identifiers or heuristics is Complete when no judged layer is missing. */
  lemma CompletenessIs(key: string, events: seq<Event>, o: Options)
    requires events != [] && OrderEvents(events) != [] && o.closed && o.tier != TierNone
    ensures var ord := OrderEvents(events);
      Materialized(key, events, o).Some?
      && (Materialized(key, events, o).value.completeness == Complete <==> Missing(ord, Judged(ord, o)) == [])
  {
  }

  /** A flow closed by a stop is Complete exactly when nothing is missing down to its deepest
      record: a record below the stop can leave a gap the window did not look for. */
  lemma StoppedFlowComplete(key: string, events: seq<Event>, o: Options)
    requires TerminallyComplete(events) && o.closed && o.tier != TierNone
    ensures Materialized(key, events, o).Some?
    ensures Materialized(key, events, o).value.completeness == Complete <==> NoGap(events, ExpectedIn(o))
  {
    var stop :| StopsAt(events, stop) && forall o | 0 <= o <= stop :: Reported(events, o);
    TerminationAgrees(events, stop);
    OrderedFacts(events);
    var ord := OrderEvents(events);
    BoundaryAtStop(events, ord, stop);
    NothingMissing(events, ord, ExpectedIn(o), Deepest(events));
    CompletenessIs(key, events, o);
  }

  /** With no record below the stop, a terminally complete window gives a Complete flow. */
  lemma NothingDeeperIsComplete(key: string, events: seq<Event>, stop: int, o: Options)
    requires StopsAt(events, stop) && forall k | 0 <= k <= stop :: Reported(events, k)
    requires Deepest(events) <= stop
    requires o.closed && o.tier != TierNone
    ensures Materialized(key, events, o).Some? && Materialized(key, events, o).value.completeness == Complete
  {
    assert TerminallyComplete(events);
    StoppedFlowComplete(key, events, o);
  }

  lemma BoundaryIsDeep(ordered: seq<Event>, terminating: Layer)
    ensures var boundary := Boundary(ordered, terminating); boundary.Known() && Deepest(ordered) <= boundary.Order()
  {
  }

  lemma GapIsMissing(ordered: seq<Event>, o: Options, l: Layer)
    requires ordered != [] && l in ExpectedIn(o) && l.Known() && l.Order() <= Deepest(ordered)
    requires l !in Layers(ordered)
    ensures Missing(ordered, Judged(ordered, o)) != []
  {
    var boundary := Boundary(ordered, Outcome(ordered).1);
    BoundaryIsDeep(ordered, Outcome(ordered).1);
    hide Boundary, Outcome, Deepest, ExpectedIn;
    assert l in UpTo(ExpectedIn(o), boundary);
    assert l in Missing(ordered, Judged(ordered, o));
  }

  /** An expected layer missing at or above the deepest record always makes the flow Partial. */
  lemma GapIsPartial(key: string, events: seq<Event>, o: Options, l: Layer)
    requires events != [] && l in ExpectedIn(o) && l.Known() && l.Order() <= Deepest(events)
    requires !Reported(events, l.Order())
    requires o.closed && o.tier != TierNone
    ensures Materialized(key, events, o).Some? && Materialized(key, events, o).value.completeness == Partial
  {
    OrderedFacts(events);
    var ord := OrderEvents(events);
    DeepestForgetsOrder(events, ord);
    ReportedIsPresent(ord, l);
    assert !Reported(ord, l.Order());
    GapIsMissing(ord, o, l);
  }

  /** A gap below the stop does occur: the edge blocks, the origin still logs a record, and the
      two layers between are missing. */
  lemma DeeperRecordLeavesGap(edge: Event, origin: Event, o: Options)
    requires edge.layer == Edge && edge.verdict.terminating && origin.layer == Origin
    requires o.closed && o.tier == TierExact && o.expectedLayers == []
    ensures TerminallyComplete([edge, origin])
    ensures Materialized("k", [edge, origin], o).Some?
    ensures Materialized("k", [edge, origin], o).value.completeness == Partial
  {
    var events := [edge, origin];
    assert edge in events && origin in events;
    assert Terminates(edge);
    assert StopsAt(events, 0) && Reported(events, 0);
    assert !Reported(events, AppFirewall.Order());
    GapIsPartial("k", events, o, AppFirewall);
  }

  // ---- closing by counting layers ----

  /** No other terminating event comes before e in causal order. */
  ghost predicate StopsFirst(events: seq<Event>, e: Event) {
    e in events && e.verdict.terminating && forall f | f in events && f.verdict.terminating :: NotAfter(e, f)
  }

  /** The first terminating event's layer has a name. */
  ghost predicate Stopped(events: seq<Event>) {
    exists e :: StopsFirst(events, e) && e.layer != NO_LAYER
  }

  /** How deep a closed flow must have reported: to its deepest record when the request was stopped or served from
      cache, otherwise all the way. */
  ghost function Reach(events: seq<Event>): nat {
    if Stopped(events) || ServedFromCache(events) then Deepest(events) else 3
  }

  lemma FirstStopsFirst(ord: seq<Event>)
    requires Sorted(NotAfter, ord) && TotalPreorder(NotAfter) && FirstTerminating(ord) < |ord|
    ensures StopsFirst(ord, ord[FirstTerminating(ord)])
  {
    hide NotAfter;
    var i := FirstTerminating(ord);
    forall f | f in ord && f.verdict.terminating
      ensures NotAfter(ord[i], f)
    {
      var k :| 0 <= k < |ord| && ord[k] == f;
      assert i < k ==> NotAfter(ord[i], ord[k]);
    }
  }

  lemma OnlyFirst(ord: seq<Event>, e: Event)
    requires Sorted(NotAfter, ord) && TiesEqual(NotAfter, ord) && StopsFirst(ord, e)
    ensures FirstTerminating(ord) < |ord| && ord[FirstTerminating(ord)] == e
  {
    hide NotAfter;
    var i := FirstTerminating(ord);
    var j :| 0 <= j < |ord| && ord[j] == e;
    assert ord[i] in ord;
    assert i < j ==> NotAfter(ord[i], ord[j]);
  }

  /** That is whether the flow names a stop. */
  lemma StoppedIsNamed(events: seq<Event>)
    requires events != [] && DistinctIDs(events)
    ensures OrderEvents(events) != [] && (Stopped(events) <==> Outcome(OrderEvents(events)).1 != NO_LAYER)
  {
    OrderedFacts(events);
    NotAfterIsTotal();
    DistinctTies(events);
    hide NotAfter;
    var ord := OrderEvents(events);
    if Stopped(events) {
      var e :| StopsFirst(events, e) && e.layer != NO_LAYER;
      OnlyFirst(ord, e);
    }
    if FirstTerminating(ord) < |ord| {
      FirstStopsFirst(ord);
      assert StopsFirst(events, ord[FirstTerminating(ord)]);
    }
  }

  /** When every event's layer has a name, as the parsers set it, any terminating event is a stop. */
  lemma AnyStopIsNamed(events: seq<Event>)
    requires events != [] && DistinctIDs(events) && forall e | e in events :: e.layer != NO_LAYER
    ensures Stopped(events) <==> exists e | e in events :: e.verdict.terminating
  {
    OrderedFacts(events);
    StoppedIsNamed(events);
    var ord := OrderEvents(events);
    var i := FirstTerminating(ord);
    if i < |ord| {
      assert ord[i] in ord;
    }
    if e :| e in events && e.verdict.terminating {
      var j :| 0 <= j < |ord| && ord[j] == e;
    }
  }

  /** With named layers: the deepest known layer that has a record when some event stopped the request or the edge
      answered from its cache, the edge when none has, and otherwise the origin. */
  lemma ReachExactly(events: seq<Event>)
    requires events != [] && DistinctIDs(events) && forall e | e in events :: e.layer != NO_LAYER
    ensures var reach := Reach(events);
      if exists e | e in events ::
          e.verdict.terminating
          || (e.layer == Edge && ToLower(e.response.cacheStatus) in {"hit", "revalidated", "updating", "stale"})
      then
        && (forall e | e in events && e.layer.Known() :: e.layer.Order() <= reach)
        && (reach == 0 || exists e | e in events && e.layer.Known() :: e.layer.Order() == reach)
      else reach == 3
  {
    hide Stopped, Deepest;
    AnyStopIsNamed(events);
    if ServedFromCache(events) {
      var i :| 0 <= i < |events| && CacheHit(events[i]);
      assert events[i] in events;
    }
    if e :| e in events && CacheHit(e) {
      var i :| 0 <= i < |events| && events[i] == e;
    }
  }

  lemma CacheForgetsOrder(events: seq<Event>, other: seq<Event>)
    requires forall e :: e in events <==> e in other
    ensures ServedFromCache(events) <==> ServedFromCache(other)
  {
    if ServedFromCache(events) {
      var i :| 0 <= i < |events| && CacheHit(events[i]);
      assert events[i] in other;
    }
    if ServedFromCache(other) {
      var i :| 0 <= i < |other| && CacheHit(other[i]);
      assert other[i] in events;
    }
  }

  lemma BoundaryIsReach(events: seq<Event>)
    requires events != [] && DistinctIDs(events)
    ensures var ord := OrderEvents(events); ord != [] && Boundary(ord, Outcome(ord).1) == LayerAt(Reach(events))
  {
    OrderedFacts(events);
    StoppedIsNamed(events);
    var ord := OrderEvents(events);
    DeepestForgetsOrder(events, ord);
    CacheForgetsOrder(events, ord);
    var i := FirstTerminating(ord);
    assert i < |ord| ==> ord[i] in ord;
  }

  /** However its window closed, a joined flow is Complete exactly when every expected layer it can have reached has
      reported. A window holds each event id once. */
  lemma ClosedFlowComplete(key: string, events: seq<Event>, o: Options)
    requires events != [] && DistinctIDs(events) && o.closed && o.tier != TierNone
    ensures var f := Materialized(key, events, o);
      f.Some? && (f.value.completeness == Complete <==> NoGapTo(events, ExpectedIn(o), Reach(events)))
  {
    OrderedFacts(events);
    BoundaryIsReach(events);
    NothingMissing(events, OrderEvents(events), ExpectedIn(o), Reach(events));
    CompletenessIs(key, events, o);
  }

  ghost predicate AllKnown(events: seq<Event>) {
    forall e | e in events :: e.layer.Known()
  }

  /** Four different known layers are the four layers of the request path. */
  lemma CountedAreReported(events: seq<Event>)
    requires HasAllLayers(events, 4) && AllKnown(events)
    ensures forall k | 0 <= k <= 3 :: Reported(events, k)
  {
    var path := {Edge, BotManagement, AppFirewall, Origin};
    forall l | l in Layers(events)
      ensures l in path
    {
      var i :| 0 <= i < |events| && events[i].layer == l;
      assert events[i] in events;
    }
    AllOf(Layers(events), path);
    forall k | 0 <= k <= 3
      ensures Reported(events, k)
    {
      ReportedIsPresent(events, LayerAt(k));
    }
  }

  lemma BoundaryAtOrigin(events: seq<Event>, ord: seq<Event>)
    requires Reported(events, 3) && forall e :: e in events <==> e in ord
    ensures events != [] && ord != [] && Boundary(ord, Outcome(ord).1) == LayerAt(3)
  {
    DeepestForgetsOrder(events, ord);
    var e :| e in events && e.layer.Known() && e.layer.Order() == 3;
    assert Deepest(events) == 3;
  }

  lemma EverythingReported(events: seq<Event>, expected: seq<Layer>)
    requires forall k | 0 <= k <= 3 :: Reported(events, k)
    ensures NoGapTo(events, expected, 3)
  {
  }

  lemma JudgedTo(ord: seq<Event>, o: Options, limit: nat)
    requires ord != [] && Boundary(ord, Outcome(ord).1) == LayerAt(limit)
    ensures Judged(ord, o) == UpTo(ExpectedIn(o), LayerAt(limit))
  {
  }

  /** Once all four known layers have reported nothing can be missing. */
  lemma AllLayersComplete(key: string, events: seq<Event>, o: Options)
    requires forall k | 0 <= k <= 3 :: Reported(events, k)
    requires o.closed && o.tier != TierNone
    ensures Materialized(key, events, o).Some? && Materialized(key, events, o).value.completeness == Complete
  {
    hide *;
    OrderedFacts(events);
    BoundaryAtOrigin(events, OrderEvents(events));
    EverythingReported(events, ExpectedIn(o));
    NothingMissing(events, OrderEvents(events), ExpectedIn(o), 3);
    JudgedTo(OrderEvents(events), o, 3);
    CompletenessIs(key, events, o);
  }

  /** A window that closed because four layers reported gives a Complete flow when every layer is
      a known one, whatever layers the flow expects. */
  lemma CountedLayersComplete(key: string, events: seq<Event>, o: Options)
    requires HasAllLayers(events, 4) && AllKnown(events) && o.closed && o.tier != TierNone
    ensures Materialized(key, events, o).Some? && Materialized(key, events, o).value.completeness == Complete
  {
    CountedAreReported(events);
    AllLayersComplete(key, events, o);
  }

  lemma PathReported(events: seq<Event>, limit: nat)
    requires limit <= 3
    ensures NoGapTo(events, REQUEST_PATH, limit) <==> forall k | 0 <= k <= limit :: Reported(events, k)
  {
    assert forall k | 0 <= k <= 3 :: LayerAt(k).Known() && LayerAt(k).Order() == k;
    if NoGapTo(events, REQUEST_PATH, limit) {
      forall k | 0 <= k <= limit
        ensures Reported(events, k)
      {
        assert LayerAt(k) in REQUEST_PATH;
      }
    }
  }

  /** A deployment that monitors the whole path has Complete flows exactly when the layers down to their reach have
      reported. */
  lemma PathFlowComplete(key: string, events: seq<Event>, o: Options)
    requires events != [] && DistinctIDs(events) && o.closed && o.tier != TierNone && o.expectedLayers == []
    ensures var f := Materialized(key, events, o);
      f.Some? && (f.value.completeness == Complete <==> forall k | 0 <= k <= Reach(events) :: Reported(events, k))
  {
    ClosedFlowComplete(key, events, o);
    PathReported(events, Reach(events));
  }

  lemma FirewallMissing(events: seq<Event>)
    requires |events| == 4 && AppFirewall !in Layers(events) && events[2].layer == Origin
    ensures !Reported(events, 2) && Deepest(events) >= 2
  {
    assert events[2] in events;
    ReportedIsPresent(events, AppFirewall);
  }

  lemma FourLayers(events: seq<Event>)
    requires |events| == 4
    ensures Layers(events) == {events[0].layer, events[1].layer, events[2].layer, events[3].layer}
  {
    LayersSnoc(events, 0);
    LayersSnoc(events, 1);
    LayersSnoc(events, 2);
    LayersSnoc(events, 3);
    assert events[..0] == [] && events[..4] == events;
  }

  /** The count does not look at which layers it counts: were there a record of an unknown layer, which no parser
      makes, it could stand in for a missing known one. */
  lemma UnknownLayerCounts(events: seq<Event>, o: Options)
    requires |events| == 4
    requires events[0].layer == Edge && events[1].layer == BotManagement && events[2].layer == Origin
    requires events[3].layer == Other("x")
    requires o.closed && o.tier == TierExact && o.expectedLayers == []
    ensures HasAllLayers(events, 4)
    ensures Materialized("k", events, o).Some? && Materialized("k", events, o).value.completeness == Partial
  {
    FourLayers(events);
    FirewallMissing(events);
    assert |{Edge, BotManagement, Origin, Other("x")}| == 4;
    assert HasAllLayers(events, 4);
    GapIsPartial("k", events, o, AppFirewall);
  }
}
