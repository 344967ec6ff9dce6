/** A correlated set of events turned into one flow. */
module Materializing {
  import opened Text
  import opened Sorting
  import opened Events
  import opened Ordering
  import opened Identifiers

  datatype Completeness = Complete | Partial | Ambiguous

  datatype Options = Options(
    tenant: string, expectedLayers: seq<Layer>, tier: Tier, bridged: bool, closed: bool, now: int)

  datatype Flow = Flow(
    flowID: string, tenant: string, correlationKey: string, events: seq<Event>,
    layersPresent: seq<Layer>, layersMissing: seq<Layer>, completeness: Completeness,
    tier: Tier, confidence: real, bridged: bool,
    effectiveOutcome: string, terminatingLayer: Layer,
    firstSeen: int, lastSeen: int, closedAt: Option<int>,
    timing: map<Layer, real>, amended: bool, flags: seq<QualityFlag>,
    client: Client, request: Request)

  const REQUEST_PATH := [Edge, BotManagement, AppFirewall, Origin]

  function FlowID(key: string): string {
    "flow:" + key
  }

  // ---- outcome ----

  /** The first event that took a terminating action, or |events|. */
  function FirstTerminating(events: seq<Event>): (i: nat)
    ensures i <= |events| && (i < |events| ==> events[i].verdict.terminating)
    ensures forall k | 0 <= k < i :: !events[k].verdict.terminating
  {
    if events == [] || events[0].verdict.terminating then 0 else 1 + FirstTerminating(events[1..])
  }

  function Outcome(ordered: seq<Event>): (string, Layer)
    requires ordered != []
  {
    var i := FirstTerminating(ordered);
    if i < |ordered| then (ordered[i].verdict.action, ordered[i].layer)
    else (ordered[|ordered| - 1].verdict.action, NO_LAYER)
  }

  method ResolveOutcome(ordered: seq<Event>) returns (action: string, layer: Layer)
    requires ordered != []
    ensures (action, layer) == Outcome(ordered)
  {
    for i := 0 to |ordered|
      invariant forall k | 0 <= k < i :: !ordered[k].verdict.terminating
    {
      if ordered[i].verdict.terminating {
        assert FirstTerminating(ordered) == i;
        return ordered[i].verdict.action, ordered[i].layer;
      }
    }
    var last := ordered[|ordered| - 1];
    return last.verdict.action, NO_LAYER;
  }

  // ---- completeness ----

  function LayerAt(order: nat): Layer {
    match order
    case 0 => Edge
    case 1 => BotManagement
    case 2 => AppFirewall
    case _ => Origin
  }

  predicate IsCacheServed(status: string) {
    ToLower(status) in {"hit", "revalidated", "updating", "stale"}
  }

  predicate CacheHit(e: Event) {
    e.layer == Edge && IsCacheServed(e.response.cacheStatus)
  }

  predicate ServedFromCache(events: seq<Event>) {
    exists i | 0 <= i < |events| :: CacheHit(events[i])
  }

  method EdgeServedFromCache(events: seq<Event>) returns (hit: bool)
    ensures hit == ServedFromCache(events)
  {
    for i := 0 to |events|
      invariant forall k | 0 <= k < i :: !CacheHit(events[k])
    {
      if events[i].layer == Edge && IsCacheServed(events[i].response.cacheStatus) {
        assert CacheHit(events[i]);
        return true;
      }
    }
    return false;
  }

  /** The order of the deepest known layer with a record; 0 when there is none. */
  function Deepest(events: seq<Event>): (d: nat)
    ensures d <= 3
    ensures forall e | e in events && e.layer.Known() :: e.layer.Order() <= d
    ensures d > 0 ==> exists e | e in events :: e.layer.Known() && e.layer.Order() == d
  {
    if events == [] then 0
    else
      var n := |events| - 1;
      var before := Deepest(events[..n]);
      assert events == events[..n] + [events[n]];
      if events[n].layer.Known() && events[n].layer.Order() > before then events[n].layer.Order() else before
  }

  /** How deep the request is known to have gone. */
  function Boundary(ordered: seq<Event>, terminating: Layer): Layer {
    var d := Deepest(ordered);
    if terminating != NO_LAYER then
      LayerAt(if terminating.Known() && terminating.Order() > d then terminating.Order() else d)
    else LayerAt(if ServedFromCache(ordered) then d else 3)
  }

  method CompletenessBoundary(ordered: seq<Event>, terminating: Layer) returns (best: Layer)
    ensures best == Boundary(ordered, terminating)
  {
    best := Edge;
    var bestOrder := 0;
    for i := 0 to |ordered|
      invariant bestOrder == Deepest(ordered[..i]) && best == LayerAt(bestOrder)
    {
      assert ordered[..i + 1][..i] == ordered[..i];
      var l := ordered[i].layer;
      if l.Known() && l.Order() > bestOrder {
        best, bestOrder := l, l.Order();
      }
    }
    assert ordered[..|ordered|] == ordered;
    if terminating != NO_LAYER && terminating.Known() && terminating.Order() > bestOrder {
      best, bestOrder := terminating, terminating.Order();
    }
    var cached := EdgeServedFromCache(ordered);
    if terminating == NO_LAYER && !cached && 3 > bestOrder {
      best := Origin;
    }
  }

  function Filter(layers: seq<Layer>, keep: Layer -> bool): (r: seq<Layer>)
    ensures forall l :: l in r <==> l in layers && keep(l)
  {
    if layers == [] then []
    else
      var n := |layers| - 1;
      assert layers == layers[..n] + [layers[n]];
      Filter(layers[..n], keep) + if keep(layers[n]) then [layers[n]] else []
  }

  function UpTo(expected: seq<Layer>, limit: Layer): seq<Layer> {
    if limit.Known() then Filter(expected, (l: Layer) => l.Known() && l.Order() <= limit.Order()) else expected
  }

  method ExpectedUpTo(expected: seq<Layer>, limit: Layer) returns (out: seq<Layer>)
    ensures out == UpTo(expected, limit)
  {
    if limit == NO_LAYER || !limit.Known() {
      return expected;
    }
    out := [];
    var keep := (l: Layer) => l.Known() && l.Order() <= limit.Order();
    for i := 0 to |expected|
      invariant out == Filter(expected[..i], keep)
    {
      assert expected[..i + 1][..i] == expected[..i];
      if expected[i].Known() && expected[i].Order() <= limit.Order() {
        out := out + [expected[i]];
      }
    }
    assert expected[..|expected|] == expected;
  }

  function Layers(events: seq<Event>): set<Layer> {
    set i | 0 <= i < |events| :: events[i].layer
  }

  function Present(events: seq<Event>, expected: seq<Layer>): seq<Layer> {
    Filter(expected, (l: Layer) => l in Layers(events))
  }

  function Missing(events: seq<Event>, expected: seq<Layer>): seq<Layer> {
    Filter(expected, (l: Layer) => l !in Layers(events))
  }

  method LayerCoverage(events: seq<Event>, expected: seq<Layer>) returns (present: seq<Layer>, missing: seq<Layer>)
    ensures present == Present(events, expected) && missing == Missing(events, expected)
  {
    var seen: set<Layer> := {};
    for i := 0 to |events|
      invariant seen == Layers(events[..i])
    {
      forall l
        ensures l in Layers(events[..i + 1]) <==> l in Layers(events[..i]) || l == events[i].layer
      {
        assert forall k :: 0 <= k < i ==> events[..i + 1][k] == events[..i][k];
        assert events[..i + 1][i] == events[i];
        if l in Layers(events[..i]) {
          var k :| 0 <= k < i && events[..i][k].layer == l;
          assert events[..i + 1][k].layer == l;
        }
      }
      seen := seen + {events[i].layer};
    }
    assert events[..|events|] == events;
    present, missing := [], [];
    for i := 0 to |expected|
      invariant present == Present(events, expected[..i]) && missing == Missing(events, expected[..i])
    {
      assert expected[..i + 1][..i] == expected[..i];
      if expected[i] in seen {
        present := present + [expected[i]];
      } else {
        missing := missing + [expected[i]];
      }
    }
    assert expected[..|expected|] == expected;
  }

  function CompletenessOf(tier: Tier, missing: seq<Layer>, closed: bool): Completeness {
    if tier == TierNone then Ambiguous
    else if missing == [] then Complete
    else if !closed then Complete
    else Partial
  }

  /** The flow's own flags are still empty when this runs, so no skew is ever subtracted. */
  function Confidence(tier: Tier, present: seq<Layer>, flags: seq<QualityFlag>): real {
    match tier
    case TierExact => 1.0
    case TierHeuristic =>
      0.6 + (if |present| >= 3 then 0.1 else 0.0) - (if ClockSkew in flags then 0.2 else 0.0)
    case TierNone => 0.0
  }

  // ---- the remaining fields ----

  function Span(events: seq<Event>): (int, int) {
    if events == [] then (0, 0)
    else
      var n := |events| - 1;
      var (first, last) := Span(events[..n]);
      var t := events[n].eventTime;
      if t == 0 then (first, last)
      else (if first == 0 || t < first then t else first, if t > last then t else last)
  }

  method TimeSpan(ordered: seq<Event>) returns (first: int, last: int)
    ensures (first, last) == Span(ordered)
  {
    first, last := 0, 0;
    for i := 0 to |ordered|
      invariant (first, last) == Span(ordered[..i])
    {
      assert ordered[..i + 1][..i] == ordered[..i];
      var t := ordered[i].eventTime;
      if t == 0 {
        continue;
      }
      if i == 0 || first == 0 || t < first {
        first := t;
      }
      if t > last {
        last := t;
      }
    }
    assert ordered[..|ordered|] == ordered;
  }

  function Timing(events: seq<Event>): map<Layer, real> {
    if events == [] then map[]
    else
      var n := |events| - 1;
      var m, e := Timing(events[..n]), events[n];
      if e.response.durationMS > 0.0 then
        m[e.layer := (if e.layer in m then m[e.layer] else 0.0) + e.response.durationMS]
      else m
  }

  method TimingAttribution(ordered: seq<Event>) returns (out: map<Layer, real>)
    ensures out == Timing(ordered)
  {
    out := map[];
    for i := 0 to |ordered|
      invariant out == Timing(ordered[..i])
    {
      assert ordered[..i + 1][..i] == ordered[..i];
      var e := ordered[i];
      if e.response.durationMS > 0.0 {
        out := out[e.layer := (if e.layer in out then out[e.layer] else 0.0) + e.response.durationMS];
      }
    }
    assert ordered[..|ordered|] == ordered;
  }

  function Or(have: string, next: string): string {
    if have == "" then next else have
  }

  function Lifted(events: seq<Event>): (Client, Request) {
    if events == [] then (Client("", 0, "", ""), Request("", "", "", ""))
    else
      var n := |events| - 1;
      var (c, r) := Lifted(events[..n]);
      var e := events[n];
      (Client(Or(c.ip, e.client.ip), if c.asn == 0 then e.client.asn else c.asn,
              Or(c.country, e.client.country), Or(c.userAgent, e.client.userAgent)),
       Request(Or(r.verb, e.request.verb), Or(r.host, e.request.host),
               Or(r.path, e.request.path), Or(r.query, e.request.query)))
  }

  method Denormalize(ordered: seq<Event>) returns (c: Client, r: Request)
    ensures (c, r) == Lifted(ordered)
  {
    c, r := Client("", 0, "", ""), Request("", "", "", "");
    for i := 0 to |ordered|
      invariant (c, r) == Lifted(ordered[..i])
    {
      assert ordered[..i + 1][..i] == ordered[..i];
      var e := ordered[i];
      c := Client(Or(c.ip, e.client.ip), if c.asn == 0 then e.client.asn else c.asn,
                  Or(c.country, e.client.country), Or(c.userAgent, e.client.userAgent));
      r := Request(Or(r.verb, e.request.verb), Or(r.host, e.request.host),
                   Or(r.path, e.request.path), Or(r.query, e.request.query));
    }
    assert ordered[..|ordered|] == ordered;
  }

  function AddFlag(flags: seq<QualityFlag>, f: QualityFlag): seq<QualityFlag> {
    if f in flags then flags else flags + [f]
  }

  function AddFlags(flags: seq<QualityFlag>, more: seq<QualityFlag>): seq<QualityFlag> {
    if more == [] then flags else AddFlag(AddFlags(flags, more[..|more| - 1]), more[|more| - 1])
  }

  function EventFlags(events: seq<Event>): seq<QualityFlag> {
    if events == [] then [] else AddFlags(EventFlags(events[..|events| - 1]), events[|events| - 1].flags)
  }

  function FlowFlags(fromEvents: seq<QualityFlag>, skewed: bool, tier: Tier, bridged: bool): seq<QualityFlag> {
    var a := if skewed then AddFlag(fromEvents, ClockSkew) else fromEvents;
    var b := if tier == TierHeuristic then AddFlag(a, HeuristicCorrelation) else a;
    if bridged then AddFlag(b, BridgedCorrelation) else b
  }

  lemma {:induction false} AddFlagsOnce(flags: seq<QualityFlag>, more: seq<QualityFlag>)
    requires Distinct(flags)
    ensures Distinct(AddFlags(flags, more))
    ensures forall f :: f in AddFlags(flags, more) <==> f in flags || f in more
  {
    if more != [] {
      var n := |more| - 1;
      AddFlagsOnce(flags, more[..n]);
      assert more == more[..n] + [more[n]];
    }
  }

  /** The events' flags are collected each once, none missing and none added. */
  lemma {:induction false} EventFlagsOnce(events: seq<Event>)
    ensures Distinct(EventFlags(events))
    ensures forall f :: f in EventFlags(events) <==> exists e | e in events :: f in e.flags
  {
    if events != [] {
      var n := |events| - 1;
      EventFlagsOnce(events[..n]);
      AddFlagsOnce(EventFlags(events[..n]), events[n].flags);
      assert events == events[..n] + [events[n]];
      forall f
        ensures f in EventFlags(events) <==> exists e | e in events :: f in e.flags
      {
        if e :| e in events && f in e.flags {
          assert e in events[..n] || e == events[n];
        }
      }
    }
  }

  /** A flow carries each of its events' flags once, and those of its own that apply. */
  lemma FlowFlagsOnce(events: seq<Event>, skewed: bool, tier: Tier, bridged: bool)
    ensures var flags := FlowFlags(EventFlags(events), skewed, tier, bridged);
      && Distinct(flags)
      && forall f :: f in flags <==>
           || (exists e | e in events :: f in e.flags)
           || (f == ClockSkew && skewed)
           || (f == HeuristicCorrelation && tier == TierHeuristic)
           || (f == BridgedCorrelation && bridged)
  {
    EventFlagsOnce(events);
  }

  method PropagateFlags(ordered: seq<Event>, tier: Tier, bridged: bool) returns (flags: seq<QualityFlag>)
    ensures flags == FlowFlags(EventFlags(ordered), Skewed(ordered), tier, bridged)
  {
    flags := [];
    for i := 0 to |ordered|
      invariant flags == EventFlags(ordered[..i])
    {
      assert ordered[..i + 1][..i] == ordered[..i];
      var more := ordered[i].flags;
      ghost var before := flags;
      for k := 0 to |more|
        invariant flags == AddFlags(before, more[..k])
      {
        assert more[..k + 1][..k] == more[..k];
        flags := AddFlag(flags, more[k]);
      }
      assert more[..|more|] == more;
    }
    assert ordered[..|ordered|] == ordered;
    var skewed, _ := DetectSkew(ordered);
    flags := FlowFlags(flags, skewed, tier, bridged);
  }

  // ---- the flow ----

  function ExpectedIn(o: Options): seq<Layer> {
    if o.expectedLayers == [] then REQUEST_PATH else o.expectedLayers
  }

  /** The layers a flow is judged on: the expected ones down to its boundary. */
  function Judged(ordered: seq<Event>, o: Options): seq<Layer>
    requires ordered != []
  {
    UpTo(ExpectedIn(o), Boundary(ordered, Outcome(ordered).1))
  }

  /** The flow as a function of the ordered events. */
  ghost function FlowOf(key: string, ordered: seq<Event>, o: Options): Flow
    requires ordered != []
  {
    var (action, terminating) := Outcome(ordered);
    var expected := Judged(ordered, o);
    var present, missing := Present(ordered, expected), Missing(ordered, expected);
    var (first, last) := Span(ordered);
    var (client, request) := Lifted(ordered);
    Flow(FlowID(key), o.tenant, key, ordered, present, missing, CompletenessOf(o.tier, missing, o.closed),
         o.tier, Confidence(o.tier, present, []), o.bridged, action, terminating, first, last,
         if o.closed then Some(o.now) else None, Timing(ordered), false,
         FlowFlags(EventFlags(ordered), Skewed(ordered), o.tier, o.bridged), client, request)
  }

  ghost function Materialized(key: string, events: seq<Event>, o: Options): Option<Flow> {
    if events == [] then None else Some(FlowOf(key, OrderEvents(events), o))
  }

  method Materialize(key: string, events: seq<Event>, o: Options) returns (f: Option<Flow>)
    ensures f == Materialized(key, events, o)
  {
    if |events| == 0 {
      return None;
    }
    var ordered := OrderEvents(events);
    var first, last := TimeSpan(ordered);
    var action, terminating := ResolveOutcome(ordered);
    var expected := o.expectedLayers;
    if |expected| == 0 {
      expected := REQUEST_PATH;
    }
    var boundary := CompletenessBoundary(ordered, terminating);
    expected := ExpectedUpTo(expected, boundary);
    var present, missing := LayerCoverage(ordered, expected);
    var timing := TimingAttribution(ordered);
    var client, request := Denormalize(ordered);
    var complete := CompletenessOf(o.tier, missing, o.closed);
    var confidence := Confidence(o.tier, present, []);
    var flags := PropagateFlags(ordered, o.tier, o.bridged);
    f := Some(Flow(FlowID(key), o.tenant, key, ordered, present, missing, complete, o.tier, confidence,
                   o.bridged, action, terminating, first, last, if o.closed then Some(o.now) else None,
                   timing, false, flags, client, request));
  }

  /** The flow does not depend on the order its events were collected in. */
  lemma MaterializeForgetsArrival(key: string, events: seq<Event>, other: seq<Event>, o: Options)
    requires DistinctIDs(events) && multiset(events) == multiset(other)
    ensures Materialized(key, events, o) == Materialized(key, other, o)
  {
    SameElements(events, other);
    OrderForgetsArrival(events, other);
  }

  // ---- the confidence ----

  /** The score is that of a flow without flags, so it is the one its flags call for exactly when the join is not
      heuristic or no clock skew was seen or reported. */
  lemma ConfidenceExactly(key: string, events: seq<Event>, o: Options)
    requires events != []
    ensures Materialized(key, events, o).Some?
    ensures var f := Materialized(key, events, o).value;
      && f.confidence == Confidence(o.tier, f.layersPresent, [])
      && (f.confidence == Confidence(f.tier, f.layersPresent, f.flags) <==>
            o.tier != TierHeuristic
            || !(Skewed(OrderEvents(events)) || exists e | e in events :: ClockSkew in e.flags))
  {
    var ordered := OrderEvents(events);
    SameElements(ordered, events);
    FlowFlagsOnce(ordered, Skewed(ordered), o.tier, o.bridged);
  }

  /** A request joined by its attributes whose origin's clock is behind the edge's: flagged, but trusted as much as
      one without skew. */
  lemma SkewedButTrusted(key: string, edge: Event, origin: Event, o: Options)
    requires edge.layer == Edge && origin.layer == Origin && origin.eventTime < edge.eventTime
    requires o.tier == TierHeuristic
    ensures Materialized(key, [edge, origin], o).Some?
    ensures var f := Materialized(key, [edge, origin], o).value;
      ClockSkew in f.flags && f.confidence == Confidence(f.tier, f.layersPresent, f.flags) + 0.2
  {
    var events := [edge, origin];
    var ordered := OrderEvents(events);
    assert events[1..] == [origin] && [origin][1..] == [];
    assert Sort(NotAfter, [origin]) == [origin];
    assert ordered == [edge, origin];
    assert Inverted(ordered, 1);
    FlowFlagsOnce(ordered, Skewed(ordered), o.tier, o.bridged);
  }
}
