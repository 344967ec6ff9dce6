/** Causal order of one flow's events, and clock skew against it. */
module Ordering {
  import opened Text
  import opened Sorting
  import opened Events

  /** The comparison of OrderEvents: known layers first and by position, then time, then id. */
  predicate Precedes(a: Event, b: Event) {
    if a.layer.Known() && !b.layer.Known() then true
    else if !a.layer.Known() && b.layer.Known() then false
    else if a.layer.Known() && b.layer.Known() && a.layer.Order() != b.layer.Order() then
      a.layer.Order() < b.layer.Order()
    else if a.eventTime != b.eventTime then a.eventTime < b.eventTime
    else Less(a.eventID, b.eventID)
  }

  predicate NotAfter(a: Event, b: Event) {
    !Precedes(b, a)
  }

  function OrderEvents(events: seq<Event>): seq<Event> {
    Sort(NotAfter, events)
  }

  lemma NotAfterIsTotal()
    ensures TotalPreorder(NotAfter)
  {
    forall a: Event, b: Event, c: Event
      ensures NotAfter(a, b) || NotAfter(b, a)
      ensures NotAfter(a, b) && NotAfter(b, c) ==> NotAfter(a, c)
    {
      LessTotal(a.eventID, b.eventID);
      AtMostOrders(a.eventID, b.eventID, c.eventID);
      AtMostOrders(b.eventID, a.eventID, a.eventID);
      LessTotal(b.eventID, c.eventID);
      LessTotal(a.eventID, c.eventID);
      LessIrreflexive(a.eventID);
      if Less(c.eventID, a.eventID) && Less(a.eventID, b.eventID) {
        LessTransitive(c.eventID, a.eventID, b.eventID);
      }
      AtMostOrders(c.eventID, b.eventID, b.eventID);
    }
  }

  lemma TiedIDs(a: Event, b: Event)
    requires NotAfter(a, b) && NotAfter(b, a)
    ensures a.eventID == b.eventID && a.eventTime == b.eventTime && a.layer.Known() == b.layer.Known()
    ensures a.layer.Known() ==> a.layer == b.layer
  {
    LessTotal(a.eventID, b.eventID);
  }

  lemma DistinctTies(events: seq<Event>)
    requires DistinctIDs(events)
    ensures TiesEqual(NotAfter, events)
  {
    forall a, b | a in events && b in events && NotAfter(a, b) && NotAfter(b, a)
      ensures a == b
    {
      TiedIDs(a, b);
      var i :| 0 <= i < |events| && events[i] == a;
      var j :| 0 <= j < |events| && events[j] == b;
    }
  }

  /** With distinct ids the causal order depends only on which events there are. */
  lemma OrderForgetsArrival(events: seq<Event>, other: seq<Event>)
    requires DistinctIDs(events) && multiset(events) == multiset(other)
    ensures OrderEvents(events) == OrderEvents(other)
  {
    NotAfterIsTotal();
    DistinctTies(events);
    SortCanonical(NotAfter, events, other);
  }

  /** A later layer whose clock reads earlier than the one before it. */
  predicate Inverted(ordered: seq<Event>, i: nat)
    requires 0 < i < |ordered|
  {
    var prev, cur := ordered[i - 1], ordered[i];
    prev.layer.Known() && cur.layer.Known() && prev.layer != cur.layer && cur.eventTime < prev.eventTime
  }

  function GapMS(ordered: seq<Event>, i: nat): int
    requires 0 < i < |ordered|
  {
    (ordered[i - 1].eventTime - ordered[i].eventTime) / 1_000_000
  }

  /** The gap is in whole milliseconds, rounded down. */
  lemma GapExactly(ordered: seq<Event>, i: nat, ms: int)
    requires 0 < i < |ordered| && Inverted(ordered, i)
    ensures ms <= GapMS(ordered, i) <==> ms * 1_000_000 <= ordered[i - 1].eventTime - ordered[i].eventTime
  {
  }

  ghost predicate Skewed(ordered: seq<Event>) {
    exists i | 0 < i < |ordered| :: Inverted(ordered, i)
  }

  /** Whether timestamps contradict the order, and the widest contradiction. */
  method DetectSkew(ordered: seq<Event>) returns (skewed: bool, worstMS: int)
    ensures skewed <==> Skewed(ordered)
    ensures worstMS >= 0 && forall i | 0 < i < |ordered| && Inverted(ordered, i) :: GapMS(ordered, i) <= worstMS
    ensures worstMS == 0 || exists i | 0 < i < |ordered| && Inverted(ordered, i) :: GapMS(ordered, i) == worstMS
  {
    skewed, worstMS := false, 0;
    var i := 1;
    while i < |ordered|
      invariant 1 <= i
      invariant skewed <==> exists k | 0 < k < i && k < |ordered| :: Inverted(ordered, k)
      invariant worstMS >= 0
      invariant forall k | 0 < k < i && k < |ordered| && Inverted(ordered, k) :: GapMS(ordered, k) <= worstMS
      invariant worstMS == 0
             || exists k | 0 < k < i && k < |ordered| && Inverted(ordered, k) :: GapMS(ordered, k) == worstMS
    {
      var prev, cur := ordered[i - 1], ordered[i];
      if prev.layer.Known() && cur.layer.Known() && prev.layer != cur.layer && cur.eventTime < prev.eventTime {
        assert Inverted(ordered, i);
        var delta := (prev.eventTime - cur.eventTime) / 1_000_000;
        assert delta == GapMS(ordered, i);
        if delta > worstMS {
          worstMS := delta;
        }
        skewed := true;
      }
      i := i + 1;
    }
  }

  /** The known-layer events of an ordered flow appear in time order. */
  ghost predicate ClocksAgree(ordered: seq<Event>) {
    forall i, j | 0 <= i < j < |ordered| && ordered[i].layer.Known() && ordered[j].layer.Known() ::
      ordered[i].eventTime <= ordered[j].eventTime
  }

  lemma {:induction false} NoInversionNoDisorder(o: seq<Event>, i: nat, j: nat)
    requires Sorted(NotAfter, o) && !Skewed(o)
    requires i < j < |o| && o[j].layer.Known()
    ensures o[i].layer.Known() && o[i].eventTime <= o[j].eventTime
    decreases j - i
  {
    assert NotAfter(o[j - 1], o[j]);
    assert !Inverted(o, j);
    if i < j - 1 {
      NoInversionNoDisorder(o, i, j - 1);
    }
  }

  /** In causal order, adjacent inversions between layers are all the disorder there can be. */
  lemma SkewIsDisorder(events: seq<Event>)
    ensures Skewed(OrderEvents(events)) <==> !ClocksAgree(OrderEvents(events))
  {
    var o := OrderEvents(events);
    NotAfterIsTotal();
    SortSorted(NotAfter, events);
    if Skewed(o) {
      var i :| 0 < i < |o| && Inverted(o, i);
      assert o[i].eventTime < o[i - 1].eventTime;
    } else {
      forall i, j | 0 <= i < j < |o| && o[i].layer.Known() && o[j].layer.Known()
        ensures o[i].eventTime <= o[j].eventTime
      {
        NoInversionNoDisorder(o, i, j);
      }
    }
  }
}
