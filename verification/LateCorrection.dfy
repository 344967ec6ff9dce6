/** Folding a flow that closed late into the one already stored under its key. */
module LateCorrection {
  import opened Sorting
  import opened Events
  import opened Ordering
  import opened Identifiers
  import opened Materializing

  ghost predicate HasID(events: seq<Event>, id: string) {
    exists e | e in events :: e.eventID == id
  }

  /** `acc` followed by the events of `more` whose ids are new, first come first kept. */
  ghost function Append(acc: seq<Event>, more: seq<Event>): seq<Event> {
    if more == [] then acc
    else
      var n := |more| - 1;
      var before := Append(acc, more[..n]);
      if HasID(before, more[n].eventID) then before else before + [more[n]]
  }

  method AppendNew(acc: seq<Event>, seen: set<string>, more: seq<Event>)
    returns (out: seq<Event>, seenNow: set<string>, added: bool)
    requires forall id :: id in seen <==> HasID(acc, id)
    ensures out == Append(acc, more)
    ensures forall id :: id in seenNow <==> HasID(out, id)
    ensures added <==> exists e | e in more :: e.eventID !in seen
    ensures !added ==> out == acc
  {
    out, seenNow, added := acc, seen, false;
    for i := 0 to |more|
      invariant out == Append(acc, more[..i])
      invariant forall id :: id in seenNow <==> HasID(out, id)
      invariant seen <= seenNow
      invariant added <==> exists e | e in more[..i] :: e.eventID !in seen
      invariant !added ==> out == acc && seenNow == seen
    {
      var e := more[i];
      assert more[..i + 1] == more[..i] + [e];
      assert e in more[..i + 1];
      assert more[..i + 1][..i] == more[..i];
      if e.eventID !in seenNow {
        forall id
          ensures HasID(out + [e], id) <==> HasID(out, id) || id == e.eventID
        {
          assert e in out + [e];
          if HasID(out, id) {
            var x :| x in out && x.eventID == id;
            assert x in out + [e];
          }
        }
        seenNow, out, added := seenNow + {e.eventID}, out + [e], true;
      } else if e.eventID !in seen {
        assert added;
      }
    }
    assert more[..|more|] == more;
  }

  ghost function MergeOptions(existing: Flow, late: Flow, tenant: string, expected: seq<Layer>, now: int): Options {
    Options(tenant, expected, existing.tier, existing.bridged || late.bridged, true, now)
  }

  ghost predicate AddsNothing(existing: Flow, late: Flow) {
    forall e | e in late.events :: HasID(existing.events, e.eventID)
  }

  /** What mergeWithStored answers: none without a stored flow, the stored flow itself when the
      late one adds no event, and otherwise the amended flow over the united events. */
  ghost function Merged(
    tenant: string, key: string, late: Flow, existing: Option<Flow>, expected: seq<Layer>, now: int): Option<Flow>
  {
    if existing.None? then None
    else if AddsNothing(existing.value, late) then existing
    else
      var united := Append(Append([], existing.value.events), late.events);
      match Materialized(key, united, MergeOptions(existing.value, late, tenant, expected, now))
      case None => None
      case Some(f) => Some(f.(amended := true))
  }

  lemma {:induction false} AppendDistinct(acc: seq<Event>, more: seq<Event>)
    requires DistinctIDs(acc)
    ensures DistinctIDs(Append(acc, more))
    ensures forall id :: HasID(Append(acc, more), id) <==> HasID(acc, id) || HasID(more, id)
    ensures forall e | e in Append(acc, more) :: e in acc || e in more
  {
    if more != [] {
      var n := |more| - 1;
      AppendDistinct(acc, more[..n]);
      var before := Append(acc, more[..n]);
      assert more == more[..n] + [more[n]];
      assert forall x :: x in more <==> x in more[..n] || x == more[n];
      var after := Append(acc, more);
      forall id
        ensures HasID(after, id) <==> HasID(before, id) || id == more[n].eventID
      {
        if !HasID(before, more[n].eventID) {
          assert forall x :: x in after <==> x in before || x == more[n];
        }
      }
      if !HasID(before, more[n].eventID) {
        forall i | 0 <= i < |before|
          ensures before[i].eventID != more[n].eventID
        {
          assert before[i] in before;
        }
      }
    }
  }

  lemma {:induction false} AppendAllNew(more: seq<Event>)
    requires DistinctIDs(more)
    ensures Append([], more) == more
  {
    if more != [] {
      var n := |more| - 1;
      AppendAllNew(more[..n]);
      assert more == more[..n] + [more[n]];
      assert forall x | x in more[..n] :: x.eventID != more[n].eventID;
    }
  }

  method MergeWithStored(
    tenant: string, key: string, late: Flow, existing: Option<Flow>, expected: seq<Layer>, now: int)
    returns (merged: Option<Flow>)
    ensures merged == Merged(tenant, key, late, existing, expected, now)
  {
    if existing.None? {
      return None;
    }
    var stored := existing.value;
    var kept, seen, _ := AppendNew([], {}, stored.events);
    AppendDistinct([], stored.events);
    var events, _, added := AppendNew(kept, seen, late.events);
    assert added <==> !AddsNothing(stored, late);
    if !added {
      return existing;
    }
    var options := Options(tenant, expected, stored.tier, stored.bridged || late.bridged, true, now);
    var f := Materialize(key, events, options);
    if f.None? {
      return None;
    }
    return Some(f.value.(amended := true));
  }

  // ---- the repaired flow is the flow that was never split ----

  /** A window is bridged when some event carries more than one identifier. */
  predicate BridgedBy(events: seq<Event>) {
    exists i | 0 <= i < |events| :: |events[i].identifiers| > 1
  }

  function WindowOptions(events: seq<Event>, tenant: string, expected: seq<Layer>, tier: Tier, now: int): Options {
    Options(tenant, expected, tier, BridgedBy(events), true, now)
  }

  ghost predicate SameEvents(xs: seq<Event>, ys: seq<Event>) {
    forall e :: e in xs <==> e in ys
  }

  /** A flow up to the amendment mark and the time it closed. */
  function Essence(f: Flow): Flow {
    f.(amended := false, closedAt := None)
  }

  lemma BridgedForgetsOrder(xs: seq<Event>, ys: seq<Event>)
    requires SameEvents(xs, ys)
    ensures BridgedBy(xs) == BridgedBy(ys)
  {
    if BridgedBy(xs) {
      var i :| 0 <= i < |xs| && |xs[i].identifiers| > 1;
      assert xs[i] in ys;
    }
    if BridgedBy(ys) {
      var i :| 0 <= i < |ys| && |ys[i].identifiers| > 1;
      assert ys[i] in xs;
    }
  }

  lemma {:induction false} SameEventsPermuted(xs: seq<Event>, ys: seq<Event>)
    requires DistinctIDs(xs) && DistinctIDs(ys) && SameEvents(xs, ys)
    ensures multiset(xs) == multiset(ys)
  {
    assert Distinct(xs) && Distinct(ys);
    forall e
      ensures multiset(xs)[e] == multiset(ys)[e]
    {
      OccursOnce(xs, e);
      OccursOnce(ys, e);
      assert e in xs <==> e in multiset(xs);
      assert e in ys <==> e in multiset(ys);
    }
  }

  /** Materializing the same events under options that differ only in the closing time. */
  lemma MaterializedEssence(key: string, xs: seq<Event>, ys: seq<Event>, o: Options, p: Options)
    requires xs != [] && DistinctIDs(xs) && DistinctIDs(ys) && SameEvents(xs, ys)
    requires p == o.(now := p.now)
    ensures Materialized(key, xs, o).Some? && Materialized(key, ys, p).Some?
    ensures Essence(Materialized(key, xs, o).value) == Essence(Materialized(key, ys, p).value)
  {
    SameEventsPermuted(xs, ys);
    SameElements(xs, ys);
    OrderForgetsArrival(xs, ys);
  }

  /** The stored flow and the late one, as the windows that closed on xs and ys gave them. */
  ghost predicate Closes(
    key: string, events: seq<Event>, tenant: string, expected: seq<Layer>, tier: Tier, now: int, f: Flow)
  {
    && events != [] && DistinctIDs(events)
    && Materialized(key, events, WindowOptions(events, tenant, expected, tier, now)) == Some(f)
  }

  lemma OrderedIDs(events: seq<Event>)
    requires DistinctIDs(events)
    ensures DistinctIDs(OrderEvents(events))
  {
    var o := OrderEvents(events);
    SameElements(events, o);
    assert Distinct(events);
    DistinctPermuted(events, o);
    forall i, j | 0 <= i < j < |o|
      ensures o[i].eventID != o[j].eventID
    {
      assert o[i] in events && o[j] in events && o[i] != o[j];
    }
  }

  lemma ClosedFlowEvents(
    key: string, events: seq<Event>, tenant: string, expected: seq<Layer>, tier: Tier, now: int, f: Flow)
    requires Closes(key, events, tenant, expected, tier, now, f)
    ensures SameEvents(f.events, events) && DistinctIDs(f.events)
    ensures f.tier == tier && f.bridged == BridgedBy(events) && f.tenant == tenant
  {
    SameElements(events, OrderEvents(events));
    OrderedIDs(events);
  }

  lemma SameIDSameEvent(events: seq<Event>, x: Event, y: Event)
    requires DistinctIDs(events) && x in events && y in events && x.eventID == y.eventID
    ensures x == y
  {
    var i :| 0 <= i < |events| && events[i] == x;
    var j :| 0 <= j < |events| && events[j] == y;
  }

  /** `all` lists the events of xs and ys once each; that it can means equal ids are equal events. */
  ghost predicate United(xs: seq<Event>, ys: seq<Event>, all: seq<Event>) {
    DistinctIDs(all) && forall e :: e in all <==> e in xs || e in ys
  }

  lemma UnitedEvents(xs: seq<Event>, ys: seq<Event>, stored: seq<Event>, late: seq<Event>, all: seq<Event>)
    requires SameEvents(stored, xs) && SameEvents(late, ys) && DistinctIDs(stored)
    requires United(xs, ys, all)
    ensures var united := Append(Append([], stored), late);
      DistinctIDs(united) && SameEvents(united, all)
  {
    AppendAllNew(stored);
    AppendDistinct(stored, late);
    var united := Append(stored, late);
    forall e | e in all
      ensures e in united
    {
      assert HasID(if e in stored then stored else late, e.eventID);
      var x :| x in united && x.eventID == e.eventID;
      SameIDSameEvent(all, x, e);
    }
  }

  lemma BridgedUnion(xs: seq<Event>, ys: seq<Event>, all: seq<Event>)
    requires forall e :: e in all <==> e in xs || e in ys
    ensures BridgedBy(all) == (BridgedBy(xs) || BridgedBy(ys))
  {
    BridgedForgetsOrder(all, xs + ys);
    if BridgedBy(xs + ys) {
      var i :| 0 <= i < |xs + ys| && |(xs + ys)[i].identifiers| > 1;
      if i < |xs| {
        assert |xs[i].identifiers| > 1;
      } else {
        assert |ys[i - |xs|].identifiers| > 1;
      }
    }
    if BridgedBy(xs) {
      var i :| 0 <= i < |xs| && |xs[i].identifiers| > 1;
      assert (xs + ys)[i] == xs[i];
    }
    if BridgedBy(ys) {
      var i :| 0 <= i < |ys| && |ys[i].identifiers| > 1;
      assert (xs + ys)[|xs| + i] == ys[i];
    }
  }

  lemma NothingAdded(xs: seq<Event>, ys: seq<Event>, all: seq<Event>, stored: Flow, late: Flow)
    requires SameEvents(stored.events, xs) && SameEvents(late.events, ys) && United(xs, ys, all)
    requires AddsNothing(stored, late)
    ensures SameEvents(xs, all)
  {
    forall e | e in ys
      ensures e in xs
    {
      assert e in late.events;
      var x :| x in stored.events && x.eventID == e.eventID;
      SameIDSameEvent(all, x, e);
    }
  }

  /** A late flow folded into the stored flow of its key is, but for the amendment mark and the
      closing time, the flow of one window that had held all the events. */
  lemma NeverSplit(key: string, xs: seq<Event>, ys: seq<Event>, all: seq<Event>, tenant: string,
                   expected: seq<Layer>, tier: Tier, t0: int, t1: int, t: int, stored: Flow, late: Flow)
    requires Closes(key, xs, tenant, expected, tier, t0, stored)
    requires Closes(key, ys, tenant, expected, tier, t1, late)
    requires United(xs, ys, all)
    ensures var merged := Merged(tenant, key, late, Some(stored), expected, t1);
      var whole := Materialized(key, all, WindowOptions(all, tenant, expected, tier, t));
      && merged.Some? && whole.Some?
      && Essence(merged.value) == Essence(whole.value)
  {
    ClosedFlowEvents(key, xs, tenant, expected, tier, t0, stored);
    ClosedFlowEvents(key, ys, tenant, expected, tier, t1, late);
    assert xs[0] in all;
    BridgedUnion(xs, ys, all);
    if AddsNothing(stored, late) {
      NothingAdded(xs, ys, all, stored, late);
      BridgedForgetsOrder(xs, all);
      MaterializedEssence(key, xs, all, WindowOptions(xs, tenant, expected, tier, t0),
                          WindowOptions(all, tenant, expected, tier, t));
    } else {
      UnitedEvents(xs, ys, stored.events, late.events, all);
      var united := Append(Append([], stored.events), late.events);
      assert all[0] in united;
      MaterializedEssence(key, united, all, MergeOptions(stored, late, tenant, expected, t1),
                          WindowOptions(all, tenant, expected, tier, t));
    }
  }

  /** Folding the same late flow in again changes nothing. */
  lemma MergeTwice(tenant: string, key: string, late: Flow, existing: Flow, expected: seq<Layer>, now: int, again: int)
    requires Merged(tenant, key, late, Some(existing), expected, now).Some?
    ensures var once := Merged(tenant, key, late, Some(existing), expected, now);
      Merged(tenant, key, late, once, expected, again) == once
  {
    var once := Merged(tenant, key, late, Some(existing), expected, now).value;
    if !AddsNothing(existing, late) {
      AppendDistinct([], existing.events);
      var united := Append(Append([], existing.events), late.events);
      AppendDistinct(Append([], existing.events), late.events);
      SameElements(united, OrderEvents(united));
      assert once.events == OrderEvents(united);
      forall e | e in late.events
        ensures HasID(once.events, e.eventID)
      {
        assert HasID(late.events, e.eventID);
        assert HasID(united, e.eventID);
        var x :| x in united && x.eventID == e.eventID;
        assert x in once.events;
      }
    }
  }

  lemma {:induction false} AppendEvents(acc: seq<Event>, more: seq<Event>, e: Event)
    requires DistinctIDs(acc) && DistinctIDs(more)
    ensures e in Append(acc, more) <==> e in acc || (e in more && !HasID(acc, e.eventID))
  {
    if more != [] {
      var n := |more| - 1;
      AppendEvents(acc, more[..n], e);
      assert more == more[..n] + [more[n]];
      var before := Append(acc, more[..n]);
      assert HasID(before, more[n].eventID) <==> HasID(acc, more[n].eventID) by {
        AppendDistinct(acc, more[..n]);
        assert forall x | x in more[..n] :: x.eventID != more[n].eventID;
      }
    }
  }

  lemma SomeAdded(existing: Flow, late: Flow) returns (e: Event)
    requires !AddsNothing(existing, late)
    ensures e in late.events && !HasID(existing.events, e.eventID)
  {
    e :| e in late.events && !HasID(existing.events, e.eventID);
  }

  /** A stored flow that grew holds its own events and those of the late flow it lacked, keeps its tier, is bridged if
      either was, and is marked amended and closed now; one that did not grow is left alone. */
  lemma GrowthIsMarked(tenant: string, key: string, late: Flow, existing: Flow, expected: seq<Layer>, now: int)
    requires DistinctIDs(existing.events) && DistinctIDs(late.events)
    ensures var merged := Merged(tenant, key, late, Some(existing), expected, now);
      && merged.Some?
      && var f := merged.value;
         if forall e | e in late.events :: exists x | x in existing.events :: x.eventID == e.eventID then f == existing
         else
           && f.amended && f.closedAt == Some(now) && f.tier == existing.tier
           && f.bridged == (existing.bridged || late.bridged)
           && f.correlationKey == key && f.flowID == FlowID(key) && f.tenant == tenant
           && forall e :: e in f.events <==>
                e in existing.events || (e in late.events && !exists x | x in existing.events :: x.eventID == e.eventID)
  {
    if !AddsNothing(existing, late) {
      AppendAllNew(existing.events);
      var united := Append(existing.events, late.events);
      var e := SomeAdded(existing, late);
      AppendEvents(existing.events, late.events, e);
      assert united != [];
      SameElements(united, OrderEvents(united));
      forall e
        ensures e in united <==> e in existing.events || (e in late.events && !HasID(existing.events, e.eventID))
      {
        AppendEvents(existing.events, late.events, e);
      }
    }
  }

  /** The merged flow's event ids are those of both flows, without repeats. */
  lemma MergedIDs(tenant: string, key: string, late: Flow, existing: Flow, expected: seq<Layer>, now: int)
    requires DistinctIDs(existing.events)
    requires Merged(tenant, key, late, Some(existing), expected, now).Some?
    ensures var merged := Merged(tenant, key, late, Some(existing), expected, now).value;
      && DistinctIDs(merged.events)
      && forall id :: HasID(merged.events, id) <==> HasID(existing.events, id) || HasID(late.events, id)
  {
    var merged := Merged(tenant, key, late, Some(existing), expected, now).value;
    if !AddsNothing(existing, late) {
      AppendAllNew(existing.events);
      AppendDistinct(existing.events, late.events);
      var united := Append(existing.events, late.events);
      OrderedIDs(united);
      SameElements(united, OrderEvents(united));
      forall id
        ensures HasID(OrderEvents(united), id) <==> HasID(united, id)
      {
      }
    } else {
      forall id | HasID(late.events, id)
        ensures HasID(existing.events, id)
      {
        var e :| e in late.events && e.eventID == id;
      }
    }
  }
}
