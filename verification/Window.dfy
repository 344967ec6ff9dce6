/** In-flight flow states, mutated in place through the window's map. */
module Windowing {
  import opened Text
  import opened Sorting
  import opened Events
  import opened Closing
  import opened Correlation

  ghost function EventSet(events: seq<Event>): set<Event> {
    set e | e in events
  }

  ghost predicate KnownID(events: set<Event>, id: string) {
    exists e | e in events :: e.eventID == id
  }

  /** One event recorded in a window; a redelivered one changes nothing. */
  ghost function Recorded(w: WindowView, e: Event, now: int): WindowView {
    if KnownID(w.events, e.eventID) then w else w.(events := w.events + {e}, last := now)
  }

  ghost function Added(w: map<string, WindowView>, key: string, e: Event, now: int): map<string, WindowView> {
    w[key := if key in w then Recorded(w[key], e, now) else WindowView({e}, now, now)]
  }

  /** The events of `from` whose ids `into` does not have. */
  ghost function NewTo(into: set<Event>, from: set<Event>): set<Event> {
    set e | e in from && !KnownID(into, e.eventID)
  }

  ghost function Combined(into: WindowView, from: WindowView): WindowView {
    WindowView(into.events + NewTo(into.events, from.events),
               if from.first < into.first then from.first else into.first,
               if from.last > into.last then from.last else into.last)
  }

  /** src folded into dst; without a dst, src renamed. */
  ghost function MergedWindows(w: map<string, WindowView>, dst: string, src: string): map<string, WindowView> {
    if src !in w || src == dst then w
    else if dst !in w then (w - {src})[dst := w[src]]
    else (w - {src})[dst := Combined(w[dst], w[src])]
  }

  ghost function DueIn(w: map<string, WindowView>, now: int, limits: Limits): set<string> {
    set k | k in w && Due(w[k], now, limits)
  }

  lemma DueIncluded(xs: seq<Event>, ys: seq<Event>, first: int, now: int, limits: Limits)
    requires forall e :: e in xs <==> e in ys
    ensures DueSeq(xs, first, now, limits) ==> DueSeq(ys, first, now, limits)
  {
    assert Materializing.Layers(xs) == Materializing.Layers(ys) by {
      forall l
        ensures l in Materializing.Layers(xs) <==> l in Materializing.Layers(ys)
      {
        if i :| 0 <= i < |xs| && xs[i].layer == l {
          assert xs[i] in ys;
        }
        if i :| 0 <= i < |ys| && ys[i].layer == l {
          assert ys[i] in xs;
        }
      }
    }
    if TerminallyComplete(xs) {
      var stop :| StopsAt(xs, stop) && forall o | 0 <= o <= stop :: Reported(xs, o);
      assert StopsAt(ys, stop);
      forall o | 0 <= o <= stop
        ensures Reported(ys, o)
      {
        assert Reported(xs, o);
      }
    }
  }

  /** Whether a window is due depends only on which events it holds. */
  lemma DueForgetsOrder(events: seq<Event>, first: int, last: int, now: int, limits: Limits)
    ensures DueSeq(events, first, now, limits) <==> Due(WindowView(EventSet(events), first, last), now, limits)
  {
    var listed := Listing(EventSet(events));
    forall e
      ensures e in listed <==> e in events
    {
      assert e in multiset(listed) <==> e in EventSet(events);
    }
    DueIncluded(events, listed, first, now, limits);
    DueIncluded(listed, events, first, now, limits);
  }

  lemma NewToSnoc(into: set<Event>, from: seq<Event>, i: nat)
    requires i < |from| && DistinctIDs(from)
    ensures var have := into + NewTo(into, EventSet(from[..i]));
      && (KnownID(have, from[i].eventID) <==> KnownID(into, from[i].eventID))
      && into + NewTo(into, EventSet(from[..i + 1]))
         == if KnownID(into, from[i].eventID) then have else have + {from[i]}
  {
    var before, after := from[..i], from[..i + 1];
    assert after == before + [from[i]];
    var have := into + NewTo(into, EventSet(before));
    assert forall x | x in before :: x.eventID != from[i].eventID;
    if KnownID(into, from[i].eventID) {
      var x :| x in into && x.eventID == from[i].eventID;
      assert x in have;
    }
  }

  class FlowState {
    var correlationKey: string
    var events: seq<Event>
    var firstArrival: int
    var lastArrival: int
    var closed: bool
    var closedAt: int
    var amended: bool

    ghost function View(): WindowView
      reads this`events, this`firstArrival, this`lastArrival
    {
      WindowView(EventSet(events), firstArrival, lastArrival)
    }

    /** An open state: not closed, never amended, each event id once. */
    ghost predicate Open(key: string)
      reads this
    {
      correlationKey == key && !closed && !amended && DistinctIDs(events) && events != []
    }

    constructor (key: string, now: int)
      ensures correlationKey == key && events == [] && firstArrival == now
      ensures !closed && !amended
    {
      correlationKey, events, firstArrival, lastArrival := key, [], now, 0;
      closed, closedAt, amended := false, 0, false;
    }

    method Holds(id: string) returns (found: bool)
      ensures found <==> KnownID(View().events, id)
    {
      for i := 0 to |events|
        invariant forall k | 0 <= k < i :: events[k].eventID != id
      {
        if events[i].eventID == id {
          assert events[i] in View().events;
          return true;
        }
      }
      return false;
    }

    /** Appends an event with a new id. */
    method Append(e: Event)
      requires !KnownID(View().events, e.eventID) && DistinctIDs(events)
      modifies this`events
      ensures View() == old(View()).(events := old(View().events) + {e}) && DistinctIDs(events)
      ensures |events| == old(|events|) + 1
    {
      assert forall k | 0 <= k < |events| :: events[k] in View().events;
      events := events + [e];
    }

    /** Adds an event unless its id is there already; a closed state is marked amended. */
    method Record(e: Event, now: int)
      requires DistinctIDs(events)
      modifies this
      ensures View() == Recorded(old(View()), e, now) && DistinctIDs(events) && events != []
      ensures correlationKey == old(correlationKey) && closed == old(closed)
      ensures amended == (old(amended) || (closed && !KnownID(old(View()).events, e.eventID)))
    {
      var dup := Holds(e.eventID);
      if dup {
        return;
      }
      Append(e);
      lastArrival := now;
      if closed {
        amended := true;
      }
    }

    /** Folds another state in: events with new ids, the earlier and the later arrival. */
    method Absorb(from: FlowState)
      requires from != this && DistinctIDs(events) && DistinctIDs(from.events)
      modifies this
      ensures correlationKey == old(correlationKey) && closed == old(closed)
      ensures amended == (old(amended) || closed)
      ensures DistinctIDs(events) && |events| >= old(|events|)
      ensures View() == Combined(old(View()), from.View())
    {
      ghost var into := View();
      for i := 0 to |from.events|
        invariant View() == into.(events := into.events + NewTo(into.events, EventSet(from.events[..i])))
        invariant DistinctIDs(events) && |events| >= old(|events|)
        invariant correlationKey == old(correlationKey) && closed == old(closed) && amended == old(amended)
      {
        var e := from.events[i];
        assert from.events[..i + 1] == from.events[..i] + [e];
        NewToSnoc(into.events, from.events, i);
        var dup := Holds(e.eventID);
        if !dup {
          Append(e);
        }
      }
      assert from.events[..|from.events|] == from.events;
      if from.firstArrival < firstArrival {
        firstArrival := from.firstArrival;
      }
      if from.lastArrival > lastArrival {
        lastArrival := from.lastArrival;
      }
      if closed {
        amended := true;
      }
    }
  }

  /** The object is closed and still shows the view it had. */
  ghost predicate Closed(st: FlowState, view: WindowView, key: string, now: int)
    reads st
  {
    && st.View() == view && st.correlationKey == key
    && st.closed && st.closedAt == now && !st.amended
    && DistinctIDs(st.events) && st.events != []
  }

  /** The states taken out are closed and show the windows ks had. */
  ghost predicate Taken(ready: seq<FlowState>, view: map<string, WindowView>, ks: seq<string>, now: int)
    reads ready
  {
    |ready| == |ks| && forall i {:trigger ready[i]} {:trigger ks[i]} | 0 <= i < |ready| ::
      ks[i] in view && Closed(ready[i], view[ks[i]], ks[i], now)
  }

  lemma ListedDistinct(keys: set<string>, listed: seq<string>)
    requires multiset(listed) == multiset(keys)
    ensures Distinct(listed)
  {
    forall i, j | 0 <= i < j < |listed|
      ensures listed[i] != listed[j]
    {
      if listed[i] == listed[j] {
        OccursTwice(listed, i, j);
      }
    }
  }

  method SortKeys(keys: set<string>) returns (ordered: seq<string>)
    ensures (forall k :: k in ordered <==> k in keys) && Ascending(ordered)
  {
    var listed := Grouping.ListSet(keys);
    assert forall k :: k in listed <==> k in multiset(listed);
    Identifiers.AtMostIsTotal();
    SortSorted(AtMost, listed);
    ordered := Sort(AtMost, listed);
    SameElements(ordered, listed);
    ListedDistinct(keys, listed);
    DistinctPermuted(listed, ordered);
    Identifiers.StringTies(ordered);
  }

  class Window {
    const limits: Limits
    var states: map<string, FlowState>
    /** Every state this window ever created. */
    ghost var owned: set<FlowState>

    /** What the states show, by key. */
    ghost var view: map<string, WindowView>

    ghost predicate Valid()
      reads this, owned
    {
      && view.Keys == states.Keys
      && forall k {:trigger states[k]} | k in states ::
           states[k] in owned && states[k].Open(k) && states[k].View() == view[k]
    }

    constructor (lateArrival: int, expectedLayers: int)
      ensures Valid() && owned == {} && view == map[]
      ensures limits.lateArrival == (if lateArrival <= 0 then 900_000_000_000 else lateArrival)
      ensures limits.expectedLayers == (if expectedLayers <= 0 then 4 else expectedLayers)
    {
      limits := Limits(if lateArrival <= 0 then 900_000_000_000 else lateArrival,
                       if expectedLayers <= 0 then 4 else expectedLayers);
      states := map[];
      owned, view := {}, map[];
    }

    /** Records an event against its key. */
    method Add(key: string, e: Event, now: int)
      requires Valid()
      modifies this, owned
      ensures Valid() && fresh(owned - old(owned))
      ensures view == Added(old(view), key, e, now)
    {
      view := Added(view, key, e, now);
      if key in states {
        states[key].Record(e, now);
      } else {
        var st := new FlowState(key, now);
        assert EventSet([]) == {};
        st.Record(e, now);
        assert st.View() == WindowView({e}, now, now);
        states := states[key := st];
        owned := owned + {st};
      }
    }

    /** Folds src into dst and removes src. */
    method Merge(dst: string, src: string)
      requires Valid()
      modifies this`states, this`view, owned
      ensures Valid()
      ensures view == MergedWindows(old(view), dst, src)
    {
      if src !in states || src == dst {
        return;
      }
      view := MergedWindows(view, dst, src);
      var from := states[src];
      if dst !in states {
        from.correlationKey := dst;
        states := (states - {src})[dst := from];
        return;
      }
      var into := states[dst];
      into.Absorb(from);
      states := states - {src};
    }

    /** Whether one state should close now. */
    method IsDue(st: FlowState, now: int) returns (due: bool)
      ensures due <==> Due(st.View(), now, limits)
    {
      DueForgetsOrder(st.events, st.firstArrival, st.lastArrival, now, limits);
      var all := HasEveryLayer(st.events, limits.expectedLayers);
      if all {
        return true;
      }
      var stopped := IsTerminallyComplete(st.events);
      if stopped {
        return true;
      }
      return now - st.firstArrival >= limits.lateArrival;
    }

    /** The keys of the states that are due: what the one pass over the map selects. */
    method FindDue(now: int) returns (due: set<string>)
      requires Valid()
      ensures due == DueIn(view, now, limits)
    {
      due := {};
      var rest := states.Keys;
      while rest != {}
        invariant rest <= states.Keys
        invariant forall k | k in states && k !in rest :: k in due <==> Due(view[k], now, limits)
        invariant forall k | k in due :: k in states && k !in rest
      {
        var k :| k in rest;
        rest := rest - {k};
        var ready := IsDue(states[k], now);
        if ready {
          due := due + {k};
        }
      }
    }

    /** `gone` are the closed states among `all`; the others are still in the map, open. */
    ghost predicate Parted(all: map<string, FlowState>, gone: map<string, FlowState>, now: int)
      reads this`states, owned, this`owned
    {
      && gone.Keys <= all.Keys && states.Keys == all.Keys - gone.Keys
      && (forall k {:trigger gone[k]} | k in gone ::
             gone[k] == all[k] && gone[k] in owned && gone[k].closed && gone[k].closedAt == now)
      && forall k {:trigger states[k]} | k in states ::
           states[k] == all[k] && states[k] in owned && !states[k].closed && states[k].correlationKey == k
    }

    /** Closes and removes the states of the selected keys. */
    method CloseAll(keys: set<string>, now: int) returns (gone: map<string, FlowState>)
      requires Valid() && keys <= states.Keys
      modifies this`states, owned`closed, owned`closedAt
      ensures gone.Keys == keys && Parted(old(states), gone, now)
    {
      gone := map[];
      var rest := keys;
      ghost var all := states;
      while rest != {}
        invariant rest <= keys && gone.Keys == keys - rest
        invariant Parted(all, gone, now) && keys <= all.Keys
      {
        var k :| k in rest;
        rest := rest - {k};
        gone := CloseOne(k, gone, all, now);
      }
    }

    method CloseOne(
      k: string, closed: map<string, FlowState>, ghost all: map<string, FlowState>, now: int)
      returns (gone: map<string, FlowState>)
      requires Parted(all, closed, now) && k in states
      modifies this`states, owned`closed, owned`closedAt
      ensures Parted(all, gone, now) && gone.Keys == closed.Keys + {k}
    {
      var st := states[k];
      forall l {:trigger closed[l]} | l in closed
        ensures closed[l] != st
      {
        assert closed[l].closed;
      }
      st.closed, st.closedAt := true, now;
      states := states - {k};
      gone := closed[k := st];
    }

    /** Takes the selected states out, ascending by key; ks names their keys. */
    method TakeOut(keys: set<string>, now: int) returns (ready: seq<FlowState>, ghost ks: seq<string>)
      requires Valid() && keys <= states.Keys
      modifies this`states, this`view, owned`closed, owned`closedAt
      ensures Valid() && view == old(view) - keys
      ensures Ascending(ks) && AsSet(ks) == keys && Taken(ready, old(view), ks, now)
    {
      var gone := CloseAll(keys, now);
      view := view - keys;
      assert forall k {:trigger gone[k]} | k in gone :: Closed(gone[k], old(view)[k], k, now);
      ready, ks := InKeyOrder(gone);
    }

    /** Takes every due state out, ascending by key; ks names their keys. */
    method Ready(now: int) returns (ready: seq<FlowState>, ghost ks: seq<string>)
      requires Valid()
      modifies this`states, this`view, owned`closed, owned`closedAt
      ensures Valid() && view == old(view) - DueIn(old(view), now, limits)
      ensures Ascending(ks) && AsSet(ks) == DueIn(old(view), now, limits) && Taken(ready, old(view), ks, now)
    {
      var due := FindDue(now);
      ready, ks := TakeOut(due, now);
    }

    method InKeyOrder(gone: map<string, FlowState>) returns (ready: seq<FlowState>, ghost ks: seq<string>)
      ensures Ascending(ks) && AsSet(ks) == gone.Keys && |ready| == |ks|
      ensures forall i {:trigger ready[i]} {:trigger ks[i]} | 0 <= i < |ready| ::
        ks[i] in gone && ready[i] == gone[ks[i]]
    {
      var ordered := SortKeys(gone.Keys);
      ks := ordered;
      ready := seq(|ordered|, i requires 0 <= i < |ordered| => gone[ordered[i]]);
    }
  }
}
