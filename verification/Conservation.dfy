/** No accepted event is lost, repeated or held past its deadline before a flush takes it. */
module Conservation {
  import opened Events
  import opened Grouping
  import opened Correlation
  import opened OnlineBatch

  /** The ids of the events in the open windows named in ks. */
  ghost function IDsOf(windows: map<string, WindowView>, ks: set<string>): set<string> {
    set k, e | k in ks && k in windows && e in windows[k].events :: e.eventID
  }

  ghost function OpenIDs(s: State): set<string> {
    IDsOf(s.windows, s.windows.Keys)
  }

  /** The ids every flush of the run has taken, with repetition. */
  ghost function Taken(ops: seq<Op>, limits: Limits): multiset<string> {
    if ops == [] then multiset{}
    else
      var before, op := ops[..|ops| - 1], ops[|ops| - 1];
      var s := Run(before, limits);
      Taken(before, limits)
      + if op.FlushAt? then multiset(IDsOf(s.windows, DueKeys(s, op.now, limits))) else multiset{}
  }

  lemma {:induction false} IdentifiedAppend(xs: seq<Record>, ys: seq<Record>)
    ensures Identified(xs + ys) == Identified(xs) + Identified(ys)
  {
    if ys == [] {
      assert xs + [] == xs;
    } else {
      var n := |ys| - 1;
      IdentifiedAppend(xs, ys[..n]);
      assert (xs + ys)[..|xs + ys| - 1] == xs + ys[..n];
    }
  }

  lemma FirstIdentified(records: seq<Record>)
    requires records != []
    ensures Identified(records)
         == (if records[0].identifiers == [] then [] else [records[0].eventID]) + Identified(records[1..])
  {
    var first := records[..1];
    assert first[..0] == [];
    assert Identified(first)
        == Identified(first[..0]) + if records[0].identifiers == [] then [] else [records[0].eventID];
    IdentifiedAppend(first, records[1..]);
    assert records == first + records[1..];
  }

  lemma NotOpen(s: State, e: Event)
    requires Invariant(s) && e.eventID in s.events && s.events[e.eventID] == e && !InWindow(s, e)
    ensures e.eventID !in OpenIDs(s)
  {
    forall k, f | k in s.windows && f in s.windows[k].events
      ensures f.eventID != e.eventID
    {
      assert Correlation.Placed(s, k, f);
    }
  }

  lemma FilingIDs(s: State, now: int, e: Event, touched: set<string>, key: string, id: string)
    requires Filing(s, e, touched, key)
    ensures id in OpenIDs(FileFirst(s, now)) <==> id in OpenIDs(s) || id == e.eventID
  {
    var t := FileFirst(s, now);
    WindowsAfter(s, now, e, touched, key);
    if id in OpenIDs(t) {
      var k, f :| k in t.windows && f in t.windows[k].events && f.eventID == id;
      if f != e {
        var l :| l in s.windows && f in s.windows[l].events;
      }
    }
    if id in OpenIDs(s) {
      var l, f :| l in s.windows && f in s.windows[l].events && f.eventID == id;
      assert f in t.windows[if l in touched then key else l].events;
    }
    assert e in t.windows[key].events;
  }

  lemma OpenAfterFiling(s: State, now: int, e: Event, touched: set<string>, key: string)
    requires Filing(s, e, touched, key)
    ensures e.eventID !in OpenIDs(s) && OpenIDs(FileFirst(s, now)) == OpenIDs(s) + {e.eventID}
  {
    assert Pending(s, s.records[0]);
    NotOpen(s, e);
    forall id
      ensures id in OpenIDs(FileFirst(s, now)) <==> id in OpenIDs(s) || id == e.eventID
    {
      FilingIDs(s, now, e, touched, key, id);
    }
  }

  lemma AddOne(s: set<string>, x: string)
    requires x !in s
    ensures multiset(s + {x}) == multiset(s) + multiset{x}
  {
  }

  /** Filing a record moves its event from the pending list into one window. */
  lemma FilingMoves(s: State, now: int)
    requires Invariant(s) && s.records != []
    ensures var t := FileFirst(s, now);
      multiset(OpenIDs(t)) + multiset(Identified(t.records)) == multiset(OpenIDs(s)) + multiset(Identified(s.records))
  {
    var t := FileFirst(s, now);
    FirstIdentified(s.records);
    assert t.records == s.records[1..];
    if s.records[0].identifiers != [] {
      var e, touched, key := FilingParts(s);
      OpenAfterFiling(s, now, e, touched, key);
      assert e.eventID == s.records[0].eventID by { assert Pending(s, s.records[0]); }
      AddOne(OpenIDs(s), e.eventID);
    }
  }

  lemma {:induction false} CorrelateMoves(s: State, now: int)
    requires Invariant(s)
    ensures multiset(OpenIDs(Correlate(s, now))) == multiset(OpenIDs(s)) + multiset(Identified(s.records))
    decreases |s.records|
  {
    if s.records != [] {
      FilingMoves(s, now);
      FileFirstKeeps(s, now);
      CorrelateMoves(FileFirst(s, now), now);
    }
  }

  /** A flush splits the open events into those it takes and those that stay. */
  lemma FlushSplits(s: State, now: int, limits: Limits)
    requires Invariant(s)
    ensures multiset(OpenIDs(s))
         == multiset(OpenIDs(Flush(s, now, limits))) + multiset(IDsOf(s.windows, DueKeys(s, now, limits)))
  {
    var t, due := Flush(s, now, limits), DueKeys(s, now, limits);
    var stay, go := OpenIDs(t), IDsOf(s.windows, due);
    forall id
      ensures id in OpenIDs(s) <==> id in stay || id in go
      ensures !(id in stay && id in go)
    {
      if id in OpenIDs(s) {
        var k, e :| k in s.windows && e in s.windows[k].events && e.eventID == id;
        assert k !in due ==> k in t.windows && e in t.windows[k].events;
      }
      if id in stay {
        var k, e :| k in t.windows && e in t.windows[k].events && e.eventID == id;
        StaysAccepted(s, due, k, e);
      }
    }
    assert OpenIDs(s) == stay + go && stay !! go;
  }

  lemma AcceptMoves(ops: seq<Op>, limits: Limits, s: State, e: Event)
    requires ops != [] && ops[|ops| - 1] == Accept(e) && s == Run(ops[..|ops| - 1], limits)
    ensures var t, before := Run(ops, limits), ops[..|ops| - 1];
      && OpenIDs(t) == OpenIDs(s) && Taken(ops, limits) == Taken(before, limits)
      && exists more ::
           && Identified(Accepted(ops, limits)) == Identified(Accepted(before, limits)) + more
           && Identified(t.records) == Identified(s.records) + more
  {
    var t, before := Run(ops, limits), ops[..|ops| - 1];
    var more := if e.eventID in s.events then [] else [RecordOf(e)];
    assert t == AcceptEvent(s, e);
    assert t.records == s.records + more;
    assert Accepted(ops, limits) == Accepted(before, limits) + more;
    IdentifiedAppend(s.records, more);
    IdentifiedAppend(Accepted(before, limits), more);
  }

  /** Each accepted event with identifiers is pending, in an open window, or taken by a flush, as often as it
      was accepted. */
  ghost predicate Balanced(ops: seq<Op>, limits: Limits) {
    multiset(Identified(Accepted(ops, limits)))
    == multiset(Identified(Run(ops, limits).records)) + multiset(OpenIDs(Run(ops, limits))) + Taken(ops, limits)
  }

  lemma AddBoth(all: seq<string>, some: seq<string>, more: seq<string>)
    ensures multiset(all + more) == multiset(all) + multiset(more)
    ensures multiset(some + more) == multiset(some) + multiset(more)
  {
  }

  lemma AcceptBalances(ops: seq<Op>, limits: Limits, e: Event)
    requires ops != [] && ops[|ops| - 1] == Accept(e) && Balanced(ops[..|ops| - 1], limits)
    ensures Balanced(ops, limits)
  {
    hide Run, Accepted, OpenIDs, Identified, Taken;
    var before := ops[..|ops| - 1];
    AcceptMoves(ops, limits, Run(before, limits), e);
    var more :| Identified(Accepted(ops, limits)) == Identified(Accepted(before, limits)) + more
             && Identified(Run(ops, limits).records) == Identified(Run(before, limits).records) + more;
    AddBoth(Identified(Accepted(before, limits)), Identified(Run(before, limits).records), more);
  }

  lemma CorrelateBalances(ops: seq<Op>, limits: Limits, now: int)
    requires ops != [] && ops[|ops| - 1] == CorrelateAt(now) && Balanced(ops[..|ops| - 1], limits)
    ensures Balanced(ops, limits)
  {
    var before := ops[..|ops| - 1];
    var s := Run(before, limits);
    CorrelateMoves(s, now);
    assert Run(ops, limits) == Correlate(s, now);
    assert Accepted(ops, limits) == Accepted(before, limits);
  }

  lemma FlushBalances(ops: seq<Op>, limits: Limits, now: int)
    requires ops != [] && ops[|ops| - 1] == FlushAt(now) && Balanced(ops[..|ops| - 1], limits)
    ensures Balanced(ops, limits)
  {
    var before := ops[..|ops| - 1];
    var s := Run(before, limits);
    FlushSplits(s, now, limits);
    assert Run(ops, limits) == Flush(s, now, limits);
    assert Accepted(ops, limits) == Accepted(before, limits);
  }

  lemma NothingBalances(limits: Limits)
    ensures Balanced([], limits)
  {
    assert OpenIDs(EMPTY) == {};
  }

  /** Conservation over every run. */
  lemma {:induction false} EventsConserved(ops: seq<Op>, limits: Limits)
    ensures Balanced(ops, limits)
  {
    hide *;
    if ops == [] {
      NothingBalances(limits);
    } else {
      EventsConserved(ops[..|ops| - 1], limits);
      match ops[|ops| - 1]
      case Accept(e) => AcceptBalances(ops, limits, e);
      case CorrelateAt(now) => CorrelateBalances(ops, limits, now);
      case FlushAt(now) => FlushBalances(ops, limits, now);
    }
  }

  // ---- exactly one place ----

  ghost predicate IsPending(s: State, e: Event) {
    exists i | 0 <= i < |s.records| :: s.records[i] == RecordOf(e)
  }

  /** Every remembered event with identifiers is pending or in a window. */
  ghost predicate Kept(s: State) {
    forall id {:trigger s.events[id]} :: id in s.events ==>
      s.events[id].eventID == id
      && (IdSet(s.events[id]) == {} || IsPending(s, s.events[id]) || InWindow(s, s.events[id]))
  }

  lemma FirstIsFiled(s: State, now: int, f: Event)
    requires Invariant(s) && s.records != [] && s.records[0] == RecordOf(f)
    requires f.eventID in s.events && s.events[f.eventID] == f
    ensures IdSet(f) == {} || InWindow(FileFirst(s, now), f)
  {
    HasIds(f);
    if IdSet(f) != {} {
      var e, touched, key := FilingParts(s);
      assert e == f;
      WindowsAfter(s, now, e, touched, key);
      assert f in FileFirst(s, now).windows[key].events;
    }
  }

  lemma StillOpen(s: State, now: int, f: Event)
    requires Invariant(s) && s.records != [] && InWindow(s, f)
    ensures InWindow(FileFirst(s, now), f)
  {
    if s.records[0].identifiers != [] {
      var e, touched, key := FilingParts(s);
      WindowsAfter(s, now, e, touched, key);
      var l :| l in s.windows && f in s.windows[l].events;
      assert f in FileFirst(s, now).windows[if l in touched then key else l].events;
    }
  }

  lemma FilingKept(s: State, now: int)
    requires Invariant(s) && s.records != [] && Kept(s)
    ensures Kept(FileFirst(s, now))
  {
    var t := FileFirst(s, now);
    assert Pending(s, s.records[0]);
    forall id {:trigger t.events[id]} | id in t.events
      ensures t.events[id].eventID == id
      ensures (IdSet(t.events[id]) == {} || IsPending(t, t.events[id]) || InWindow(t, t.events[id]))
    {
      var f := s.events[id];
      if IsPending(s, f) {
        var i :| 0 <= i < |s.records| && s.records[i] == RecordOf(f);
        if i > 0 {
          assert t.records[i - 1] == RecordOf(f);
        } else {
          FirstIsFiled(s, now, f);
        }
      } else if InWindow(s, f) {
        StillOpen(s, now, f);
      }
    }
  }

  lemma {:induction false} CorrelateKept(s: State, now: int)
    requires Invariant(s) && Kept(s)
    ensures Kept(Correlate(s, now))
    decreases |s.records|
  {
    if s.records != [] {
      FilingKept(s, now);
      FileFirstKeeps(s, now);
      CorrelateKept(FileFirst(s, now), now);
    }
  }

  lemma FlushKept(s: State, now: int, limits: Limits)
    requires Invariant(s) && Kept(s)
    ensures Kept(Flush(s, now, limits))
  {
    var t, due := Flush(s, now, limits), DueKeys(s, now, limits);
    forall id {:trigger t.events[id]} | id in t.events
      ensures t.events[id].eventID == id
      ensures (IdSet(t.events[id]) == {} || IsPending(t, t.events[id]) || InWindow(t, t.events[id]))
    {
      var f := s.events[id];
      if InWindow(s, f) {
        var l :| l in s.windows && f in s.windows[l].events;
        assert l in due ==> f in UnionOf(s.windows, due);
        assert l !in due && f in t.windows[l].events;
      }
    }
  }

  lemma AcceptKept(s: State, e: Event)
    requires Invariant(s) && Kept(s)
    ensures Kept(AcceptEvent(s, e))
  {
    var t := AcceptEvent(s, e);
    if e.eventID !in s.events {
      assert t.records[|s.records|] == RecordOf(e);
      forall id {:trigger t.events[id]} | id in t.events
        ensures t.events[id].eventID == id
        ensures (IdSet(t.events[id]) == {} || IsPending(t, t.events[id]) || InWindow(t, t.events[id]))
      {
        if id != e.eventID && IsPending(s, s.events[id]) {
          var i :| 0 <= i < |s.records| && s.records[i] == RecordOf(s.events[id]);
          assert t.records[i] == s.records[i];
        }
      }
    }
  }

  lemma {:induction false} RunKept(ops: seq<Op>, limits: Limits)
    ensures Kept(Run(ops, limits))
  {
    if ops != [] {
      var before, op := ops[..|ops| - 1], ops[|ops| - 1];
      RunKept(before, limits);
      var s, t := Run(before, limits), Run(ops, limits);
      match op
      case Accept(e) => AcceptKept(s, e);
      case CorrelateAt(now) => CorrelateKept(s, now);
      case FlushAt(now) => FlushKept(s, now, limits);
    }
  }

  /** At every moment of a run a remembered event with identifiers is in exactly one place:
      pending once and in no window, or not pending and in exactly one window. */
  lemma ExactlyOnePlace(ops: seq<Op>, limits: Limits, id: string)
    requires id in Run(ops, limits).events && IdSet(Run(ops, limits).events[id]) != {}
    ensures var s := Run(ops, limits); var e := s.events[id];
      && IsPending(s, e) != InWindow(s, e)
      && (forall i, j | 0 <= i < |s.records| && 0 <= j < |s.records| && s.records[i] == RecordOf(e) == s.records[j] ::
            i == j)
      && (forall k, l | k in s.windows && l in s.windows && e in s.windows[k].events && e in s.windows[l].events ::
            k == l)
  {
    RunKept(ops, limits);
    var s := Run(ops, limits);
    var e := s.events[id];
    assert IsPending(s, e) || InWindow(s, e);
    forall i | 0 <= i < |s.records| && s.records[i] == RecordOf(e)
      ensures !InWindow(s, e)
    {
      assert Pending(s, s.records[i]);
    }
    forall k, l | k in s.windows && l in s.windows && e in s.windows[k].events && e in s.windows[l].events
      ensures k == l
    {
      assert Correlation.Placed(s, k, e) && Correlation.Placed(s, l, e);
      OneWindow(s, k, l, e, e);
    }
  }

  // ---- events without identifiers ----

  /** The state remembers this event, which names no request. */
  ghost predicate Unnamed(s: State, e: Event) {
    e.eventID in s.events && s.events[e.eventID] == e && IdSet(e) == {}
  }

  lemma {:induction false} CorrelateRemembers(s: State, now: int)
    requires Invariant(s)
    ensures Correlate(s, now).events == s.events
    decreases |s.records|
  {
    if s.records != [] {
      CorrelateStep(s, now);
      CorrelateRemembers(FileFirst(s, now), now);
    }
  }

  /** Only windows are flushed, and no window holds it. */
  lemma UnnamedStep(s: State, op: Op, limits: Limits, e: Event)
    requires Invariant(s) && Unnamed(s, e)
    ensures Unnamed(Apply(s, op, limits), e)
  {
    match op
    case Accept(_) =>
    case CorrelateAt(now) => CorrelateRemembers(s, now);
    case FlushAt(now) =>
      forall f | f in UnionOf(s.windows, DueKeys(s, now, limits))
        ensures f.eventID != e.eventID
      {
        var k :| k in s.windows && f in s.windows[k].events;
        assert Correlation.Placed(s, k, f);
      }
  }

  /** An event without identifiers is remembered for ever, whatever is correlated and flushed after it. */
  lemma {:induction false} UnnamedForEver(ops: seq<Op>, more: seq<Op>, limits: Limits, e: Event)
    requires Unnamed(Run(ops, limits), e)
    ensures Unnamed(Run(ops + more, limits), e)
  {
    if more == [] {
      assert ops + more == ops;
    } else {
      var n := |more| - 1;
      UnnamedForEver(ops, more[..n], limits, e);
      assert (ops + more)[..|ops + more| - 1] == ops + more[..n];
      UnnamedStep(Run(ops + more[..n], limits), more[n], limits, e);
    }
  }

  lemma UnnamedFrom(ops: seq<Op>, limits: Limits, e: Event)
    requires IdSet(e) == {} && e.eventID !in Run(ops, limits).events
    ensures Unnamed(Run(ops + [Accept(e)], limits), e)
  {
    var all := ops + [Accept(e)];
    assert all[..|all| - 1] == ops && all[|all| - 1] == Accept(e);
    assert Run(all, limits) == AcceptEvent(Run(ops, limits), e);
  }

  /** Whatever is remembered after a correlation is in a window if and only if it has identifiers. */
  lemma FiledExactly(ops: seq<Op>, now: int, limits: Limits, id: string)
    requires id in Run(ops + [CorrelateAt(now)], limits).events
    ensures var s := Run(ops + [CorrelateAt(now)], limits); InWindow(s, s.events[id]) <==> IdSet(s.events[id]) != {}
  {
    var all := ops + [CorrelateAt(now)];
    var s := Run(all, limits);
    assert all[..|all| - 1] == ops && all[|all| - 1] == CorrelateAt(now);
    assert s == Correlate(Run(ops, limits), now);
    RunKept(all, limits);
    assert !IsPending(s, s.events[id]);
    if k :| k in s.windows && s.events[id] in s.windows[k].events {
      assert Correlation.Placed(s, k, s.events[id]);
    }
  }
}
