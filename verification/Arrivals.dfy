/** When the records of a window were filed: with a clock that never runs backwards, a window arrived with the first of
    its events and was last added to with the last of them, so none closes for being late before that. */
module Arrivals {
  import opened Events
  import opened Correlation
  import opened OnlineBatch
  import opened Deadline

  type Filed = map<Event, int>

  /** The events the next correlate files. */
  ghost function Unfiled(s: State): set<Event> {
    set r | r in s.records && r.identifiers != [] && r.eventID in s.events :: s.events[r.eventID]
  }

  /** When each event was last filed during the run. */
  ghost function FiledAt(ops: seq<Op>, limits: Limits): Filed {
    if ops == [] then map[]
    else
      var before, op := ops[..|ops| - 1], ops[|ops| - 1];
      match op
      case CorrelateAt(now) => FiledAt(before, limits) + map e | e in Unfiled(Run(before, limits)) :: now
      case Accept(_) => FiledAt(before, limits)
      case FlushAt(_) => FiledAt(before, limits)
  }

  ghost predicate ArrivedAt(w: WindowView, filed: Filed) {
    && (forall e {:trigger filed[e]} {:trigger e in w.events} | e in w.events ::
          e in filed && w.first <= filed[e] <= w.last)
    && (exists e | e in w.events :: filed[e] == w.first) && exists e | e in w.events :: filed[e] == w.last
  }

  /** Every open window arrived with the first of its events and was last added to with the last of them. */
  ghost predicate AllArrived(s: State, filed: Filed) {
    forall k {:trigger s.windows[k]} | k in s.windows :: ArrivedAt(s.windows[k], filed)
  }

  ghost predicate LastBy(s: State, now: int) {
    forall k {:trigger s.windows[k]} | k in s.windows :: s.windows[k].last <= now
  }

  /** A window is untouched by when another event was filed. */
  lemma ArrivedStill(w: WindowView, filed: Filed, e: Event, now: int)
    requires ArrivedAt(w, filed) && e !in w.events
    ensures ArrivedAt(w, filed[e := now])
  {
    var after := filed[e := now];
    var f, l :| f in w.events && l in w.events && filed[f] == w.first && filed[l] == w.last;
    assert after[f] == w.first && after[l] == w.last;
  }

  lemma ArrivedInOrder(w: WindowView, filed: Filed)
    requires ArrivedAt(w, filed)
    ensures w.first <= w.last
  {
  }

  lemma JointArrived(s: State, filed: Filed, now: int, e: Event, touched: set<string>, key: string)
    requires Filing(s, e, touched, key) && AllArrived(s, filed) && LastBy(s, now)
    requires !InWindow(s, e)
    ensures ArrivedAt(Joint(s.index, s.windows, e, now), filed[e := now])
  {
    hide Invariant, KeyFor, IdSet;
    var w := Joint(s.index, s.windows, e, now);
    var after := filed[e := now];
    assert e in w.events && after[e] == w.last;
    forall f {:trigger after[f]} {:trigger f in w.events} | f in w.events
      ensures f in after && w.first <= after[f] <= w.last
    {
      if f != e {
        var k :| k in touched && f in s.windows[k].events;
        assert ArrivedAt(s.windows[k], filed);
        assert w.first <= s.windows[k].first;
      } else if touched != {} {
        var k :| k in touched && s.windows[k].first == w.first;
        ArrivedInOrder(s.windows[k], filed);
      }
    }
    if touched != {} {
      var k :| k in touched && s.windows[k].first == w.first;
      assert ArrivedAt(s.windows[k], filed);
      var f :| f in s.windows[k].events && filed[f] == w.first;
      assert InWindow(s, f);
      assert f in w.events && after[f] == w.first;
    }
  }

  lemma JointThere(s: State, now: int, e: Event, touched: set<string>, key: string)
    requires Filing(s, e, touched, key)
    ensures var t := FileFirst(s, now);
      && key in t.windows && t.windows[key] == Joint(s.index, s.windows, e, now) && t.windows[key].last == now
  {
  }

  lemma FilingArrived(s: State, filed: Filed, now: int, e: Event, touched: set<string>, key: string)
    requires Filing(s, e, touched, key) && AllArrived(s, filed) && LastBy(s, now)
    ensures AllArrived(FileFirst(s, now), filed[e := now]) && LastBy(FileFirst(s, now), now)
  {
    hide ArrivedAt, FileFirst, Joint;
    var t := FileFirst(s, now);
    assert Pending(s, s.records[0]);
    WindowsAfter(s, now, e, touched, key);
    JointThere(s, now, e, touched, key);
    JointArrived(s, filed, now, e, touched, key);
    forall k {:trigger t.windows[k]} | k in t.windows && k != key
      ensures ArrivedAt(t.windows[k], filed[e := now])
    {
      ArrivedStill(s.windows[k], filed, e, now);
    }
  }

  lemma UnfiledFirst(s: State, now: int)
    requires Invariant(s) && s.records != [] && s.records[0].eventID in s.events
    ensures FileFirst(s, now).events == s.events
    ensures Unfiled(s) == Unfiled(FileFirst(s, now))
         + if s.records[0].identifiers != [] then {s.events[s.records[0].eventID]} else {}
  {
    assert Pending(s, s.records[0]);
    assert s.records == [s.records[0]] + s.records[1..];
  }

  lemma FirstPending(s: State)
    requires Invariant(s) && s.records != []
    ensures s.records[0].eventID in s.events
  {
    assert Pending(s, s.records[0]);
  }

  lemma Unnamed(s: State, now: int, filed: Filed)
    requires Invariant(s) && AllArrived(s, filed) && LastBy(s, now)
    requires s.records != [] && s.records[0].identifiers == []
    ensures AllArrived(FileFirst(s, now), filed) && LastBy(FileFirst(s, now), now)
  {
  }

  /** When the events were filed once all that is pending is. */
  ghost function FiledBy(filed: Filed, s: State, now: int): Filed {
    filed + map e | e in Unfiled(s) :: now
  }

  lemma NothingPending(s: State, filed: Filed, now: int)
    requires Invariant(s) && s.records == []
    ensures Correlate(s, now) == s && FiledBy(filed, s, now) == filed
  {
  }

  lemma FiledNext(s: State, t: State, filed: Filed, now: int, e: Event)
    requires Unfiled(s) == Unfiled(t) + {e}
    ensures FiledBy(filed[e := now], t, now) == FiledBy(filed, s, now)
  {
    hide Unfiled;
  }

  lemma FiledSame(s: State, t: State, filed: Filed, now: int)
    requires Unfiled(s) == Unfiled(t) + {}
    ensures FiledBy(filed, t, now) == FiledBy(filed, s, now)
  {
    hide Unfiled;
  }

  lemma FilingIsOfFirst(s: State, e: Event, touched: set<string>, key: string)
    requires Filing(s, e, touched, key)
    ensures s.records != [] && s.records[0].eventID in s.events && e == s.events[s.records[0].eventID]
  {
  }

  lemma {:induction false} CorrelateArrived(s: State, filed: Filed, now: int)
    requires Invariant(s) && AllArrived(s, filed) && LastBy(s, now)
    ensures AllArrived(Correlate(s, now), FiledBy(filed, s, now)) && LastBy(Correlate(s, now), now)
    decreases |s.records|
  {
    hide *;
    if s.records == [] {
      NothingPending(s, filed, now);
    } else {
      CorrelateStep(s, now);
      FirstPending(s);
      UnfiledFirst(s, now);
      var t := FileFirst(s, now);
      if s.records[0].identifiers == [] {
        Unnamed(s, now, filed);
        FiledSame(s, t, filed, now);
        CorrelateArrived(t, filed, now);
      } else {
        var e, touched, key := FilingParts(s);
        FilingIsOfFirst(s, e, touched, key);
        FilingArrived(s, filed, now, e, touched, key);
        FiledNext(s, t, filed, now, e);
        CorrelateArrived(t, filed[e := now], now);
      }
    }
  }

  /** Over every run whose clock never runs backwards: each open window's arrival is the earliest time at which one of
      its events was filed, and its last addition the latest. */
  lemma {:induction false} WindowsArrive(ops: seq<Op>, limits: Limits, now: int)
    requires Clocked(ops)
    requires forall i | 0 <= i < |ops| && TimeOf(ops[i]).Some? :: TimeOf(ops[i]).value <= now
    ensures AllArrived(Run(ops, limits), FiledAt(ops, limits)) && LastBy(Run(ops, limits), now)
  {
    if ops != [] {
      hide ArrivedAt, Invariant;
      var n := |ops| - 1;
      var before, op := ops[..n], ops[n];
      match op
      case Accept(_) => WindowsArrive(before, limits, now);
      case FlushAt(_) => WindowsArrive(before, limits, now);
      case CorrelateAt(t) =>
        assert TimeOf(ops[n]) == Some(t);
        WindowsArrive(before, limits, t);
        CorrelateArrived(Run(before, limits), FiledAt(before, limits), t);
    }
  }

  /** And a window that is not complete is taken by a flush exactly when one of its events was filed the late-arrival
      bound ago or longer. */
  lemma TakenForAgeExactly(ops: seq<Op>, limits: Limits, now: int, k: string)
    requires Clocked(ops) && forall i | 0 <= i < |ops| && TimeOf(ops[i]).Some? :: TimeOf(ops[i]).value <= now
    requires k in Run(ops, limits).windows
    requires var w := Run(ops, limits).windows[k];
      |set e | e in w.events :: e.layer| < limits.expectedLayers && !exists stop :: StoppedWithAll(w.events, stop)
    ensures var s, filed := Run(ops, limits), FiledAt(ops, limits);
      k !in Flush(s, now, limits).windows
      <==> exists e | e in s.windows[k].events && e in filed :: now - filed[e] >= limits.lateArrival
  {
    hide StoppedWithAll, FiledAt, Flush, Clocked, Run;
    var s, filed := Run(ops, limits), FiledAt(ops, limits);
    WindowsArrive(ops, limits, now);
    FlushTakesExactly(s, now, limits, k);
    var w := s.windows[k];
    assert ArrivedAt(w, filed);
    var e :| e in w.events && filed[e] == w.first;
  }
}
