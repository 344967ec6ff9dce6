/** With a clock that never runs backwards, every correlated event is taken by the first flush
    at or after its arrival plus the late-arrival bound, however windows merge meanwhile. */
module Deadline {
  import opened Sorting
  import opened Events
  import opened Materializing
  import opened Closing
  import opened Correlation
  import opened OnlineBatch

  function TimeOf(op: Op): Option<int> {
    match op
    case Accept(_) => None
    case CorrelateAt(now) => Some(now)
    case FlushAt(now) => Some(now)
  }

  /** The readings of the clock never decrease along the run. */
  ghost predicate Clocked(ops: seq<Op>) {
    forall i, j | 0 <= i < j < |ops| && TimeOf(ops[i]).Some? && TimeOf(ops[j]).Some? ::
      TimeOf(ops[i]).value <= TimeOf(ops[j]).value
  }

  /** No open window arrived after `now`. */
  ghost predicate ArrivedBy(s: State, now: int) {
    forall k {:trigger s.windows[k]} | k in s.windows :: s.windows[k].first <= now
  }

  /** e waits in a window that counts its arrival from `a` or earlier. */
  ghost predicate Waiting(s: State, e: Event, a: int) {
    exists k | k in s.windows :: e in s.windows[k].events && s.windows[k].first <= a
  }

  /** A pending record with identifiers stands for e. */
  ghost predicate Awaiting(s: State, e: Event) {
    exists r | 0 <= r < |s.records| ::
      s.records[r].identifiers != [] && s.records[r].eventID in s.events && s.events[s.records[r].eventID] == e
  }

  ghost function TakenBy(s: State, now: int, limits: Limits): set<Event> {
    UnionOf(s.windows, DueKeys(s, now, limits))
  }

  ghost predicate RecordFrom(events: set<Event>, order: int) {
    exists e | e in events :: e.layer.Known() && e.layer.Order() == order
  }

  /** A known layer that stopped the request, no other such layer above it, and a record from every layer down to
      it. */
  ghost predicate StoppedWithAll(events: set<Event>, stop: Event) {
    && stop in events && stop.layer.Known() && stop.verdict.terminating
    && (forall e | e in events && e.layer.Known() && e.verdict.terminating :: stop.layer.Order() <= e.layer.Order())
    && forall o | 0 <= o <= stop.layer.Order() :: RecordFrom(events, o)
  }

  /** What closes a window: enough layers, a stop with every layer down to it, or the late-arrival bound. */
  ghost predicate Closes(w: WindowView, now: int, limits: Limits) {
    || |set e | e in w.events :: e.layer| >= limits.expectedLayers
    || (exists stop :: StoppedWithAll(w.events, stop))
    || now - w.first >= limits.lateArrival
  }

  lemma ListingMembers(events: set<Event>)
    ensures forall e :: e in Listing(events) <==> e in events
  {
    forall e
      ensures e in Listing(events) <==> e in events
    {
      assert multiset(Listing(events))[e] == multiset(events)[e];
    }
  }

  lemma ListedLayers(events: set<Event>)
    ensures Layers(Listing(events)) == set e | e in events :: e.layer
  {
    ListingMembers(events);
    var xs := Listing(events);
    forall l
      ensures l in Layers(xs) <==> l in set e | e in events :: e.layer
    {
      if e :| e in events && e.layer == l {
        assert e in xs;
      }
    }
  }

  lemma ListedFrom(events: set<Event>, order: int)
    ensures Reported(Listing(events), order) <==> RecordFrom(events, order)
  {
    ListingMembers(events);
  }

  lemma ListedStop(events: set<Event>)
    ensures TerminallyComplete(Listing(events)) <==> exists stop :: StoppedWithAll(events, stop)
  {
    hide Reported, RecordFrom, Listing;
    ListingMembers(events);
    var xs := Listing(events);
    forall o
      ensures Reported(xs, o) <==> RecordFrom(events, o)
    {
      ListedFrom(events, o);
    }
    if stop :| StopsAt(xs, stop) && forall o | 0 <= o <= stop :: Reported(xs, o) {
      var e :| e in xs && Terminates(e) && e.layer.Order() == stop;
      assert forall f | f in events && f.layer.Known() && f.verdict.terminating :: f in xs && Terminates(f);
      assert StoppedWithAll(events, e);
    }
    if e :| StoppedWithAll(events, e) {
      assert e in xs && Terminates(e);
      assert StopsAt(xs, e.layer.Order());
    }
  }

  lemma DueCloses(w: WindowView, now: int, limits: Limits)
    ensures Due(w, now, limits) <==> Closes(w, now, limits)
  {
    hide TerminallyComplete, StoppedWithAll, Layers, Listing;
    ListedLayers(w.events);
    ListedStop(w.events);
  }

  /** A flush takes exactly the windows that are complete or late, and leaves the others as they are. */
  lemma FlushTakesExactly(s: State, now: int, limits: Limits, k: string)
    requires k in s.windows
    ensures var t := Flush(s, now, limits);
      && (k in t.windows <==> !Closes(s.windows[k], now, limits)) && t.windows.Keys <= s.windows.Keys
      && (k in t.windows ==> t.windows[k] == s.windows[k])
  {
    hide Closes, Due;
    DueCloses(s.windows[k], now, limits);
  }

  /** And with them exactly their events. */
  lemma TakenExactly(s: State, now: int, limits: Limits, e: Event)
    ensures e in TakenBy(s, now, limits)
      <==> exists k | k in s.windows :: e in s.windows[k].events && Closes(s.windows[k], now, limits)
  {
    hide Closes, Due;
    forall k {:trigger s.windows[k]} | k in s.windows
      ensures Due(s.windows[k], now, limits) <==> Closes(s.windows[k], now, limits)
    {
      DueCloses(s.windows[k], now, limits);
    }
  }

  lemma FirstAfter(s: State, now: int, e: Event, touched: set<string>, key: string, k: string)
    requires Filing(s, e, touched, key)
    requires k in s.windows
    ensures var t := FileFirst(s, now);
      if k in touched then key in t.windows && t.windows[key].first <= s.windows[k].first
      else k in t.windows && t.windows[k] == s.windows[k]
  {
    WindowsAfter(s, now, e, touched, key);
    KeyFacts(s, e, touched, key);
  }

  /** Filing only ever lowers the arrival a waiting event counts from. */
  lemma FilingKeepsWaiting(s: State, now: int, e: Event, a: int)
    requires Invariant(s) && s.records != [] && Waiting(s, e, a)
    ensures Waiting(FileFirst(s, now), e, a)
  {
    var k :| k in s.windows && e in s.windows[k].events && s.windows[k].first <= a;
    if s.records[0].identifiers != [] {
      var f, touched, key := FilingParts(s);
      FirstAfter(s, now, f, touched, key, k);
      WindowsAfter(s, now, f, touched, key);
      assert e in FileFirst(s, now).windows[if k in touched then key else k].events;
    }
  }

  lemma FilingArrives(s: State, now: int)
    requires Invariant(s) && s.records != [] && ArrivedBy(s, now)
    ensures ArrivedBy(FileFirst(s, now), now)
    ensures s.records[0].identifiers != [] && s.records[0].eventID in s.events ==>
      Waiting(FileFirst(s, now), s.events[s.records[0].eventID], now)
  {
    if s.records[0].identifiers != [] {
      var e, touched, key := FilingParts(s);
      var t := FileFirst(s, now);
      WindowsAfter(s, now, e, touched, key);
      KeyFacts(s, e, touched, key);
      if touched != {} {
        FirstAfter(s, now, e, touched, key, key);
      }
      assert e in t.windows[key].events && t.windows[key].first <= now;
    }
  }

  /** After a correlate at `now`, every event that was pending waits from `now` at the latest. */
  lemma {:induction false} CorrelateArrives(s: State, now: int, e: Event)
    requires Invariant(s) && ArrivedBy(s, now)
    requires Waiting(s, e, now) || Awaiting(s, e)
    ensures Waiting(Correlate(s, now), e, now)
    decreases |s.records|
  {
    if s.records != [] {
      FilingArrives(s, now);
      FileFirstKeeps(s, now);
      var t := FileFirst(s, now);
      if Waiting(s, e, now) {
        FilingKeepsWaiting(s, now, e, now);
      } else {
        var i :| 0 <= i < |s.records| && s.records[i].identifiers != [] && s.records[i].eventID in s.events
          && s.events[s.records[i].eventID] == e;
        assert i > 0 ==> t.records[i - 1] == s.records[i];
      }
      CorrelateArrives(t, now, e);
    }
  }

  lemma {:induction false} CorrelateKeeps(s: State, now: int, e: Event, a: int)
    requires Invariant(s)
    requires Waiting(s, e, a)
    ensures Waiting(Correlate(s, now), e, a)
    decreases |s.records|
  {
    if s.records != [] {
      FilingKeepsWaiting(s, now, e, a);
      FileFirstKeeps(s, now);
      CorrelateKeeps(FileFirst(s, now), now, e, a);
    }
  }

  /** A flush takes a waiting event or leaves it waiting; past the deadline it takes it. */
  lemma FlushTakes(s: State, now: int, limits: Limits, e: Event, a: int)
    requires Invariant(s) && Waiting(s, e, a)
    ensures e in TakenBy(s, now, limits) || Waiting(Flush(s, now, limits), e, a)
    ensures now >= a + limits.lateArrival ==> e in TakenBy(s, now, limits)
  {
    var k :| k in s.windows && e in s.windows[k].events && s.windows[k].first <= a;
    var due := DueKeys(s, now, limits);
    if now >= a + limits.lateArrival {
      assert Due(s.windows[k], now, limits);
    }
    assert k !in due ==> k in Flush(s, now, limits).windows;
  }

  lemma {:induction false} CorrelateArrived(s: State, now: int)
    requires Invariant(s) && ArrivedBy(s, now)
    ensures ArrivedBy(Correlate(s, now), now)
    decreases |s.records|
  {
    if s.records != [] {
      FilingArrives(s, now);
      FileFirstKeeps(s, now);
      CorrelateArrived(FileFirst(s, now), now);
    }
  }

  lemma {:induction false} RunArrived(ops: seq<Op>, limits: Limits, now: int)
    requires Clocked(ops)
    requires forall i | 0 <= i < |ops| && TimeOf(ops[i]).Some? :: TimeOf(ops[i]).value <= now
    ensures ArrivedBy(Run(ops, limits), now)
  {
    if ops != [] {
      var n := |ops| - 1;
      var before, op := ops[..n], ops[n];
      var s := Run(before, limits);
      match op
      case Accept(e) => RunArrived(before, limits, now);
      case CorrelateAt(t) =>
        assert TimeOf(ops[n]) == Some(t);
        RunArrived(before, limits, t);
        CorrelateArrived(s, t);
      case FlushAt(t) => RunArrived(before, limits, now);
    }
  }

  ghost predicate TakenAt(ops: seq<Op>, limits: Limits, e: Event, f: nat)
    requires f < |ops|
  {
    ops[f].FlushAt? && e in TakenBy(Run(ops[..f], limits), ops[f].now, limits)
  }

  /** Some flush among steps i..m of the run takes e. */
  ghost predicate TakenBetween(ops: seq<Op>, limits: Limits, e: Event, i: nat, m: nat)
    requires m <= |ops|
  {
    exists f {:trigger TakenAt(ops, limits, e, f)} | i <= f < m :: TakenAt(ops, limits, e, f)
  }

  ghost predicate WaitingAt(ops: seq<Op>, limits: Limits, e: Event, a: int, m: nat)
    requires m <= |ops|
  {
    Waiting(Run(ops[..m], limits), e, a)
  }

  lemma TakenEarlier(ops: seq<Op>, limits: Limits, e: Event, i: nat, m: nat)
    requires i < m <= |ops| && (TakenAt(ops, limits, e, i) || TakenBetween(ops, limits, e, i + 1, m))
    ensures TakenBetween(ops, limits, e, i, m)
  {
    if !TakenAt(ops, limits, e, i) {
      var f :| i + 1 <= f < m && TakenAt(ops, limits, e, f);
      assert TakenAt(ops, limits, e, f);
    }
  }

  lemma RunSnoc(ops: seq<Op>, limits: Limits, m: nat)
    requires m < |ops|
    ensures Run(ops[..m + 1], limits) == Apply(Run(ops[..m], limits), ops[m], limits)
  {
    assert ops[..m + 1][..m] == ops[..m];
  }

  lemma StepWaits(s: State, op: Op, limits: Limits, e: Event, a: int)
    requires Invariant(s) && Waiting(s, e, a)
    ensures Waiting(Apply(s, op, limits), e, a) || (op.FlushAt? && e in TakenBy(s, op.now, limits))
  {
    match op
    case Accept(f) =>
    case CorrelateAt(now) => CorrelateKeeps(s, now, e, a);
    case FlushAt(now) => FlushTakes(s, now, limits, e, a);
  }

  lemma NextWaits(ops: seq<Op>, limits: Limits, e: Event, a: int, m: nat)
    requires m < |ops| && WaitingAt(ops, limits, e, a, m)
    ensures WaitingAt(ops, limits, e, a, m + 1) || TakenAt(ops, limits, e, m)
  {
    RunSnoc(ops, limits, m);
    StepWaits(Run(ops[..m], limits), ops[m], limits, e, a);
  }

  lemma {:induction false} WaitsUntilTaken(ops: seq<Op>, limits: Limits, e: Event, a: int, i: nat, m: nat)
    requires i <= m <= |ops| && WaitingAt(ops, limits, e, a, i)
    ensures WaitingAt(ops, limits, e, a, m) || TakenBetween(ops, limits, e, i, m)
    decreases m - i
  {
    if i < m {
      NextWaits(ops, limits, e, a, i);
      if !TakenAt(ops, limits, e, i) {
        WaitsUntilTaken(ops, limits, e, a, i + 1, m);
      }
      if !WaitingAt(ops, limits, e, a, m) {
        TakenEarlier(ops, limits, e, i, m);
      }
    }
  }

  /** The deadline: an event that step i correlates at time a is taken no later than the first
      flush at or after a + lateArrival. */
  lemma TakenByDeadline(ops: seq<Op>, limits: Limits, e: Event, i: nat, j: nat)
    requires Clocked(ops) && i < j < |ops|
    requires ops[i].CorrelateAt? && ops[j].FlushAt? && ops[j].now >= ops[i].now + limits.lateArrival
    requires Awaiting(Run(ops[..i], limits), e)
    ensures TakenBetween(ops, limits, e, i, j + 1)
  {
    var s, a := Run(ops[..i], limits), ops[i].now;
    forall k | 0 <= k < i && TimeOf(ops[k]).Some?
      ensures TimeOf(ops[k]).value <= a
    {
      assert TimeOf(ops[i]) == Some(a);
    }
    RunArrived(ops[..i], limits, a);
    CorrelateArrives(s, a, e);
    assert ops[..i + 1][..i] == ops[..i];
    WaitsUntilTaken(ops, limits, e, a, i + 1, j);
    if !TakenBetween(ops, limits, e, i + 1, j) {
      FlushTakes(Run(ops[..j], limits), ops[j].now, limits, e, a);
      assert TakenAt(ops, limits, e, j);
    }
  }
}
