/** Runs of the online correlation, and their agreement with the batch algorithm. */
module OnlineBatch {
  import opened Chains
  import opened Events
  import opened Grouping
  import opened Correlation

  datatype Op = Accept(event: Event) | CorrelateAt(now: int) | FlushAt(now: int)

  ghost function Apply(s: State, op: Op, limits: Limits): (t: State)
    requires Invariant(s)
    ensures Invariant(t)
  {
    match op
    case Accept(e) =>
      AcceptKeeps(s, e);
      AcceptEvent(s, e)
    case CorrelateAt(now) => Correlate(s, now)
    case FlushAt(now) =>
      FlushKeeps(s, now, limits);
      Flush(s, now, limits)
  }

  /** The state a run from the empty pipeline reaches: the index invariant holds in all of them. */
  ghost function Run(ops: seq<Op>, limits: Limits): (s: State)
    ensures Invariant(s)
  {
    if ops == [] then EMPTY else Apply(Run(ops[..|ops| - 1], limits), ops[|ops| - 1], limits)
  }

  /** The records Correlate has filed so far, in order. */
  ghost function Correlated(ops: seq<Op>, limits: Limits): seq<Record> {
    if ops == [] then []
    else
      var before := ops[..|ops| - 1];
      Correlated(before, limits) + if ops[|ops| - 1].CorrelateAt? then Run(before, limits).records else []
  }

  /** The records of the events accepted so far, in order. */
  ghost function Accepted(ops: seq<Op>, limits: Limits): seq<Record> {
    if ops == [] then []
    else
      var before, op := ops[..|ops| - 1], ops[|ops| - 1];
      Accepted(before, limits)
      + if op.Accept? && op.event.eventID !in Run(before, limits).events then [RecordOf(op.event)] else []
  }

  /** Every accepted record is filed or still pending. */
  lemma {:induction false} AcceptedSplit(ops: seq<Op>, limits: Limits)
    ensures Accepted(ops, limits) == Correlated(ops, limits) + Run(ops, limits).records
  {
    if ops != [] {
      AcceptedSplit(ops[..|ops| - 1], limits);
    }
  }

  // ---- what the invariant says about windows ----

  /** No two open windows share an identifier. */
  lemma WindowsDisjoint(s: State, k: string, l: string, e: Event, f: Event, x: string)
    requires Invariant(s) && k in s.windows && l in s.windows
    requires e in s.windows[k].events && f in s.windows[l].events
    requires x in IdSet(e) && x in IdSet(f)
    ensures k == l
  {
    assert Placed(s, k, e) && Placed(s, l, f);
  }

  /** A record none of whose identifiers is known opens a fresh window holding its event alone. */
  lemma UnknownOpensFresh(s: State, now: int)
    requires Invariant(s) && s.records != [] && s.records[0].identifiers != []
    requires forall x | x in s.records[0].Ids() :: x !in s.index
    ensures var t := FileFirst(s, now);
      && s.records[0].eventID in s.events
      && var e := s.events[s.records[0].eventID];
        exists k :: k !in s.windows && t.windows == s.windows[k := WindowView({e}, now, now)]
  {
    var e, touched, key := FilingParts(s);
    assert Pending(s, s.records[0]);
    assert touched == {};
    KeyFacts(s, e, touched, key);
    assert s.windows - {} == s.windows;
    assert FileFirst(s, now).windows == s.windows[key := WindowView({e}, now, now)];
  }

  // ---- online equals batch ----

  /** r's event sits in the window that owns r's first identifier. */
  ghost predicate Filed(s: State, r: Record) {
    && r.identifiers != [] && r.eventID in s.events && r == RecordOf(s.events[r.eventID])
    && r.Ids()[0] in s.index && s.index[r.Ids()[0]] in s.windows
    && s.events[r.eventID] in s.windows[s.index[r.Ids()[0]]].events
  }

  /** The state partitions the identifiers of `rs` as chains of shared identifiers do. */
  ghost predicate Mirrors(s: State, rs: seq<Record>) {
    && s.index.Keys == Mentioned(rs)
    && (forall a, b {:trigger Connected(Groups(rs), a, b)} :: a in s.index && b in s.index ==>
          (s.index[a] == s.index[b] <==> Connected(Groups(rs), a, b)))
    && (forall i {:trigger Filed(s, rs[i])} :: 0 <= i < |rs| && rs[i].identifiers != [] ==> Filed(s, rs[i]))
    && (forall k, e {:trigger e in s.windows[k].events} ::
          k in s.windows && e in s.windows[k].events ==> RecordOf(e) in rs)
  }

  lemma Unmentioned(rs: seq<Record>, x: string)
    requires x !in Mentioned(rs)
    ensures forall i :: 0 <= i < |Groups(rs)| ==> x !in Groups(rs)[i]
  {
    forall i | 0 <= i < |Groups(rs)|
      ensures x !in Groups(rs)[i]
    {
      assert Groups(rs)[i] == rs[i].Ids();
    }
  }

  lemma TouchedIsConnected(s: State, rs: seq<Record>, e: Event, touched: set<string>, key: string, a: string)
    requires Filing(s, e, touched, key) && Mirrors(s, rs)
    requires a in s.index || a in IdSet(e)
    ensures Touches(Groups(rs), a, RecordOf(e).Ids()) <==> a in IdSet(e) || s.index[a] in touched
  {
    var ids := RecordOf(e).Ids();
    if a in IdSet(e) {
      Reflexive(Groups(rs), a);
    } else if s.index[a] in touched {
      var x :| x in IdSet(e) && x in s.index && s.index[x] == s.index[a];
      assert Connected(Groups(rs), a, x);
    }
    forall x | x in ids && Connected(Groups(rs), a, x)
      ensures a in IdSet(e) || s.index[a] in touched
    {
      if x !in s.index {
        Unmentioned(rs, x);
        Isolated(Groups(rs), x, a);
      }
    }
  }

  lemma ConnectedKnown(s: State, rs: seq<Record>, a: string, b: string)
    requires Mirrors(s, rs) && Connected(Groups(rs), a, b)
    ensures a in s.index ==> b in s.index && s.index[a] == s.index[b]
  {
    if b !in s.index {
      Unmentioned(rs, b);
      Isolated(Groups(rs), b, a);
    }
  }

  lemma FilingConnects(
    s: State, now: int, rs: seq<Record>, e: Event, touched: set<string>, key: string, a: string, b: string)
    requires Filing(s, e, touched, key) && Mirrors(s, rs)
    requires a in FileFirst(s, now).index && b in FileFirst(s, now).index
    ensures var t := FileFirst(s, now);
      t.index[a] == t.index[b] <==> Connected(Groups(rs) + [RecordOf(e).Ids()], a, b)
  {
    IndexAfter(s, now, e, touched, key, a);
    IndexAfter(s, now, e, touched, key, b);
    TouchedIsConnected(s, rs, e, touched, key, a);
    TouchedIsConnected(s, rs, e, touched, key, b);
    ConnectedSnoc(Groups(rs), RecordOf(e).Ids(), a, b);
    Equivalence(Groups(rs));
    if Connected(Groups(rs), a, b) {
      ConnectedKnown(s, rs, a, b);
      ConnectedKnown(s, rs, b, a);
    }
  }

  lemma DroppingMirrors(s: State, now: int, rs: seq<Record>, more: seq<Record>)
    requires Invariant(s) && s.records != [] && Mirrors(s, rs) && s.records[0].identifiers == []
    requires more == rs + [s.records[0]]
    requires Mentioned(more) == Mentioned(rs) && Groups(more) == Groups(rs) + [[]]
    ensures Mirrors(FileFirst(s, now), more)
  {
    var t := FileFirst(s, now);
    SmallGroup(Groups(rs), []);
    forall i {:trigger Filed(t, more[i])} | 0 <= i < |more| && more[i].identifiers != []
      ensures Filed(t, more[i])
    {
      assert Filed(s, rs[i]);
    }
  }

  lemma FilingMirrorsIndex(
    s: State, now: int, rs: seq<Record>, e: Event, touched: set<string>, key: string, more: seq<Record>)
    requires Filing(s, e, touched, key) && Mirrors(s, rs)
    requires Mentioned(more) == Mentioned(rs) + IdSet(e) && Groups(more) == Groups(rs) + [RecordOf(e).Ids()]
    ensures var t := FileFirst(s, now);
      && t.index.Keys == Mentioned(more)
      && forall a, b {:trigger Connected(Groups(more), a, b)} :: a in t.index && b in t.index ==>
           (t.index[a] == t.index[b] <==> Connected(Groups(more), a, b))
  {
    var t := FileFirst(s, now);
    forall x
      ensures x in t.index <==> x in Mentioned(more)
    {
      IndexAfter(s, now, e, touched, key, x);
    }
    forall a, b {:trigger Connected(Groups(more), a, b)} | a in t.index && b in t.index
      ensures t.index[a] == t.index[b] <==> Connected(Groups(more), a, b)
    {
      FilingConnects(s, now, rs, e, touched, key, a, b);
    }
  }

  lemma FilingFiles(s: State, now: int, rs: seq<Record>, e: Event, touched: set<string>, key: string, i: nat)
    requires Filing(s, e, touched, key) && Mirrors(s, rs)
    requires i <= |rs| && (rs + [s.records[0]])[i].identifiers != []
    ensures Filed(FileFirst(s, now), (rs + [s.records[0]])[i])
  {
    var t := FileFirst(s, now);
    WindowsAfter(s, now, e, touched, key);
    assert Pending(s, s.records[0]);
    if i == |rs| {
      IndexAfter(s, now, e, touched, key, s.records[0].Ids()[0]);
    } else {
      assert Filed(s, rs[i]);
      var f, x := s.events[rs[i].eventID], rs[i].Ids()[0];
      assert Placed(s, s.index[x], f);
      IndexAfter(s, now, e, touched, key, x);
      FileFirstKeeps(s, now);
      if t.index[x] != s.index[x] || s.index[x] in touched {
        if x in IdSet(e) {
          assert s.index[x] in touched;
        }
        assert f in t.windows[key].events;
      }
    }
  }

  lemma FilingMirrorsWindows(
    s: State, now: int, rs: seq<Record>, e: Event, touched: set<string>, key: string, more: seq<Record>)
    requires Filing(s, e, touched, key) && Mirrors(s, rs) && more == rs + [s.records[0]]
    ensures var t := FileFirst(s, now);
      && (forall i {:trigger Filed(t, more[i])} :: 0 <= i < |more| && more[i].identifiers != [] ==> Filed(t, more[i]))
      && (forall k, f {:trigger f in t.windows[k].events} ::
            k in t.windows && f in t.windows[k].events ==> RecordOf(f) in more)
  {
    var t := FileFirst(s, now);
    forall i {:trigger Filed(t, more[i])} | 0 <= i < |more| && more[i].identifiers != []
      ensures Filed(t, more[i])
    {
      FilingFiles(s, now, rs, e, touched, key, i);
    }
    assert Pending(s, s.records[0]);
    WindowsAfter(s, now, e, touched, key);
    forall k, f | k in t.windows && f in t.windows[k].events
      ensures RecordOf(f) in more
    {
      if f != e {
        var l :| l in s.windows && f in s.windows[l].events;
        assert RecordOf(f) in rs;
      }
    }
  }

  /** Filing one record keeps the mirror, with the record added. */
  lemma FilingMirrors(s: State, now: int, rs: seq<Record>)
    requires Invariant(s) && s.records != [] && Mirrors(s, rs)
    ensures Mirrors(FileFirst(s, now), rs + [s.records[0]])
  {
    var r := s.records[0];
    var more := rs + [r];
    assert more[..|rs|] == rs && more[..|rs| + 1] == more;
    MentionedSnoc(more, |rs|);
    if r.identifiers == [] {
      DroppingMirrors(s, now, rs, more);
    } else {
      var e, touched, key := FilingParts(s);
      assert Pending(s, s.records[0]);
      assert r == RecordOf(e);
      FilingMirrorsIndex(s, now, rs, e, touched, key, more);
      FilingMirrorsWindows(s, now, rs, e, touched, key, more);
    }
  }

  lemma OneMore(rs: seq<Record>, more: seq<Record>)
    requires more != []
    ensures rs + [more[0]] + more[1..] == rs + more
  {
  }

  lemma {:induction false} CorrelateMirrors(s: State, now: int, rs: seq<Record>)
    requires Invariant(s) && Mirrors(s, rs)
    ensures Mirrors(Correlate(s, now), rs + s.records)
    decreases |s.records|
  {
    if s.records == [] {
      assert rs + [] == rs;
    } else {
      FilingMirrors(s, now, rs);
      CorrelateStep(s, now);
      CorrelateMirrors(FileFirst(s, now), now, rs + [s.records[0]]);
      OneMore(rs, s.records);
    }
  }

  ghost predicate NoFlush(ops: seq<Op>) {
    forall i | 0 <= i < |ops| :: !ops[i].FlushAt?
  }

  lemma {:induction false} RunMirrors(ops: seq<Op>, limits: Limits)
    requires NoFlush(ops)
    ensures Mirrors(Run(ops, limits), Correlated(ops, limits))
  {
    if ops == [] {
      assert Mentioned([]) == {};
    } else {
      var before, op := ops[..|ops| - 1], ops[|ops| - 1];
      RunMirrors(before, limits);
      var s, rs := Run(before, limits), Correlated(before, limits);
      if op.CorrelateAt? {
        CorrelateMirrors(s, op.now, rs);
      } else {
        assert op.Accept?;
        var t := Run(ops, limits);
        assert t == AcceptEvent(s, op.event);
        assert rs + [] == rs;
        forall i {:trigger Filed(t, rs[i])} | 0 <= i < |rs| && rs[i].identifiers != []
          ensures Filed(t, rs[i])
        {
          assert Filed(s, rs[i]);
        }
      }
    }
  }

  /** Without a flush, two filed events are in one window exactly when the batch algorithm puts
      their records in one component. */
  lemma OnlineIsBatch(ops: seq<Op>, limits: Limits, out: seq<Component>, i: nat, j: nat)
    requires NoFlush(ops)
    requires IsExact(Correlated(ops, limits), out)
    requires i < |Correlated(ops, limits)| && j < |Correlated(ops, limits)|
    requires Correlated(ops, limits)[i].identifiers != [] && Correlated(ops, limits)[j].identifiers != []
    ensures var s, rs := Run(ops, limits), Correlated(ops, limits);
      && Filed(s, rs[i]) && Filed(s, rs[j])
      && ((exists k | k in s.windows ::
             s.events[rs[i].eventID] in s.windows[k].events && s.events[rs[j].eventID] in s.windows[k].events)
          <==> exists c | 0 <= c < |out| :: Holds(rs, out[c], rs[i]) && Holds(rs, out[c], rs[j]))
  {
    var s, rs := Run(ops, limits), Correlated(ops, limits);
    RunMirrors(ops, limits);
    assert Filed(s, rs[i]) && Filed(s, rs[j]);
    var a, b := rs[i].Ids()[0], rs[j].Ids()[0];
    var e, f := s.events[rs[i].eventID], s.events[rs[j].eventID];
    SharesComponent(rs, out, i, j);
    SharesComponent(rs, out, j, j);
    var c :| 0 <= c < |out| && Holds(rs, out[c], rs[i]);
    var d :| 0 <= d < |out| && Holds(rs, out[d], rs[j]);
    assert s.index[a] == s.index[b] <==> Connected(Groups(rs), a, b);
    assert c == d <==> Connected(Groups(rs), a, b);
    assert Placed(s, s.index[a], e) && Placed(s, s.index[b], f);
    forall k | k in s.windows && e in s.windows[k].events && f in s.windows[k].events
      ensures k == s.index[a] == s.index[b]
    {
      assert Placed(s, k, e) && Placed(s, k, f);
      OneWindow(s, k, s.index[a], e, e);
      OneWindow(s, k, s.index[b], f, f);
    }
  }

  /** A window is marked bridged exactly when some filed record of it carries more than one
      identifier, flushes or not. */
  lemma BridgedExactly(ops: seq<Op>, limits: Limits, k: string)
    ensures var s := Run(ops, limits);
      k in s.bridged <==> k in s.windows && exists e | e in s.windows[k].events :: |RecordOf(e).identifiers| > 1
  {
    var s := Run(ops, limits);
    assert k in s.bridged <==> k in s.windows && Multi(s.windows[k].events);
    forall e: Event
      ensures |RecordOf(e).identifiers| == |e.identifiers|
    {
      HasIds(e);
    }
  }
}
