/** Which windows are named by the least of their identifiers. */
module WindowKeys {
  import opened Text
  import opened Events
  import opened Identifiers
  import opened Correlation
  import opened OnlineBatch

  /** The window's key is the least identifier it owns, as the batch algorithm would name it. */
  ghost predicate LeastKey(s: State, k: string) {
    forall x {:trigger s.index[x]} | x in s.index && s.index[x] == k :: AtMost(k, x)
  }

  ghost predicate AllLeast(s: State) {
    forall k {:trigger LeastKey(s, k)} | k in s.windows :: LeastKey(s, k)
  }

  /** The other windows keep their identifiers. */
  lemma OthersKeepLeast(s: State, now: int, e: Event, touched: set<string>, key: string, k: string)
    requires Filing(s, e, touched, key) && AllLeast(s) && k in FileFirst(s, now).windows && k != key
    ensures LeastKey(FileFirst(s, now), k)
  {
    var t := FileFirst(s, now);
    WindowsAfter(s, now, e, touched, key);
    assert LeastKey(s, k);
    forall x | x in t.index && t.index[x] == k
      ensures AtMost(k, x)
    {
      IndexAfter(s, now, e, touched, key, x);
    }
  }

  /** The joint window is named by its least identifier exactly when none of the record's sorts before its name. */
  lemma JointLeastExactly(s: State, now: int, e: Event, touched: set<string>, key: string)
    requires Filing(s, e, touched, key) && AllLeast(s)
    ensures LeastKey(FileFirst(s, now), key) <==> forall x | x in IdSet(e) :: AtMost(key, x)
  {
    var t := FileFirst(s, now);
    forall x | x in IdSet(e)
      ensures x in t.index && t.index[x] == key
    {
      IndexAfter(s, now, e, touched, key, x);
    }
    if forall x | x in IdSet(e) :: AtMost(key, x) {
      forall x {:trigger t.index[x]} | x in t.index && t.index[x] == key
        ensures AtMost(key, x)
      {
        IndexAfter(s, now, e, touched, key, x);
        if x !in IdSet(e) {
          var l := s.index[x];
          assert LeastKey(s, l) && AtMost(key, l);
          AtMostOrders(key, l, x);
        }
      }
    }
  }

  /** While every window is named by its least identifier, filing a record keeps that if and only if the record
      opens a window, or none of its identifiers sorts before the least window it touches. */
  lemma FilingKeepsLeastExactly(s: State, now: int, e: Event, touched: set<string>, key: string)
    requires Filing(s, e, touched, key) && AllLeast(s)
    ensures Invariant(FileFirst(s, now))
    ensures AllLeast(FileFirst(s, now))
      <==> touched == {} || forall x | x in IdSet(e) :: AtMost(Smallest(touched), x)
  {
    var t := FileFirst(s, now);
    FileFirstKeeps(s, now);
    WindowsAfter(s, now, e, touched, key);
    JointLeastExactly(s, now, e, touched, key);
    assert key in t.windows;
    if LeastKey(t, key) {
      forall k {:trigger LeastKey(t, k)} | k in t.windows
        ensures LeastKey(t, k)
      {
        if k != key {
          OthersKeepLeast(s, now, e, touched, key, k);
        }
      }
    }
  }

  lemma IdsAre(e: Event, x: string)
    requires forall id | id in e.identifiers :: ':' in id
    ensures x in IdSet(e) <==> x in e.identifiers
  {
    var names := RecordOf(e).Ids();
    forall i | 0 <= i < |e.identifiers|
      ensures names[i] == e.identifiers[i]
    {
      ParseThenString(e.identifiers[i]);
    }
    if x in e.identifiers {
      var i :| 0 <= i < |e.identifiers| && e.identifiers[i] == x;
      assert names[i] == x;
    }
  }

  lemma RunSnoc(ops: seq<Op>, op: Op, limits: Limits)
    ensures Run(ops + [op], limits) == Apply(Run(ops, limits), op, limits)
  {
    assert (ops + [op])[..|ops|] == ops;
  }

  /** Filing the only pending record, which touches these windows. */
  lemma FileOnly(s: State, now: int, e: Event, touched: set<string>)
    requires Invariant(s) && s.records == [RecordOf(e)] && e.eventID in s.events && s.events[e.eventID] == e
    requires IdSet(e) != {} && touched == Touched(s.index, IdSet(e))
    ensures var t := Correlate(s, now);
      && t.events == s.events && t.records == [] && t.index.Keys == s.index.Keys + IdSet(e)
      && forall x | x in IdSet(e) ::
           t.index[x] == if touched == {} then Smallest(IdSet(e)) else Smallest(touched)
  {
    HasIds(e);
    CorrelateStep(s, now);
    var f, ts, key := FilingParts(s);
    var t := FileFirst(s, now);
    assert t.records == [];
    forall x
      ensures x in t.index <==> x in s.index || x in IdSet(e)
      ensures x in IdSet(e) ==> t.index[x] == key
    {
      IndexAfter(s, now, e, touched, key, x);
    }
  }

  lemma {:induction false} Prefixed(p: string, a: string, b: string)
    requires Less(a, b)
    ensures Less(p + a, p + b)
  {
    if p == [] {
      assert p + a == a && p + b == b;
    } else {
      Prefixed(p[1..], a, b);
      assert (p + a)[1..] == p[1..] + a && (p + b)[1..] == p[1..] + b;
    }
  }

  const LATER := "ray:b"
  const EARLIER := "ray:a"

  lemma TheyDiffer()
    ensures ':' in LATER && ':' in EARLIER && Less(EARLIER, LATER) && !AtMost(LATER, EARLIER)
  {
    assert LATER[3] == ':' && EARLIER[3] == ':';
    Prefixed("ray:", "a", "b");
    assert "ray:" + "a" == EARLIER && "ray:" + "b" == LATER;
    AtMostOrders(EARLIER, LATER, EARLIER);
    LessIrreflexive(EARLIER);
  }

  lemma OneName(a: Event)
    requires a.identifiers == [LATER]
    ensures IdSet(a) == {LATER} && Smallest(IdSet(a)) == LATER
  {
    TheyDiffer();
    forall x
      ensures x in IdSet(a) <==> x == LATER
    {
      IdsAre(a, x);
    }
  }

  lemma TwoNames(b: Event)
    requires b.identifiers == [EARLIER, LATER]
    ensures IdSet(b) == {EARLIER, LATER} && Smallest({LATER}) == LATER
  {
    TheyDiffer();
    forall x
      ensures x in IdSet(b) <==> x == EARLIER || x == LATER
    {
      IdsAre(b, x);
    }
  }

  lemma Begins(a: Event)
    ensures Invariant(EMPTY) && Invariant(AcceptEvent(EMPTY, a))
    ensures AcceptEvent(EMPTY, a) == State(map[a.eventID := a], [RecordOf(a)], {}, map[], map[])
    ensures forall ids :: Touched(map[], ids) == {}
  {
    AcceptKeeps(EMPTY, a);
    assert [] + [RecordOf(a)] == [RecordOf(a)];
  }

  lemma FirstFiled(a: Event, now: int) returns (s: State)
    requires a.identifiers == [LATER]
    ensures Invariant(AcceptEvent(EMPTY, a)) && s == Correlate(AcceptEvent(EMPTY, a), now)
    ensures s.index == map[LATER := LATER] && s.records == [] && s.events == map[a.eventID := a]
  {
    hide Invariant, AcceptEvent, Correlate, Touched, RecordOf, IdSet;
    Begins(a);
    var r := AcceptEvent(EMPTY, a);
    s := Correlate(r, now);
    OneName(a);
    FileOnly(r, now, a, {});
    assert s.index.Keys == {LATER};
  }

  lemma Continues(s: State, b: Event)
    requires Invariant(s) && s.index == map[LATER := LATER] && s.records == [] && b.eventID !in s.events
    requires LATER in IdSet(b)
    ensures Invariant(AcceptEvent(s, b))
    ensures AcceptEvent(s, b) == s.(events := s.events[b.eventID := b], records := [RecordOf(b)])
    ensures Touched(s.index, IdSet(b)) == {LATER}
  {
    hide Invariant, RecordOf, IdSet;
    AcceptKeeps(s, b);
    assert [] + [RecordOf(b)] == [RecordOf(b)];
    assert LATER in Touched(s.index, IdSet(b));
  }

  lemma SecondFiled(s: State, b: Event, now: int) returns (t: State)
    requires Invariant(s) && s.index == map[LATER := LATER] && s.records == []
    requires b.identifiers == [EARLIER, LATER] && b.eventID !in s.events
    ensures Invariant(AcceptEvent(s, b)) && t == Correlate(AcceptEvent(s, b), now)
    ensures t.index == map[EARLIER := LATER, LATER := LATER]
  {
    hide Invariant, AcceptEvent, Correlate, Touched, RecordOf, IdSet;
    TwoNames(b);
    Continues(s, b);
    var r := AcceptEvent(s, b);
    t := Correlate(r, now);
    FileOnly(r, now, b, {LATER});
    assert t.index.Keys == {EARLIER, LATER};
  }

  lemma AcceptApplies(s: State, e: Event, limits: Limits)
    requires Invariant(s)
    ensures Apply(s, Accept(e), limits) == AcceptEvent(s, e)
  {
  }

  lemma CorrelateApplies(s: State, now: int, limits: Limits)
    requires Invariant(s)
    ensures Apply(s, CorrelateAt(now), limits) == Correlate(s, now)
  {
  }

  /** Accepting an event and correlating. */
  lemma TwoMore(ops: seq<Op>, e: Event, now: int, limits: Limits)
    ensures Invariant(AcceptEvent(Run(ops, limits), e))
    ensures Run(ops + [Accept(e), CorrelateAt(now)], limits) == Correlate(AcceptEvent(Run(ops, limits), e), now)
  {
    hide *;
    RunSnoc(ops, Accept(e), limits);
    RunSnoc(ops + [Accept(e)], CorrelateAt(now), limits);
    assert ops + [Accept(e)] + [CorrelateAt(now)] == ops + [Accept(e), CorrelateAt(now)];
    AcceptApplies(Run(ops, limits), e, limits);
    CorrelateApplies(Run(ops + [Accept(e)], limits), now, limits);
  }

  lemma NotLeast(t: State)
    requires Invariant(t) && t.index == map[EARLIER := LATER, LATER := LATER]
    ensures LATER in t.windows && !LeastKey(t, LATER)
  {
    TheyDiffer();
    assert t.index[EARLIER] == LATER && Carried(t, LATER);
  }

  lemma RunEmpty(limits: Limits)
    ensures Run([], limits) == EMPTY
  {
  }

  /** An event with the identifier "ray:b" is filed, then one with "ray:a" and "ray:b": the window keeps the name
      "ray:b", though "ray:a" is the least of its identifiers. */
  lemma KeepsFirstName(a: Event, b: Event, limits: Limits)
    requires a.identifiers == [LATER] && b.identifiers == [EARLIER, LATER] && a.eventID != b.eventID
    ensures var s := Run([Accept(a), CorrelateAt(1), Accept(b), CorrelateAt(2)], limits);
      s.index == map[EARLIER := LATER, LATER := LATER] && LATER in s.windows && !LeastKey(s, LATER)
  {
    hide *;
    RunEmpty(limits);
    TwoMore([], a, 1, limits);
    assert [] + [Accept(a), CorrelateAt(1)] == [Accept(a), CorrelateAt(1)];
    TwoMore([Accept(a), CorrelateAt(1)], b, 2, limits);
    assert [Accept(a), CorrelateAt(1)] + [Accept(b), CorrelateAt(2)]
        == [Accept(a), CorrelateAt(1), Accept(b), CorrelateAt(2)];
    var s := FirstFiled(a, 1);
    var t := SecondFiled(s, b, 2);
    NotLeast(t);
  }
}
