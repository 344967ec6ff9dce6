/** The online correlation state as values: what one accumulate, correlate or flush does to it,
    and the index invariant every run keeps. */
module Correlation {
  import opened Text
  import opened Sorting
  import opened Events
  import opened Identifiers
  import opened Grouping
  import opened Closing

  datatype WindowView = WindowView(events: set<Event>, first: int, last: int)

  datatype Limits = Limits(lateArrival: int, expectedLayers: int)

  datatype State = State(
    events: map<string, Event>, records: seq<Record>, bridged: set<string>,
    index: map<string, string>, windows: map<string, WindowView>)

  function ParseAll(ids: seq<string>): (r: seq<Identifier>)
    ensures |r| == |ids|
  {
    seq(|ids|, i requires 0 <= i < |ids| => Parse(ids[i]))
  }

  function RecordOf(e: Event): Record {
    Record(e.eventID, e.provider, ParseAll(e.identifiers))
  }

  function AsSet(ids: seq<string>): set<string> {
    set x | x in ids
  }

  /** The canonical identifiers an event carries. */
  function IdSet(e: Event): set<string> {
    AsSet(RecordOf(e).Ids())
  }

  /** The window keys that already own one of `ids`. */
  ghost function Touched(index: map<string, string>, ids: set<string>): set<string> {
    set x | x in ids && x in index :: index[x]
  }

  /** A record's window: a fresh one named by its smallest identifier, or the smallest key it touches. */
  ghost function KeyFor(index: map<string, string>, ids: set<string>): string
    requires ids != {}
  {
    if Touched(index, ids) == {} then Smallest(ids) else Smallest(Touched(index, ids))
  }

  ghost function Reindexed(index: map<string, string>, ids: set<string>): map<string, string>
    requires ids != {}
  {
    map x | x in index.Keys + ids ::
      if x in ids || index[x] in Touched(index, ids) then KeyFor(index, ids) else index[x]
  }

  ghost function UnionOf(windows: map<string, WindowView>, ks: set<string>): set<Event> {
    set k, e | k in ks && k in windows && e in windows[k].events :: e
  }

  lemma {:induction false} EarliestExists(windows: map<string, WindowView>, ks: set<string>)
    requires ks != {} && ks <= windows.Keys
    ensures exists k | k in ks :: forall l | l in ks :: windows[k].first <= windows[l].first
  {
    var c :| c in ks;
    if ks != {c} {
      EarliestExists(windows, ks - {c});
      var k :| k in ks - {c} && forall l | l in ks - {c} :: windows[k].first <= windows[l].first;
      var best := if windows[c].first <= windows[k].first then c else k;
      assert forall l | l in ks :: windows[best].first <= windows[l].first;
    }
  }

  /** The earliest arrival of the windows named in ks. */
  ghost function Earliest(windows: map<string, WindowView>, ks: set<string>): (first: int)
    requires ks != {} && ks <= windows.Keys
    ensures exists k | k in ks :: windows[k].first == first
    ensures forall k | k in ks :: first <= windows[k].first
  {
    EarliestExists(windows, ks);
    var k :| k in ks && forall l | l in ks :: windows[k].first <= windows[l].first;
    windows[k].first
  }

  /** The touched windows merged into one, with e added. */
  ghost function Joint(index: map<string, string>, windows: map<string, WindowView>, e: Event, now: int): WindowView
    requires IdSet(e) != {} && Touched(index, IdSet(e)) <= windows.Keys
  {
    var touched := Touched(index, IdSet(e));
    if touched == {} then WindowView({e}, now, now)
    else WindowView(UnionOf(windows, touched) + {e}, Earliest(windows, touched), now)
  }

  // ---- the invariant ----

  /** e lies in window k: it is the event accepted under its id, and k owns all its identifiers. */
  ghost predicate Placed(s: State, k: string, e: Event) {
    && e.eventID in s.events && s.events[e.eventID] == e
    && IdSet(e) != {}
    && forall x | x in IdSet(e) :: x in s.index && s.index[x] == k
  }

  /** Some event of x's window carries x. */
  ghost predicate Carried(s: State, x: string)
    requires x in s.index
  {
    s.index[x] in s.windows && exists e | e in s.windows[s.index[x]].events :: x in IdSet(e)
  }

  ghost predicate InWindow(s: State, e: Event) {
    exists k | k in s.windows :: e in s.windows[k].events
  }

  /** A pending record is the one its accepted event gives, and no window holds that event yet. */
  ghost predicate Pending(s: State, r: Record) {
    && r.eventID in s.events && r == RecordOf(s.events[r.eventID])
    && !InWindow(s, s.events[r.eventID])
  }

  ghost predicate Multi(events: set<Event>) {
    exists e | e in events :: |e.identifiers| > 1
  }

  ghost predicate Invariant(s: State) {
    // each open window's key is one of its own identifiers
    && (forall k {:trigger s.windows[k]} {:trigger k in s.windows} ::
          k in s.windows ==> k in s.index && s.index[k] == k)
    // each indexed identifier names an open window and is carried there
    && (forall x {:trigger Carried(s, x)} :: x in s.index ==> Carried(s, x))
    && (forall k, e {:trigger Placed(s, k, e)} :: k in s.windows && e in s.windows[k].events ==> Placed(s, k, e))
    && (forall k {:trigger k in s.bridged} :: k in s.bridged <==> k in s.windows && Multi(s.windows[k].events))
    && (forall i {:trigger Pending(s, s.records[i])} :: 0 <= i < |s.records| ==> Pending(s, s.records[i]))
    && (forall i, j | 0 <= i < j < |s.records| :: s.records[i].eventID != s.records[j].eventID)
  }

  const EMPTY := State(map[], [], {}, map[], map[])

  // ---- steps ----

  ghost function AcceptEvent(s: State, e: Event): State {
    if e.eventID in s.events then s
    else s.(events := s.events[e.eventID := e], records := s.records + [RecordOf(e)])
  }

  lemma HasIds(e: Event)
    ensures IdSet(e) != {} <==> RecordOf(e).identifiers != []
    ensures |RecordOf(e).identifiers| == |e.identifiers|
  {
    if RecordOf(e).identifiers != [] {
      assert RecordOf(e).Ids()[0] in IdSet(e);
    }
  }

  lemma TouchedOpen(s: State, ids: set<string>)
    requires Invariant(s)
    ensures Touched(s.index, ids) <= s.windows.Keys
  {
    forall k | k in Touched(s.index, ids)
      ensures k in s.windows
    {
      var x :| x in ids && x in s.index && s.index[x] == k;
      assert Carried(s, x);
    }
  }

  /** Files the first pending record. */
  ghost function FileFirst(s: State, now: int): State
    requires s.records != [] && Invariant(s)
  {
    var r := s.records[0];
    var rest := s.(records := s.records[1..]);
    assert Pending(s, s.records[0]);
    var e := s.events[r.eventID];
    if r.identifiers == [] then rest else
      HasIds(e);
      TouchedOpen(s, IdSet(e));
      var touched, key := Touched(s.index, IdSet(e)), KeyFor(s.index, IdSet(e));
      var joint := Joint(s.index, s.windows, e, now);
      rest.(
        index := Reindexed(s.index, IdSet(e)),
        windows := (s.windows - touched)[key := joint],
        bridged := s.bridged - touched + if |e.identifiers| > 1 || s.bridged * touched != {} then {key} else {})
  }

  // ---- filing keeps the invariant ----

  /** The first pending record has identifiers, and these are the parts of filing it. */
  ghost predicate Filing(s: State, e: Event, touched: set<string>, key: string) {
    && Invariant(s) && s.records != []
    && s.records[0].eventID in s.events && e == s.events[s.records[0].eventID]
    && IdSet(e) != {} && s.records[0].identifiers != []
    && touched == Touched(s.index, IdSet(e)) && touched <= s.windows.Keys
    && key == KeyFor(s.index, IdSet(e))
  }

  lemma FilingParts(s: State) returns (e: Event, touched: set<string>, key: string)
    requires Invariant(s) && s.records != [] && s.records[0].identifiers != []
    ensures Filing(s, e, touched, key)
  {
    assert Pending(s, s.records[0]);
    e := s.events[s.records[0].eventID];
    HasIds(e);
    TouchedOpen(s, IdSet(e));
    touched, key := Touched(s.index, IdSet(e)), KeyFor(s.index, IdSet(e));
  }

  /** The key is one of the touched windows, or else a name no window has. */
  lemma KeyFacts(s: State, e: Event, touched: set<string>, key: string)
    requires Filing(s, e, touched, key)
    ensures if touched == {} then key in IdSet(e) && key !in s.index && key !in s.windows else key in touched
    ensures forall k | k in s.windows && k !in touched :: k !in IdSet(e) && k != key
  {
    assert forall x | x in IdSet(e) && x in s.index :: s.index[x] in touched;
  }

  /** Which identifiers the filed record's window owns afterwards. */
  lemma IndexAfter(s: State, now: int, e: Event, touched: set<string>, key: string, x: string)
    requires Filing(s, e, touched, key)
    ensures var t := FileFirst(s, now);
      && (x in t.index <==> x in s.index || x in IdSet(e))
      && (x in t.index ==>
        if x in IdSet(e) || s.index[x] in touched then t.index[x] == key
        else t.index[x] == s.index[x] && s.index[x] in s.windows && s.index[x] != key)
  {
    KeyFacts(s, e, touched, key);
    assert x in s.index ==> Carried(s, x);
  }

  lemma WindowsAfter(s: State, now: int, e: Event, touched: set<string>, key: string)
    requires Filing(s, e, touched, key)
    ensures var t := FileFirst(s, now);
      && (forall k :: k in t.windows <==> k == key || (k in s.windows && k !in touched))
      && (forall k | k in t.windows && k != key :: t.windows[k] == s.windows[k])
      && t.windows[key].events == UnionOf(s.windows, touched) + {e}
  {
    KeyFacts(s, e, touched, key);
  }

  lemma FilingKeepsKeys(s: State, now: int, e: Event, touched: set<string>, key: string)
    requires Filing(s, e, touched, key)
    ensures var t := FileFirst(s, now);
      forall k :: k in t.windows ==> k in t.index && t.index[k] == k
  {
    var t := FileFirst(s, now);
    WindowsAfter(s, now, e, touched, key);
    KeyFacts(s, e, touched, key);
    forall k | k in t.windows
      ensures k in t.index && t.index[k] == k
    {
      assert k in s.windows ==> k in s.index && s.index[k] == k;
      IndexAfter(s, now, e, touched, key, k);
    }
  }

  lemma FilingKeepsPlaced(s: State, now: int, e: Event, touched: set<string>, key: string, k: string, f: Event)
    requires Filing(s, e, touched, key)
    requires var t := FileFirst(s, now); k in t.windows && f in t.windows[k].events
    ensures Placed(FileFirst(s, now), k, f)
  {
    var t := FileFirst(s, now);
    WindowsAfter(s, now, e, touched, key);
    assert Pending(s, s.records[0]);
    if k != key || f != e {
      var l :| l in s.windows && f in s.windows[l].events && (l == k || (k == key && l in touched));
      assert Placed(s, l, f);
    }
    forall x | x in IdSet(f)
      ensures x in t.index && t.index[x] == k
    {
      IndexAfter(s, now, e, touched, key, x);
      KeyFacts(s, e, touched, key);
    }
  }

  lemma FilingKeepsCarried(s: State, now: int, e: Event, touched: set<string>, key: string, x: string)
    requires Filing(s, e, touched, key) && x in FileFirst(s, now).index
    ensures Carried(FileFirst(s, now), x)
  {
    var t := FileFirst(s, now);
    WindowsAfter(s, now, e, touched, key);
    IndexAfter(s, now, e, touched, key, x);
    if x in IdSet(e) {
      assert e in t.windows[key].events;
    } else {
      assert Carried(s, x);
      var f :| f in s.windows[s.index[x]].events && x in IdSet(f);
      assert f in t.windows[t.index[x]].events;
    }
  }

  /** The joint window has a record with several identifiers exactly when e or a merged window has. */
  lemma JointMulti(s: State, e: Event, touched: set<string>, key: string)
    requires Filing(s, e, touched, key)
    ensures Multi(UnionOf(s.windows, touched) + {e}) <==> |e.identifiers| > 1 || s.bridged * touched != {}
  {
    var joint := UnionOf(s.windows, touched) + {e};
    if s.bridged * touched != {} {
      var l :| l in s.bridged && l in touched;
      var f :| f in s.windows[l].events && |f.identifiers| > 1;
      assert f in joint;
    }
    if Multi(joint) && |e.identifiers| <= 1 {
      var f :| f in joint && |f.identifiers| > 1;
      var l :| l in touched && l in s.windows && f in s.windows[l].events;
      assert Multi(s.windows[l].events);
      assert l in s.bridged * touched;
    }
    assert e in joint;
  }

  lemma FilingKeepsBridged(s: State, now: int, e: Event, touched: set<string>, key: string, k: string)
    requires Filing(s, e, touched, key)
    ensures var t := FileFirst(s, now);
      k in t.bridged <==> k in t.windows && Multi(t.windows[k].events)
  {
    WindowsAfter(s, now, e, touched, key);
    KeyFacts(s, e, touched, key);
    JointMulti(s, e, touched, key);
    assert k in s.bridged <==> k in s.windows && Multi(s.windows[k].events);
  }

  lemma FilingKeepsPending(s: State, now: int, e: Event, touched: set<string>, key: string, i: nat)
    requires Filing(s, e, touched, key) && 0 < i < |s.records|
    ensures Pending(FileFirst(s, now), s.records[i])
  {
    var t := FileFirst(s, now);
    WindowsAfter(s, now, e, touched, key);
    assert Pending(s, s.records[i]) && Pending(s, s.records[0]);
    var f := s.events[s.records[i].eventID];
    assert f.eventID == s.records[i].eventID && e.eventID == s.records[0].eventID;
    assert forall l | l in s.windows :: f !in s.windows[l].events;
  }

  lemma FiledRecords(s: State, now: int, e: Event, touched: set<string>, key: string)
    requires Filing(s, e, touched, key)
    ensures Invariant(s) && s.records != []
    ensures var t := FileFirst(s, now);
      && t.records == s.records[1..]
      && forall i, j | 0 <= i < j < |t.records| :: t.records[i].eventID != t.records[j].eventID
  {
  }

  lemma MakesInvariant(t: State)
    requires forall k {:trigger t.windows[k]} {:trigger k in t.windows} ::
      k in t.windows ==> k in t.index && t.index[k] == k
    requires forall x {:trigger Carried(t, x)} :: x in t.index ==> Carried(t, x)
    requires forall k, e {:trigger Placed(t, k, e)} :: k in t.windows && e in t.windows[k].events ==> Placed(t, k, e)
    requires forall k {:trigger k in t.bridged} :: k in t.bridged <==> k in t.windows && Multi(t.windows[k].events)
    requires forall i {:trigger Pending(t, t.records[i])} :: 0 <= i < |t.records| ==> Pending(t, t.records[i])
    requires forall i, j | 0 <= i < j < |t.records| :: t.records[i].eventID != t.records[j].eventID
    ensures Invariant(t)
  {
  }

  lemma FilingKeeps(s: State, now: int, e: Event, touched: set<string>, key: string)
    requires Filing(s, e, touched, key)
    ensures Invariant(FileFirst(s, now))
  {
    hide *;
    FiledRecords(s, now, e, touched, key);
    var t := FileFirst(s, now);
    FilingKeepsKeys(s, now, e, touched, key);
    forall x {:trigger Carried(t, x)} | x in t.index
      ensures Carried(t, x)
    {
      FilingKeepsCarried(s, now, e, touched, key, x);
    }
    forall k, f {:trigger Placed(t, k, f)} | k in t.windows && f in t.windows[k].events
      ensures Placed(t, k, f)
    {
      FilingKeepsPlaced(s, now, e, touched, key, k, f);
    }
    forall k {:trigger k in t.bridged}
      ensures k in t.bridged <==> k in t.windows && Multi(t.windows[k].events)
    {
      FilingKeepsBridged(s, now, e, touched, key, k);
    }
    forall i {:trigger Pending(t, t.records[i])} | 0 <= i < |t.records|
      ensures Pending(t, t.records[i])
    {
      FilingKeepsPending(s, now, e, touched, key, i + 1);
    }
    MakesInvariant(t);
  }

  /** Only fewer records are pending. */
  lemma RecordsDropped(s: State, t: State)
    requires Invariant(s) && s.records != [] && t == s.(records := s.records[1..])
    ensures Invariant(t)
  {
    assert forall i | 0 <= i < |t.records| :: t.records[i] == s.records[i + 1];
    forall x {:trigger Carried(t, x)} | x in t.index
      ensures Carried(t, x)
    {
      assert Carried(s, x);
    }
    forall k, f {:trigger Placed(t, k, f)} | k in t.windows && f in t.windows[k].events
      ensures Placed(t, k, f)
    {
      assert Placed(s, k, f);
    }
    forall i {:trigger Pending(t, t.records[i])} | 0 <= i < |t.records|
      ensures Pending(t, t.records[i])
    {
      assert Pending(s, s.records[i + 1]);
    }
  }

  lemma FileFirstKeeps(s: State, now: int)
    requires Invariant(s) && s.records != []
    ensures Invariant(FileFirst(s, now))
  {
    if s.records[0].identifiers == [] {
      RecordsDropped(s, FileFirst(s, now));
    } else {
      var e, touched, key := FilingParts(s);
      FilingKeeps(s, now, e, touched, key);
    }
  }

  lemma AcceptKeeps(s: State, e: Event)
    requires Invariant(s)
    ensures Invariant(AcceptEvent(s, e))
  {
    if e.eventID !in s.events {
      var t := AcceptEvent(s, e);
      forall x {:trigger Carried(t, x)} | x in t.index
        ensures Carried(t, x)
      {
        assert Carried(s, x);
      }
      forall k, f {:trigger Placed(t, k, f)} | k in t.windows && f in t.windows[k].events
        ensures Placed(t, k, f)
      {
        assert Placed(s, k, f);
      }
      forall i | 0 <= i < |s.records|
        ensures s.records[i].eventID != e.eventID
      {
        assert Pending(s, s.records[i]);
      }
      forall k | k in s.windows
        ensures e !in s.windows[k].events
      {
        assert e in s.windows[k].events ==> Placed(s, k, e);
      }
      forall i {:trigger Pending(t, t.records[i])} | 0 <= i < |t.records|
        ensures Pending(t, t.records[i])
      {
        if i < |s.records| {
          assert Pending(s, s.records[i]);
        }
      }
    }
  }

  // ---- correlate and flush ----

  /** Files every pending record, in order. */
  ghost function Correlate(s: State, now: int): (t: State)
    requires Invariant(s)
    ensures Invariant(t) && t.records == []
    decreases |s.records|
  {
    if s.records == [] then s
    else
      FileFirstKeeps(s, now);
      Correlate(FileFirst(s, now), now)
  }

  lemma CorrelateStep(s: State, now: int)
    requires Invariant(s) && s.records != []
    ensures Invariant(FileFirst(s, now)) && FileFirst(s, now).records == s.records[1..]
    ensures Correlate(s, now) == Correlate(FileFirst(s, now), now)
  {
    FileFirstKeeps(s, now);
  }

  /** The three conditions that close a window. */
  ghost predicate DueSeq(events: seq<Event>, first: int, now: int, limits: Limits) {
    || HasAllLayers(events, limits.expectedLayers)
    || TerminallyComplete(events)
    || now - first >= limits.lateArrival
  }

  ghost predicate Due(w: WindowView, now: int, limits: Limits) {
    DueSeq(Listing(w.events), w.first, now, limits)
  }

  ghost function DueKeys(s: State, now: int, limits: Limits): set<string> {
    set k | k in s.windows && Due(s.windows[k], now, limits)
  }

  /** Takes the windows ks out of the state, with their identifiers, their marks and their events. */
  ghost function Release(s: State, ks: set<string>): State {
    State(s.events - (set e | e in UnionOf(s.windows, ks) :: e.eventID), s.records, s.bridged - ks,
          map x | x in s.index && s.index[x] !in ks :: s.index[x],
          s.windows - ks)
  }

  /** Takes every due window out of the state. */
  ghost function Flush(s: State, now: int, limits: Limits): State {
    Release(s, DueKeys(s, now, limits))
  }

  /** Equal ids put two windowed events in the same window. */
  lemma OneWindow(s: State, k: string, l: string, f: Event, g: Event)
    requires Placed(s, k, f) && Placed(s, l, g)
    ensures f.eventID == g.eventID ==> k == l && f == g
  {
    var x :| x in IdSet(f);
    assert s.index[x] == k;
  }

  /** An event of a window that stays is not among the events of those that go. */
  lemma StaysAccepted(s: State, due: set<string>, k: string, f: Event)
    requires Invariant(s) && due <= s.windows.Keys
    requires k in s.windows && k !in due && f in s.windows[k].events
    ensures forall g | g in UnionOf(s.windows, due) :: g.eventID != f.eventID
  {
    assert Placed(s, k, f);
    forall g | g in UnionOf(s.windows, due)
      ensures g.eventID != f.eventID
    {
      var l :| l in due && g in s.windows[l].events;
      assert Placed(s, l, g);
      OneWindow(s, k, l, f, g);
    }
  }

  lemma FlushKeeps(s: State, now: int, limits: Limits)
    requires Invariant(s)
    ensures Invariant(Flush(s, now, limits))
  {
    var t := Flush(s, now, limits);
    var due := DueKeys(s, now, limits);
    forall x {:trigger Carried(t, x)} | x in t.index
      ensures Carried(t, x)
    {
      assert Carried(s, x);
    }
    forall k, f {:trigger Placed(t, k, f)} | k in t.windows && f in t.windows[k].events
      ensures Placed(t, k, f)
    {
      assert Placed(s, k, f);
      StaysAccepted(s, due, k, f);
    }
    forall i {:trigger Pending(t, t.records[i])} | 0 <= i < |t.records|
      ensures Pending(t, t.records[i])
    {
      assert Pending(s, s.records[i]);
      var f := s.events[s.records[i].eventID];
      assert f.eventID == s.records[i].eventID;
      forall g | g in UnionOf(s.windows, due)
        ensures g.eventID != f.eventID
      {
        var l :| l in due && g in s.windows[l].events;
        assert Placed(s, l, g);
        assert InWindow(s, g);
      }
      assert forall l | l in s.windows :: f !in s.windows[l].events;
    }
  }
}
