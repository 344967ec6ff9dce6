/** The correlation pipeline as the program keeps it: an identifier index and its reverse, the
    bridged marks, the pending records and the window, all updated in place. */
module Pipelining {
  import opened Text
  import opened Sorting
  import opened Events
  import opened Identifiers
  import opened Grouping
  import opened Materializing
  import opened Correlation
  import opened Windowing
  import opened Flushing

  /** keyIDs lists, for each window key, exactly the identifiers the index maps to it. */
  ghost predicate Inverse(keyIDs: map<string, set<string>>, index: map<string, string>) {
    && (forall k, x {:trigger x in keyIDs[k]} | k in keyIDs :: x in keyIDs[k] <==> x in index && index[x] == k)
    && forall x {:trigger index[x]} | x in index :: index[x] in keyIDs
  }

  /** The index with every identifier of the windows in ks handed to key. */
  ghost function Repointed(index: map<string, string>, ks: set<string>, key: string): map<string, string> {
    map x | x in index :: if index[x] in ks then key else index[x]
  }

  /** `now` is `before` with the windows in ks folded into key. */
  ghost predicate Joined(before: map<string, WindowView>, now: map<string, WindowView>, key: string, ks: set<string>)
    requires key in before && ks <= before.Keys
  {
    && key in now
    && now.Keys == before.Keys - ks
    && (forall k {:trigger now[k]} | k in now && k != key :: now[k] == before[k])
    && now[key].events == UnionOf(before, ks + {key})
    && now[key].first == Earliest(before, ks + {key})
  }

  /** No event id occurs in two windows. */
  ghost predicate IDsApart(windows: map<string, WindowView>) {
    forall k, l, e, f {:trigger e in windows[k].events, f in windows[l].events} |
      k in windows && l in windows && e in windows[k].events && f in windows[l].events && e.eventID == f.eventID ::
        k == l
  }

  lemma UnionGrows(before: map<string, WindowView>, ks: set<string>, k: string)
    requires k in before
    ensures UnionOf(before, ks + {k}) == UnionOf(before, ks) + before[k].events
  {
  }

  lemma UnionOne(before: map<string, WindowView>, key: string)
    requires key in before
    ensures Joined(before, before, key, {})
  {
    assert {} + {key} == {key};
    assert UnionOf(before, {key}) == before[key].events;
    assert before.Keys - {} == before.Keys;
  }

  lemma EarliestGrows(before: map<string, WindowView>, ks: set<string>, k: string)
    requires ks != {} && ks <= before.Keys && k in before
    ensures Earliest(before, ks + {k})
         == if before[k].first < Earliest(before, ks) then before[k].first else Earliest(before, ks)
  {
    var all := ks + {k};
    assert all <= before.Keys && all != {};
    var l :| l in all && before[l].first == Earliest(before, all);
    assert k in all;
    var m :| m in ks && before[m].first == Earliest(before, ks);
    assert m in all;
  }

  lemma NothingShared(before: map<string, WindowView>, key: string, ks: set<string>, k: string)
    requires key in before && ks <= before.Keys && k in before && k != key && k !in ks
    requires IDsApart(before)
    ensures forall e | e in before[k].events :: !KnownID(UnionOf(before, ks + {key}), e.eventID)
  {
    forall e, f | e in before[k].events && f in UnionOf(before, ks + {key})
      ensures e.eventID != f.eventID
    {
      var l :| l in ks + {key} && l in before && f in before[l].events;
    }
  }

  /** Merging one more window extends the join by it. */
  lemma JoinOne(before: map<string, WindowView>, now: map<string, WindowView>, key: string, ks: set<string>, k: string)
    requires key in before && ks <= before.Keys && key !in ks
    requires Joined(before, now, key, ks) && IDsApart(before)
    requires k in before && k != key && k !in ks
    ensures Joined(before, MergedWindows(now, key, k), key, ks + {k})
  {
    var after := MergedWindows(now, key, k);
    assert k in now && now[k] == before[k];
    assert ks + {key} + {k} == ks + {k} + {key};
    UnionGrows(before, ks + {key}, k);
    EarliestGrows(before, ks + {key}, k);
    NothingShared(before, key, ks, k);
    assert NewTo(now[key].events, now[k].events) == now[k].events;
  }

  /** The marks with those of the windows in ks handed to key. */
  ghost function Remarked(bridged: set<string>, ks: set<string>, key: string): set<string> {
    if bridged * ks != {} then bridged - ks + {key} else bridged
  }

  lemma RemarkMore(bridged: set<string>, ks: set<string>, k: string, key: string)
    requires key !in ks && key != k
    ensures Remarked(Remarked(bridged, ks, key), {k}, key) == Remarked(bridged, ks + {k}, key)
  {
    var once := Remarked(bridged, ks, key);
    assert k in once <==> k in bridged && (k !in ks || bridged * ks == {});
    assert bridged * (ks + {k}) != {} <==> bridged * ks != {} || k in bridged;
  }

  lemma RepointMore(index: map<string, string>, ks: set<string>, k: string, key: string)
    requires key !in ks && key != k
    ensures Repointed(Repointed(index, ks, key), {k}, key) == Repointed(index, ks + {k}, key)
  {
  }

  /** A record touches at most one window per identifier. */
  lemma {:induction false} TouchedSize(index: map<string, string>, ids: seq<string>)
    ensures |Touched(index, AsSet(ids))| <= |ids|
  {
    if ids == [] {
      assert Touched(index, AsSet(ids)) == {};
    } else {
      var n := |ids| - 1;
      TouchedSize(index, ids[..n]);
      var before := Touched(index, AsSet(ids[..n]));
      assert forall x :: x in ids <==> x in ids[..n] || x == ids[n];
      assert Touched(index, AsSet(ids)) == before + if ids[n] in index then {index[ids[n]]} else {};
    }
  }

  /** The index once ids are handed to key. */
  ghost function Handed(index: map<string, string>, ids: set<string>, key: string): map<string, string> {
    map x | x in index.Keys + ids :: if x in ids then key else index[x]
  }

  lemma ReindexedIs(s: State, e: Event, touched: set<string>, key: string)
    requires Filing(s, e, touched, key)
    ensures Handed(Repointed(s.index, touched - {key}, key), IdSet(e), key) == Reindexed(s.index, IdSet(e))
  {
    KeyFacts(s, e, touched, key);
  }

  lemma PendingApart(s: State, e: Event, touched: set<string>, key: string)
    requires Filing(s, e, touched, key)
    ensures IDsApart(s.windows)
    ensures forall k | k in s.windows :: !KnownID(s.windows[k].events, e.eventID)
    ensures forall k | k in touched :: k != ""
  {
    forall k, l, f, g
      | k in s.windows && l in s.windows && f in s.windows[k].events && g in s.windows[l].events
        && f.eventID == g.eventID
      ensures k == l
    {
      assert Placed(s, k, f) && Placed(s, l, g);
      OneWindow(s, k, l, f, g);
    }
    assert Pending(s, s.records[0]);
    forall k, f | k in s.windows && f in s.windows[k].events
      ensures f.eventID != e.eventID
    {
      assert Placed(s, k, f);
    }
    forall k | k in touched
      ensures k != ""
    {
      assert k in s.index && s.index[k] == k;
      assert Carried(s, k);
      var f :| f in s.windows[k].events && k in IdSet(f);
      var i :| 0 <= i < |RecordOf(f).Ids()| && RecordOf(f).Ids()[i] == k;
      assert k == RecordOf(f).identifiers[i].String();
    }
  }

  lemma AsSetSnoc(ids: seq<string>, i: nat)
    requires i < |ids|
    ensures AsSet(ids[..i + 1]) == AsSet(ids[..i]) + {ids[i]}
  {
    assert ids[..i + 1] == ids[..i] + [ids[i]];
  }

  lemma HandSnoc(index: map<string, string>, ids: set<string>, x: string, key: string)
    ensures Handed(index, ids, key)[x := key] == Handed(index, ids + {x}, key)
  {
  }

  lemma RepointInverse(index: map<string, string>, owners: map<string, set<string>>, dst: string, src: string)
    requires Inverse(owners, index) && src in owners && dst in owners && dst != src
    ensures Inverse(owners[dst := owners[dst] + owners[src]] - {src}, Repointed(index, {src}, dst))
    ensures Repointed(index, {src}, dst) == Handed(index, owners[src], dst)
  {
    assert forall x | x in index :: x in owners[src] <==> index[x] == src;
    assert forall x | x in owners[src] :: x in index;
  }

  lemma HandInverse(index: map<string, string>, owners: map<string, set<string>>, key: string, ids: set<string>)
    requires Inverse(owners, index)
    requires forall x | x in ids && x in index :: index[x] == key
    ensures var own := if key in owners then owners[key] else {};
      Inverse(owners[key := own + ids], Handed(index, ids, key))
  {
  }

  /** After merging, the record's known identifiers all belong to its key. */
  lemma ReownedIs(
    index0: map<string, string>, ids: set<string>, touched: set<string>, key: string, index: map<string, string>)
    requires touched == Touched(index0, ids) && index == Repointed(index0, touched - {key}, key)
    ensures forall x | x in ids && x in index :: index[x] == key
  {
    forall x | x in ids && x in index
      ensures index[x] == key
    {
      assert index0[x] in touched;
    }
  }

  /** What adding the event to its window may rely on; a record touches several windows only
      when it has several identifiers. */
  lemma Attaching(
    index0: map<string, string>, r: Record, e: Event, touched: set<string>, key: string, index: map<string, string>)
    requires r == RecordOf(e) && touched == Touched(index0, IdSet(e))
    requires index == Repointed(index0, touched - {key}, key)
    ensures forall x | x in r.Ids() && x in index :: index[x] == key
    ensures |r.Ids()| > 1 || |touched| > 1 <==> |e.identifiers| > 1
  {
    ReownedIs(index0, IdSet(e), touched, key, index);
    TouchedSize(index0, r.Ids());
  }

  /** Recording e in the joined window, or in a fresh one, gives the windows after filing. */
  lemma WindowsAre(s: State, now: int, e: Event, touched: set<string>, key: string, joined: map<string, WindowView>)
    requires Filing(s, e, touched, key)
    requires if touched == {} then joined == s.windows
             else key in touched && Joined(s.windows, joined, key, touched - {key})
    ensures Added(joined, key, e, now) == FileFirst(s, now).windows
  {
    KeyFacts(s, e, touched, key);
    PendingApart(s, e, touched, key);
    if touched == {} {
      assert s.windows - {} == s.windows;
    } else {
      assert touched - {key} + {key} == touched;
      forall f | f in joined[key].events
        ensures f.eventID != e.eventID
      {
        var k :| k in touched && k in s.windows && f in s.windows[k].events;
      }
      assert Recorded(joined[key], e, now) == Joint(s.index, s.windows, e, now);
      assert Added(joined, key, e, now) == (s.windows - touched)[key := Joint(s.index, s.windows, e, now)];
    }
  }

  /** What merging the existing windows into key leaves behind. */
  ghost predicate Gathered(
    index0: map<string, string>, marks0: set<string>, before: map<string, WindowView>, existing: set<string>,
    key: string, index: map<string, string>, marks: set<string>, windows: map<string, WindowView>)
    requires existing <= before.Keys
  {
    && index == Repointed(index0, existing - {key}, key)
    && marks == Remarked(marks0, existing - {key}, key)
    && if existing == {} then windows == before
       else key in existing && Joined(before, windows, key, existing - {key})
  }

  lemma GatheredNone(index: map<string, string>, marks: set<string>, windows: map<string, WindowView>, key: string)
    ensures Gathered(index, marks, windows, {}, key, index, marks, windows)
  {
    assert {} - {key} == {};
    assert Repointed(index, {}, key) == index;
  }

  lemma GatheredOne(index: map<string, string>, marks: set<string>, windows: map<string, WindowView>, key: string)
    requires key in windows
    ensures Gathered(index, marks, windows, {key}, key, index, marks, windows)
    ensures Joined(windows, windows, key, {}) && Repointed(index, {}, key) == index && Remarked(marks, {}, key) == marks
  {
    assert {key} - {key} == {};
    assert Repointed(index, {}, key) == index;
    UnionOne(windows, key);
  }

  /** The windows in `done` have been folded into key, in the window and in both indices. */
  ghost predicate Folded(
    before: map<string, WindowView>, index0: map<string, string>, marks0: set<string>, key: string, done: set<string>,
    windows: map<string, WindowView>, index: map<string, string>, owners: map<string, set<string>>, marks: set<string>)
    requires key in before && done <= before.Keys
  {
    && Inverse(owners, index) && owners.Keys == before.Keys - done
    && index == Repointed(index0, done, key)
    && marks == Remarked(marks0, done, key)
    && Joined(before, windows, key, done)
  }

  lemma FoldMore(
    before: map<string, WindowView>, index0: map<string, string>, marks0: set<string>, key: string, done: set<string>,
    index: map<string, string>, marks: set<string>, k: string)
    requires key !in done && index == Repointed(index0, done, key) && marks == Remarked(marks0, done, key)
    requires k != key
    ensures Repointed(index, {k}, key) == Repointed(index0, done + {k}, key)
    ensures Remarked(marks, {k}, key) == Remarked(marks0, done + {k}, key)
    ensures before.Keys - done - {k} == before.Keys - (done + {k})
  {
    RepointMore(index0, done, k, key);
    RemarkMore(marks0, done, k, key);
  }

  lemma MarksAre(s: State, now: int, e: Event, touched: set<string>, key: string, marks: set<string>)
    requires Filing(s, e, touched, key) && marks == Remarked(s.bridged, touched - {key}, key)
    requires touched == {} || key in touched
    ensures FileFirst(s, now).bridged == if |e.identifiers| > 1 then marks + {key} else marks
  {
    KeyFacts(s, e, touched, key);
    FileFirstKeeps(s, now);
    var t := FileFirst(s, now);
    forall k
      ensures k in t.bridged <==> k in if |e.identifiers| > 1 then marks + {key} else marks
    {
      if touched == {} {
        assert key !in s.bridged;
      }
    }
  }

  /** Gathering, then recording the event and handing its identifiers over, is filing. */
  lemma FiledIs(
    s: State, now: int, e: Event, touched: set<string>, key: string, windows: map<string, WindowView>,
    index: map<string, string>, marks: set<string>)
    requires Filing(s, e, touched, key)
    requires Gathered(s.index, s.bridged, s.windows, touched, key, index, marks, windows)
    ensures FileFirst(s, now).windows == Added(windows, key, e, now)
    ensures FileFirst(s, now).index == Handed(index, IdSet(e), key)
    ensures FileFirst(s, now).bridged == if |e.identifiers| > 1 then marks + {key} else marks
    ensures FileFirst(s, now).events == s.events
  {
    WindowsAre(s, now, e, touched, key, windows);
    ReindexedIs(s, e, touched, key);
    MarksAre(s, now, e, touched, key, marks);
  }

  lemma FirstIsPending(s: State, now: int)
    requires Invariant(s) && s.records != []
    ensures Invariant(FileFirst(s, now))
    ensures var r, t := s.records[0], FileFirst(s, now);
      && r.eventID in s.events && r == RecordOf(s.events[r.eventID])
      && t.events == s.events && t.records == s.records[1..]
      && (r.identifiers == [] ==> t.index == s.index && t.windows == s.windows && t.bridged == s.bridged)
  {
    assert Pending(s, s.records[0]);
    FileFirstKeeps(s, now);
  }

  lemma FirstTouches(s: State, e: Event) returns (touched: set<string>, key: string)
    requires Invariant(s) && s.records != [] && s.records[0].identifiers != []
    requires s.records[0].eventID in s.events && e == s.events[s.records[0].eventID]
    ensures Filing(s, e, touched, key)
    ensures IDsApart(s.windows) && "" !in touched
  {
    var f;
    f, touched, key := FilingParts(s);
    PendingApart(s, e, touched, key);
  }

  ghost predicate Releasing(s: State, owners0: map<string, set<string>>, ks: seq<string>) {
    && Invariant(s) && Inverse(owners0, s.index) && owners0.Keys == s.windows.Keys
    && Ascending(ks) && AsSet(ks) <= s.windows.Keys
  }

  /** f is the flow window k becomes. */
  ghost predicate IsFlow(s: State, k: string, tenant: string, expected: seq<Layer>, now: int, f: Flow) {
    k in s.windows && f.correlationKey == k && ClosedFlow(s, k, tenant, expected, now) == Some(f)
  }

  /** The first i of the flows the windows ks become. */
  ghost predicate FlowsFor(
    s: State, ks: seq<string>, i: nat, flows: seq<Flow>, tenant: string, expected: seq<Layer>, now: int)
  {
    && |flows| == i <= |ks|
    && forall j {:trigger flows[j]} {:trigger ks[j]} | 0 <= j < i ::
         IsFlow(s, ks[j], tenant, expected, now, flows[j])
  }

  lemma FlowsMore(
    s: State, ks: seq<string>, i: nat, before: seq<Flow>, f: Flow, tenant: string, expected: seq<Layer>, now: int)
    requires i < |ks| && FlowsFor(s, ks, i, before, tenant, expected, now)
    requires IsFlow(s, ks[i], tenant, expected, now, f)
    ensures FlowsFor(s, ks, i + 1, before + [f], tenant, expected, now)
  {
    hide IsFlow;
  }

  lemma ForgetMore(
    s: State, owners0: map<string, set<string>>, ks: seq<string>, i: nat, gone: seq<Event>,
    events: map<string, Event>, bridged: set<string>, index: map<string, string>, owners: map<string, set<string>>)
    requires Releasing(s, owners0, ks) && i < |ks| && ks[i] in s.windows
    requires DistinctIDs(gone) && EventSet(gone) == s.windows[ks[i]].events
    requires Forgotten(s, owners0, AsSet(ks[..i]), events, bridged, index, owners)
    ensures var k := ks[i];
      && k in owners && (k in bridged <==> k in s.bridged)
      && Forgotten(s, owners0, AsSet(ks[..i + 1]), events - IDs(gone), bridged - {k}, index - owners[k], owners - {k})
  {
    AscendingNew(ks, i);
    AsSetSnoc(ks, i);
    ReleaseMore(s, owners0, AsSet(ks[..i]), ks[i], gone);
  }

  lemma CloseStep(
    s: State, owners0: map<string, set<string>>, ks: seq<string>, i: nat, gone: seq<Event>, before: seq<Flow>,
    made: Option<Flow>, events: map<string, Event>, bridged: set<string>, index: map<string, string>,
    owners: map<string, set<string>>, tenant: string, expected: seq<Layer>, now: int)
    returns (f: Flow)
    requires Releasing(s, owners0, ks) && i < |ks| && ks[i] in s.windows
    requires DistinctIDs(gone) && gone != [] && EventSet(gone) == s.windows[ks[i]].events
    requires Forgotten(s, owners0, AsSet(ks[..i]), events, bridged, index, owners)
    requires FlowsFor(s, ks, i, before, tenant, expected, now)
    requires made == Materialized(ks[i], gone, Options(tenant, expected, MethodFor(ks[i]), ks[i] in bridged, true, now))
    ensures made == Some(f) && f.correlationKey == ks[i] && !f.amended
    ensures FlowsFor(s, ks, i + 1, before + [f], tenant, expected, now)
    ensures var k := ks[i];
      && k in owners
      && Forgotten(s, owners0, AsSet(ks[..i + 1]), events - IDs(gone), bridged - {k}, index - owners[k], owners - {k})
  {
    f := made.value;
    ForgetMore(s, owners0, ks, i, gone, events, bridged, index, owners);
    FlowOfView(s, ks[i], gone, tenant, expected, now);
    FlowsMore(s, ks, i, before, f, tenant, expected, now);
  }

  lemma DueListed(s: State, owners0: map<string, set<string>>, ks: seq<string>, now: int, limits: Limits)
    requires Invariant(s) && Inverse(owners0, s.index) && owners0.Keys == s.windows.Keys
    requires Ascending(ks) && AsSet(ks) == DueIn(s.windows, now, limits)
    ensures Releasing(s, owners0, ks)
    ensures Forgotten(s, owners0, {}, s.events, s.bridged, s.index, owners0)
    ensures AsSet(ks) == DueKeys(s, now, limits) == DueIn(s.windows, now, limits)
  {
    ForgottenNone(s, owners0);
  }

  lemma FlushDone(
    s: State, owners0: map<string, set<string>>, ks: seq<string>, now: int, limits: Limits, events: map<string, Event>,
    bridged: set<string>, index: map<string, string>, owners: map<string, set<string>>, flows: seq<Flow>,
    tenant: string, expected: seq<Layer>)
    requires Releasing(s, owners0, ks) && AsSet(ks) == DueKeys(s, now, limits) == DueIn(s.windows, now, limits)
    requires Forgotten(s, owners0, AsSet(ks), events, bridged, index, owners)
    requires FlowsFor(s, ks, |ks|, flows, tenant, expected, now)
    ensures var t := Correlation.Flush(s, now, limits);
      && Invariant(t) && t.events == events && t.bridged == bridged && t.index == index
      && t.windows == s.windows - DueIn(s.windows, now, limits) && t.records == s.records
      && owners.Keys == t.windows.Keys
    ensures Inverse(owners, index)
    ensures FlowsOf(s, DueKeys(s, now, limits), flows, tenant, expected, now)
  {
    FlushKeeps(s, now, limits);
    forall k | k in AsSet(ks)
      ensures exists i | 0 <= i < |flows| :: flows[i].correlationKey == k
    {
      var i :| 0 <= i < |ks| && ks[i] == k;
      assert IsFlow(s, ks[i], tenant, expected, now, flows[i]);
    }
  }

  method ParseRecord(e: Event) returns (r: Record)
    ensures r == RecordOf(e)
  {
    var ids := [];
    for i := 0 to |e.identifiers|
      invariant ids == ParseAll(e.identifiers)[..i]
    {
      var id := ParseIdentifier(e.identifiers[i]);
      ids := ids + [id];
    }
    assert ids == ParseAll(e.identifiers);
    r := Record(e.eventID, e.provider, ids);
  }

  /** The window keys the identifiers already belong to. */
  method Existing(index: map<string, string>, ids: seq<string>) returns (existing: set<string>)
    ensures existing == Touched(index, AsSet(ids))
  {
    existing := {};
    for i := 0 to |ids|
      invariant existing == Touched(index, AsSet(ids[..i]))
    {
      AsSetSnoc(ids, i);
      if ids[i] in index {
        existing := existing + {index[ids[i]]};
      }
    }
    assert ids[..|ids|] == ids;
  }

  lemma OnlyOne(s: set<string>, x: string)
    requires |s| == 1 && x in s
    ensures s == {x}
  {
    assert |s - {x}| == 0;
  }

  /** A new request's key: its own smallest identifier. */
  method FreshKey(r: Record) returns (key: string)
    requires AsSet(r.Ids()) != {}
    ensures key == Smallest(AsSet(r.Ids()))
  {
    var ok;
    key, ok := Canonical(r.identifiers);
    if !ok {
      assert false;
    }
    SmallestUnique(AsSet(r.Ids()), key);
  }

  /** The smallest of a set of window keys. Window keys are never empty strings. */
  method CanonicalOf(keys: set<string>) returns (chosen: string)
    ensures keys != {} && "" !in keys ==> chosen == Smallest(keys)
  {
    chosen := "";
    var rest := keys;
    while rest != {}
      invariant rest <= keys
      invariant "" !in keys ==>
        || (rest == keys && chosen == "")
        || (chosen in keys && forall k | k in keys && k !in rest :: AtMost(chosen, k))
    {
      var k :| k in rest;
      rest := rest - {k};
      if chosen == "" || Less(k, chosen) {
        if chosen != "" && "" !in keys {
          forall l | l in keys && l !in rest
            ensures AtMost(k, l)
          {
            AtMostOrders(k, chosen, l);
          }
        }
        chosen := k;
      } else {
        AtMostOrders(chosen, k, k);
      }
    }
    if keys != {} && "" !in keys {
      SmallestUnique(keys, chosen);
    }
  }

  /** Moves src's identifiers and mark to dst. */
  method MergeKeyState(
     index0: map<string, string>, owners0: map<string, set<string>>, marks0: set<string>, dst: string, src: string)
    returns (index: map<string, string>, owners: map<string, set<string>>, marks: set<string>)
    requires Inverse(owners0, index0) && src in owners0 && dst in owners0 && dst != src
    ensures Inverse(owners, index) && owners.Keys == owners0.Keys - {src}
    ensures index == Repointed(index0, {src}, dst)
    ensures marks == Remarked(marks0, {src}, dst)
  {
    var moving := owners0[src];
    var rest, own := moving, owners0[dst];
    index := index0;
    while rest != {}
      invariant rest <= moving && own + rest == owners0[dst] + moving
      invariant index == Handed(index0, moving - rest, dst)
    {
      var s :| s in rest;
      HandSnoc(index0, moving - rest, s, dst);
      assert moving - (rest - {s}) == moving - rest + {s};
      rest, index, own := rest - {s}, index[s := dst], own + {s};
    }
    assert moving - {} == moving && own + {} == own;
    RepointInverse(index0, owners0, dst, src);
    owners := owners0[dst := own] - {src};
    marks := marks0;
    if src in marks {
      marks := marks + {dst};
    }
    marks := marks - {src};
  }

  /** Maps the identifiers to key, in both indices. */
  method Own(index0: map<string, string>, owners0: map<string, set<string>>, key: string, ids: seq<string>)
    returns (index: map<string, string>, owners: map<string, set<string>>)
    requires Inverse(owners0, index0)
    requires forall x | x in ids && x in index0 :: index0[x] == key
    ensures Inverse(owners, index) && owners.Keys == owners0.Keys + {key}
    ensures index == Handed(index0, AsSet(ids), key)
  {
    index := index0;
    var own: set<string> := if key in owners0 then owners0[key] else {};
    ghost var had := own;
    for i := 0 to |ids|
      invariant own == had + AsSet(ids[..i])
      invariant index == Handed(index0, AsSet(ids[..i]), key)
    {
      AsSetSnoc(ids, i);
      HandSnoc(index0, AsSet(ids[..i]), ids[i], key);
      index, own := index[ids[i] := key], own + {ids[i]};
    }
    assert ids[..|ids|] == ids;
    HandInverse(index0, owners0, key, AsSet(ids));
    owners := owners0[key := own];
  }

  method MergeWindow(
    window: Window, key: string, k: string, ghost before: map<string, WindowView>, ghost done: set<string>)
    requires window.Valid() && key in before && done <= before.Keys && key !in done
    requires Joined(before, window.view, key, done) && IDsApart(before)
    requires k in before && k != key && k !in done
    modifies window`states, window`view, window.owned
    ensures window.Valid() && Joined(before, window.view, key, done + {k})
  {
    JoinOne(before, window.view, key, done, k);
    window.Merge(key, k);
  }

  method FoldOne(
    window: Window, key: string, k: string, index1: map<string, string>, owners1: map<string, set<string>>,
    marks1: set<string>, ghost before: map<string, WindowView>, ghost index0: map<string, string>,
    ghost marks0: set<string>, ghost done: set<string>)
    returns (index: map<string, string>, owners: map<string, set<string>>, marks: set<string>)
    requires window.Valid() && IDsApart(before) && key in before && done <= before.Keys && key !in done
    requires Folded(before, index0, marks0, key, done, window.view, index1, owners1, marks1)
    requires k in before && k != key && k !in done
    modifies window`states, window`view, window.owned
    ensures window.Valid() && Folded(before, index0, marks0, key, done + {k}, window.view, index, owners, marks)
  {
    MergeWindow(window, key, k, before, done);
    index, owners, marks := MergeKeyState(index1, owners1, marks1, key, k);
    FoldMore(before, index0, marks0, key, done, index1, marks1, k);
  }

  lemma FoldNone(
    before: map<string, WindowView>, index: map<string, string>, marks: set<string>, key: string, owners: map<string,
    set<string>>, existing: set<string>)
    requires key in before && Inverse(owners, index) && owners.Keys == before.Keys
    ensures Folded(before, index, marks, key, existing - existing - {key}, before, index, owners, marks)
  {
    GatheredOne(index, marks, before, key);
    assert existing - existing - {key} == {};
  }

  /** Folds one of the windows still to be folded, unless it is key itself. */
  method FoldNext(
    window: Window, key: string, existing: set<string>, rest0: set<string>, index1: map<string, string>,
    owners1: map<string, set<string>>, marks1: set<string>, ghost before: map<string, WindowView>,
    ghost index0: map<string, string>, ghost marks0: set<string>)
    returns (rest: set<string>, index: map<string, string>, owners: map<string, set<string>>, marks: set<string>)
    requires window.Valid() && IDsApart(before) && key in before && existing <= before.Keys
    requires {} != rest0 <= existing
    requires Folded(before, index0, marks0, key, existing - rest0 - {key}, window.view, index1, owners1, marks1)
    modifies window`states, window`view, window.owned
    ensures rest < rest0 && window.Valid()
    ensures Folded(before, index0, marks0, key, existing - rest - {key}, window.view, index, owners, marks)
  {
    var k :| k in rest0;
    rest, index, owners, marks := rest0 - {k}, index1, owners1, marks1;
    ghost var done := existing - rest0 - {key};
    assert existing - rest - {key} == if k == key then done else done + {k};
    if k != key {
      index, owners, marks := FoldOne(window, key, k, index1, owners1, marks1, before, index0, marks0, done);
    }
  }

  lemma FoldedAll(
    before: map<string, WindowView>, index0: map<string, string>, marks0: set<string>, key: string,
    existing: set<string>, windows: map<string, WindowView>, index: map<string, string>, owners: map<string,
    set<string>>, marks: set<string>)
    requires key in existing && existing <= before.Keys
    requires Folded(before, index0, marks0, key, existing - {} - {key}, windows, index, owners, marks)
    ensures Inverse(owners, index) && owners.Keys == windows.Keys
    ensures Gathered(index0, marks0, before, existing, key, index, marks, windows)
  {
    assert existing - {} - {key} == existing - {key};
  }

  /** Folds every other existing window into key, in any order. */
  method MergeAll(
    window: Window, key: string, existing: set<string>, index0: map<string, string>, owners0: map<string, set<string>>,
    marks0: set<string>)
    returns (index: map<string, string>, owners: map<string, set<string>>, marks: set<string>)
    requires window.Valid() && Inverse(owners0, index0) && owners0.Keys == window.view.Keys
    requires existing <= owners0.Keys && key in existing && IDsApart(window.view)
    modifies window`states, window`view, window.owned
    ensures window.Valid() && Inverse(owners, index) && owners.Keys == window.view.Keys
    ensures Gathered(index0, marks0, old(window.view), existing, key, index, marks, window.view)
  {
    ghost var before := window.view;
    FoldNone(before, index0, marks0, key, owners0, existing);
    index, owners, marks := index0, owners0, marks0;
    var rest := existing;
    while rest != {}
      invariant rest <= existing && window.Valid()
      invariant Folded(before, index0, marks0, key, existing - rest - {key}, window.view, index, owners, marks)
    {
      rest, index, owners, marks := FoldNext(window, key, existing, rest, index, owners, marks, before, index0, marks0);
    }
    FoldedAll(before, index0, marks0, key, existing, window.view, index, owners, marks);
  }

  /** Decides the record's window, merging when it bridges several. */
  method ChooseWindow(
    window: Window, r: Record, existing: set<string>, index0: map<string, string>, owners0: map<string, set<string>>,
    marks0: set<string>)
    returns (key: string, index: map<string, string>, owners: map<string, set<string>>, marks: set<string>)
    requires window.Valid() && Inverse(owners0, index0) && owners0.Keys == window.view.Keys
    requires AsSet(r.Ids()) != {}
    requires existing == Touched(index0, AsSet(r.Ids())) && existing <= owners0.Keys && "" !in existing
    requires IDsApart(window.view)
    modifies window`states, window`view, window.owned
    ensures window.Valid() && Inverse(owners, index) && owners.Keys == window.view.Keys
    ensures key == KeyFor(index0, AsSet(r.Ids()))
    ensures Gathered(index0, marks0, old(window.view), existing, key, index, marks, window.view)
  {
    index, owners, marks := index0, owners0, marks0;
    if |existing| == 0 {
      key := FreshKey(r);
      GatheredNone(index, marks, window.view, key);
    } else if |existing| == 1 {
      key :| key in existing;
      OnlyOne(existing, key);
      SmallestUnique(existing, key);
      GatheredOne(index, marks, window.view, key);
    } else {
      key := CanonicalOf(existing);
      index, owners, marks := MergeAll(window, key, existing, index0, owners0, marks0);
    }
  }

  lemma ClosedParts(st: FlowState, view: WindowView, key: string, now: int)
    requires Closed(st, view, key, now)
    ensures st.correlationKey == key && !st.amended
    ensures DistinctIDs(st.events) && st.events != [] && EventSet(st.events) == view.events
  {
  }

  lemma AddedKeys(w: map<string, WindowView>, key: string, e: Event, now: int)
    ensures Added(w, key, e, now).Keys == w.Keys + {key}
  {
  }

  class Pipeline {
    const window: Window
    const tenant: string
    const expectedLayers: seq<Layer>
    var events: map<string, Event>
    var records: seq<Record>
    var bridged: set<string>
    var idIndex: map<string, string>
    var keyIDs: map<string, set<string>>
    /** The same as one value; while Correlate runs, with only the records still to be filed. */
    ghost var state: State

    /** The two indices are inverse and name exactly the open windows. */
    ghost predicate Linked()
      reads this`idIndex, this`keyIDs, window, window.owned
    {
      window.Valid() && Inverse(keyIDs, idIndex) && keyIDs.Keys == window.view.Keys
    }

    ghost predicate Shows(s: State)
      reads this`events, this`bridged, this`idIndex, window`view
    {
      s.events == events && s.bridged == bridged && s.index == idIndex && s.windows == window.view
    }

    ghost predicate Sound()
      reads this, window, window.owned
    {
      Linked() && Shows(state) && Invariant(state)
    }

    ghost predicate Valid()
      reads this, window, window.owned
    {
      Sound() && state.records == records
    }

    // The methods that only put others together hide all function bodies; these lemmas say what they need of them.

    lemma Apart()
      requires Valid()
      ensures window.Valid() && Inverse(keyIDs, idIndex) && keyIDs.Keys == window.view.Keys
      ensures Invariant(state) && state == State(events, records, bridged, idIndex, window.view)
    {
    }

    lemma Whole()
      requires window.Valid() && Inverse(keyIDs, idIndex) && keyIDs.Keys == window.view.Keys
      requires Invariant(state) && state == State(events, records, bridged, idIndex, window.view)
      ensures Valid()
    {
    }

    lemma Links()
      requires window.Valid() && Inverse(keyIDs, idIndex) && keyIDs.Keys == window.view.Keys
      ensures Linked()
    {
    }

    constructor (w: Window, tenant: string, expectedLayers: seq<Layer>)
      requires w.Valid() && w.states == map[]
      ensures Valid() && state == EMPTY && window == w
    {
      window, this.tenant, this.expectedLayers := w, tenant, expectedLayers;
      events, records, bridged, idIndex, keyIDs := map[], [], {}, map[], map[];
      state := EMPTY;
    }

    /** Records an event for later grouping; a redelivered one is ignored. */
    method Accumulate(e: Event)
      requires Valid()
      modifies this`events, this`records, this`state
      ensures Valid() && state == AcceptEvent(old(state), e)
    {
      if e.eventID in events {
        return;
      }
      AcceptKeeps(state, e);
      state := AcceptEvent(state, e);
      var r := ParseRecord(e);
      events, records := events[e.eventID := e], records + [r];
    }

    /** Adds the event to its window and hands the window its identifiers. */
    method Attach(key: string, e: Event, ids: seq<string>, several: bool, now: int,
                  index: map<string, string>, owners: map<string, set<string>>, marks: set<string>)
      requires window.Valid() && Inverse(owners, index) && owners.Keys == window.view.Keys
      requires forall x | x in ids && x in index :: index[x] == key
      modifies this`idIndex, this`keyIDs, this`bridged, window, window.owned
      ensures Linked() && fresh(window.owned - old(window.owned))
      ensures window.view == Added(old(window.view), key, e, now)
      ensures idIndex == Handed(index, AsSet(ids), key)
      ensures bridged == if several then marks + {key} else marks
    {
      hide *;
      AddedKeys(window.view, key, e, now);
      idIndex, keyIDs := Own(index, owners, key, ids);
      bridged := if several then marks + {key} else marks;
      window.Add(key, e, now);
      Links();
    }

    /** The record's event joins its window; the indices follow. The ghost results are what
        gathering the existing windows left, before the event was added. */
    method FileIdentified(r: Record, e: Event, now: int, ghost touched: set<string>)
      returns (ghost key: string, ghost windows: map<string, WindowView>, ghost index: map<string, string>,
               ghost marks: set<string>)
      requires Linked() && IDsApart(window.view)
      requires r == RecordOf(e) && IdSet(e) != {}
      requires touched == Touched(idIndex, IdSet(e)) && touched <= window.view.Keys && "" !in touched
      modifies this`idIndex, this`keyIDs, this`bridged, window, window.owned
      ensures Linked() && fresh(window.owned - old(window.owned))
      ensures key == KeyFor(old(idIndex), IdSet(e))
      ensures Gathered(old(idIndex), old(bridged), old(window.view), touched, key, index, marks, windows)
      ensures window.view == Added(windows, key, e, now)
      ensures idIndex == Handed(index, IdSet(e), key)
      ensures bridged == if |e.identifiers| > 1 then marks + {key} else marks
    {
      var ids := r.Ids();
      var existing := Existing(idIndex, ids);
      var k, joined, owners, marked := ChooseWindow(window, r, existing, idIndex, keyIDs, bridged);
      key, windows, index, marks := k, window.view, joined, marked;
      Attaching(idIndex, r, e, touched, k, joined);
      Attach(k, e, ids, |ids| > 1 || |existing| > 1, now, joined, owners, marked);
    }

    /** Files the first pending record, given its event. */
    method FileEvent(r: Record, e: Event, now: int, ghost s: State)
      requires Linked() && Shows(s) && Invariant(s) && s.records != [] && s.records[0] == r && r.identifiers != []
      requires r.eventID in s.events && e == s.events[r.eventID] && r == RecordOf(e)
      modifies this`idIndex, this`keyIDs, this`bridged, window, window.owned
      ensures Linked() && fresh(window.owned - old(window.owned))
      ensures Shows(FileFirst(s, now))
    {
      ghost var touched, _ := FirstTouches(s, e);
      ghost var key, windows, index, marks := FileIdentified(r, e, now, touched);
      FiledIs(s, now, e, touched, key, windows, index, marks);
    }

    ghost method Advance(now: int)
      requires Linked() && state.records != [] && Invariant(state) && Invariant(FileFirst(state, now))
      requires Shows(FileFirst(state, now))
      modifies this`state
      ensures Sound() && state == FileFirst(old(state), now)
    {
      state := FileFirst(state, now);
    }

    /** Files one record, the first of those to be filed. */
    method FileRecord(r: Record, now: int)
      requires Sound() && state.records != [] && state.records[0] == r
      modifies this`idIndex, this`keyIDs, this`bridged, this`state, window, window.owned
      ensures Sound() && fresh(window.owned - old(window.owned))
      ensures state == FileFirst(old(state), now)
    {
      FirstIsPending(state, now);
      if |r.identifiers| == 0 || r.eventID !in events {
        Advance(now);
        return;
      }
      FileEvent(r, events[r.eventID], now, state);
      Advance(now);
    }

    /** Files every pending record, in order, and forgets the records. */
    method Correlate(now: int)
      requires Valid()
      modifies this, window, window.owned
      ensures Valid() && fresh(window.owned - old(window.owned))
      ensures state == Correlation.Correlate(old(state), now)
    {
      ghost var goal := Correlation.Correlate(state, now);
      for i := 0 to |records|
        modifies this`idIndex, this`keyIDs, this`bridged, this`state, window, window.owned
        invariant fresh(window.owned - old(window.owned))
        invariant Sound() && state.records == records[i..]
        invariant Correlation.Correlate(state, now) == goal
      {
        CorrelateStep(state, now);
        FileRecord(records[i], now);
      }
      records := [];
    }

    /** Turns one closed state into its flow and drops its events, mark and identifiers. */
    method Close(
      st: FlowState, before: seq<Flow>, now: int, ghost s: State, ghost owners0: map<string, set<string>>,
      ghost ks: seq<string>, ghost i: nat)
      returns (flows: seq<Flow>)
      requires Releasing(s, owners0, ks) && i < |ks| && ks[i] in s.windows
      requires Closed(st, s.windows[ks[i]], ks[i], now)
      requires Forgotten(s, owners0, AsSet(ks[..i]), events, bridged, idIndex, keyIDs)
      requires FlowsFor(s, ks, i, before, tenant, expectedLayers, now)
      modifies this`events, this`bridged, this`idIndex, this`keyIDs
      ensures Forgotten(s, owners0, AsSet(ks[..i + 1]), events, bridged, idIndex, keyIDs)
      ensures FlowsFor(s, ks, i + 1, flows, tenant, expectedLayers, now)
    {
      hide *;
      ClosedParts(st, s.windows[ks[i]], ks[i], now);
      var key := st.correlationKey;
      var o := Options(tenant, expectedLayers, MethodFor(key), key in bridged, true, now);
      var made := Materialize(key, st.events, o);
      var f := CloseStep(s, owners0, ks, i, st.events, before, made, events, bridged, idIndex, keyIDs,
                         tenant, expectedLayers, now);
      flows := before + [made.value.(amended := st.amended, correlationKey := key)];
      events := DropEvents(events, st.events);
      bridged := bridged - {key};
      idIndex := DropIdentifiers(idIndex, if key in keyIDs then keyIDs[key] else {});
      keyIDs := keyIDs - {key};
    }

    method CloseReady(
      ready: seq<FlowState>, now: int, ghost s: State, ghost owners0: map<string, set<string>>, ghost ks: seq<string>)
      returns (flows: seq<Flow>)
      requires Releasing(s, owners0, ks) && Taken(ready, s.windows, ks, now)
      requires Forgotten(s, owners0, {}, events, bridged, idIndex, keyIDs)
      modifies this`events, this`bridged, this`idIndex, this`keyIDs
      ensures Forgotten(s, owners0, AsSet(ks), events, bridged, idIndex, keyIDs)
      ensures FlowsFor(s, ks, |ks|, flows, tenant, expectedLayers, now)
    {
      flows := [];
      for i := 0 to |ready|
        invariant Forgotten(s, owners0, AsSet(ks[..i]), events, bridged, idIndex, keyIDs)
        invariant FlowsFor(s, ks, i, flows, tenant, expectedLayers, now)
      {
        flows := Close(ready[i], flows, now, s, owners0, ks, i);
      }
      assert ks[..|ks|] == ks;
    }

    /** Closes every due window: its flow, in key order, and nothing of it left behind. */
    method Flush(now: int) returns (flows: seq<Flow>)
      requires Valid()
      modifies this, window`states, window`view, window.owned`closed, window.owned`closedAt
      ensures Valid() && state == Correlation.Flush(old(state), now, window.limits)
      ensures FlowsOf(old(state), DueKeys(old(state), now, window.limits), flows, tenant, expectedLayers, now)
    {
      hide *;
      Apart();
      ghost var s, owners0 := state, keyIDs;
      ghost var ks;
      var ready;
      ready, ks := window.Ready(now);
      DueListed(s, owners0, ks, now, window.limits);
      flows := CloseReady(ready, now, s, owners0, ks);
      FlushDone(s, owners0, ks, now, window.limits, events, bridged, idIndex, keyIDs, flows, tenant, expectedLayers);
      state := Correlation.Flush(s, now, window.limits);
      Whole();
    }
  }
}
