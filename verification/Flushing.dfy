/** Closing windows: the flow each one becomes, and what the pipeline forgets about it. */
module Flushing {
  import opened Text
  import opened Sorting
  import opened Events
  import opened Identifiers
  import opened Materializing
  import opened Correlation
  import opened Windowing
  import FlowLaws

  const HEURISTIC_PREFIX := "heur:"

  function MethodFor(key: string): Tier {
    if HEURISTIC_PREFIX <= key then TierHeuristic else TierExact
  }

  /** A window named by an identifier gives a flow of the exact tier, unless the identifier's namespace is the one that
      marks a heuristic join. */
  lemma ExactUnlessHeuristic(key: string)
    ensures MethodFor(key) == if Parse(key).namespace == "heur" then TierHeuristic else TierExact
  {
    var i := Colon(key);
    if HEURISTIC_PREFIX <= key {
      assert key[..5] == HEURISTIC_PREFIX;
      assert key[4] == ':' && forall i | 0 <= i < 4 :: key[i] == HEURISTIC_PREFIX[i] != ':';
      FirstColon(key, 4);
      assert key[..4] == "heur";
    }
    if i < |key| && key[..i] == "heur" {
      assert i == 4 && key[..5] == key[..4] + [key[4]] == "heur" + ":";
    }
  }

  /** What a closed window becomes, whatever the order its events came in. */
  ghost function ClosedFlow(s: State, key: string, tenant: string, expected: seq<Layer>, now: int): Option<Flow>
    requires key in s.windows
  {
    Materialized(key, Listing(s.windows[key].events),
                 Options(tenant, expected, MethodFor(key), key in s.bridged, true, now))
  }

  lemma NotEmpty(s: State, key: string)
    requires Invariant(s) && key in s.windows
    ensures Listing(s.windows[key].events) != []
  {
    assert Carried(s, key);
  }

  /** What a flushed flow is: its window's events, each once, under the window's name, of the exact tier unless the
      name marks a heuristic join, marked as bridged exactly when one of the events carries several identifiers, and
      closed now. */
  lemma FlushedFlow(s: State, key: string, tenant: string, expected: seq<Layer>, now: int, f: Flow)
    requires Invariant(s) && key in s.windows && ClosedFlow(s, key, tenant, expected, now) == Some(f)
    ensures f.correlationKey == key && f.flowID == "flow:" + key && f.tenant == tenant
    ensures multiset(f.events) == multiset(s.windows[key].events)
    ensures f.tier == if Parse(key).namespace == "heur" then TierHeuristic else TierExact
    ensures f.bridged <==> exists e | e in s.windows[key].events :: |e.identifiers| > 1
    ensures f.closedAt == Some(now) && !f.amended
  {
    hide Materialized, Parse;
    var events := Listing(s.windows[key].events);
    var o := Options(tenant, expected, MethodFor(key), key in s.bridged, true, now);
    NotEmpty(s, key);
    FlowLaws.Labels(key, events, o);
    FlowLaws.EventsInOrder(key, events, o);
    ExactUnlessHeuristic(key);
  }

  /** One flow for each of the windows ks, in key order. */
  ghost predicate FlowsOf(s: State, ks: set<string>, flows: seq<Flow>, tenant: string, expected: seq<Layer>, now: int)
    requires ks <= s.windows.Keys
  {
    && (forall i | 0 <= i < |flows| ::
          && flows[i].correlationKey in ks
          && ClosedFlow(s, flows[i].correlationKey, tenant, expected, now) == Some(flows[i]))
    && (forall i, j | 0 <= i < j < |flows| :: Less(flows[i].correlationKey, flows[j].correlationKey))
    && forall k | k in ks :: exists i | 0 <= i < |flows| :: flows[i].correlationKey == k
  }

  /** The pipeline's maps once the windows in `done` are closed. */
  ghost predicate Forgotten(s: State, owners0: map<string, set<string>>, done: set<string>,
                            events: map<string, Event>, bridged: set<string>,
                            index: map<string, string>, owners: map<string, set<string>>)
  {
    var t := Release(s, done);
    events == t.events && bridged == t.bridged && index == t.index && owners == owners0 - done
  }

  lemma ForgottenNone(s: State, owners: map<string, set<string>>)
    ensures Forgotten(s, owners, {}, s.events, s.bridged, s.index, owners)
  {
    assert UnionOf(s.windows, {}) == {};
  }

  ghost function IDs(events: seq<Event>): set<string> {
    set e | e in events :: e.eventID
  }

  lemma {:induction false} ReleaseMore(
    s: State, owners0: map<string, set<string>>, done: set<string>, k: string, gone: seq<Event>)
    requires k in s.windows && k !in done && k in owners0 && EventSet(gone) == s.windows[k].events
    requires forall x :: x in owners0[k] <==> x in s.index && s.index[x] == k
    ensures var t, u := Release(s, done), Release(s, done + {k});
      && u.events == t.events - IDs(gone)
      && u.bridged == t.bridged - {k}
      && u.index == t.index - owners0[k]
      && owners0 - (done + {k}) == owners0 - done - {k}
  {
    var t, u := Release(s, done), Release(s, done + {k});
    assert UnionOf(s.windows, done + {k}) == UnionOf(s.windows, done) + EventSet(gone);
    assert forall id :: id in IDs(gone) <==> exists e | e in EventSet(gone) :: e.eventID == id;
    assert u.events == t.events - IDs(gone);
  }

  method DropEvents(events: map<string, Event>, gone: seq<Event>) returns (left: map<string, Event>)
    ensures left == events - IDs(gone)
  {
    left := events;
    for i := 0 to |gone|
      invariant left == events - IDs(gone[..i])
    {
      assert IDs(gone[..i + 1]) == IDs(gone[..i]) + {gone[i].eventID} by {
        assert gone[..i + 1] == gone[..i] + [gone[i]];
      }
      left := left - {gone[i].eventID};
    }
    assert gone[..|gone|] == gone;
  }

  method DropIdentifiers(index: map<string, string>, owned: set<string>) returns (left: map<string, string>)
    ensures left == index - owned
  {
    left := index;
    var rest := owned;
    while rest != {}
      invariant rest <= owned && left == index - (owned - rest)
    {
      var x :| x in rest;
      assert owned - (rest - {x}) == owned - rest + {x};
      rest, left := rest - {x}, left - {x};
    }
    assert owned - {} == owned;
  }

  lemma ListedOnce(events: seq<Event>, listed: seq<Event>)
    requires DistinctIDs(events) && multiset(listed) == multiset(EventSet(events))
    ensures multiset(events) == multiset(listed)
  {
    assert Distinct(events);
    forall e
      ensures multiset(events)[e] == multiset(listed)[e]
    {
      OccursOnce(events, e);
      assert e in multiset(events) <==> e in EventSet(events);
    }
  }

  /** A closed state's flow is the one its window's view determines. */
  lemma FlowOfView(s: State, key: string, events: seq<Event>, tenant: string, expected: seq<Layer>, now: int)
    requires key in s.windows && DistinctIDs(events) && EventSet(events) == s.windows[key].events
    ensures Materialized(key, events, Options(tenant, expected, MethodFor(key), key in s.bridged, true, now))
         == ClosedFlow(s, key, tenant, expected, now)
  {
    var listed := Listing(s.windows[key].events);
    ListedOnce(events, listed);
    var o := Options(tenant, expected, MethodFor(key), key in s.bridged, true, now);
    MaterializeForgetsArrival(key, events, listed, o);
  }

  /** Keys in ascending order do not repeat. */
  lemma AscendingNew(ks: seq<string>, i: nat)
    requires i < |ks| && Ascending(ks)
    ensures ks[i] !in ks[..i]
  {
    if ks[i] in ks[..i] {
      var j :| 0 <= j < i && ks[j] == ks[i];
      LessIrreflexive(ks[i]);
    }
  }
}
