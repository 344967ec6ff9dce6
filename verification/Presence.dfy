/** How often a parameter was there: what its two counters say of the requests to its endpoint. */
module Presence {
  import opened Parameters
  import opened Profiles
  import opened Truncation

  /** How many values of k these are. */
  function Count(found: seq<Found>, k: ParamKey): nat {
    if found == [] then 0
    else
      var n := |found| - 1;
      Count(found[..n], k) + if found[n].key == k then 1 else 0
  }

  function AtLeastOne(n: nat): nat {
    if n == 0 then 1 else n
  }

  lemma {:induction false} CountPositive(found: seq<Found>, k: ParamKey)
    ensures Count(found, k) > 0 <==> k in KeysOf(found)
  {
    if found != [] {
      var n := |found| - 1;
      CountPositive(found[..n], k);
      assert found == found[..n] + [found[n]];
    }
  }

  // ---- one request ----

  /** Values refused leave a parameter out for good, and those taken count. */
  ghost predicate Recorded(
    before: map<ParamKey, Param>, after: map<ParamKey, Param>, recorded: set<ParamKey>, n: nat, cap: int, k: ParamKey)
  {
    && (k in after <==> k in before || k in recorded)
    && (k in recorded <==> n > 0 && k in after)
    && (n > 0 && k !in after ==> |after| >= cap)
    && (k !in before && |before| >= cap ==> k !in after) && |before| <= |after|
    && (k in before ==>
          && after[k].present == before[k].present + n
          && after[k].observations == before[k].observations + n)
    && (k !in before && k in after ==> after[k].present == n == after[k].observations)
  }

  lemma AddedSize(params: map<ParamKey, Param>, k: ParamKey, p: Param)
    ensures |params| <= |params[k := p]|
  {
    assert params[k := p].Keys == params.Keys + {k};
    assert |params[k := p].Keys| == |params.Keys + {k}|;
    Sets.Larger(params.Keys, params.Keys + {k});
  }

  lemma {:induction false} FoundRecorded(
    r: Rules, params: map<ParamKey, Param>, found: seq<Found>, at: int, cap: int, k: ParamKey)
    ensures var next := AddFound(r, params, found, at, cap);
      Recorded(params, next.0, next.1, Count(found, k), cap, k)
  {
    if found != [] {
      hide Enumerated;
      var n := |found| - 1;
      var f := found[n];
      FoundRecorded(r, params, found[..n], at, cap, k);
      var before := AddFound(r, params, found[..n], at, cap).0;
      AddedSize(before, f.key, if f.key in before then Observed(r, before[f.key], f.value, at)
                               else Observed(r, Fresh(f.value, at), f.value, at));
    }
  }

  /** What one request does to a parameter's counters: each of its values counts in both, and a request without it
      counts in the observations; a parameter first seen there counts its values only. */
  lemma TouchedCounters(r: Rules, caps: Caps, p: Profile, q: Sample, k: ParamKey)
    ensures var after := Touched(r, caps, p, q).params; var n := Count(q.found, k);
      && (k in p.params ==>
            && k in after && after[k].present == p.params[k].present + n
            && after[k].observations == p.params[k].observations + AtLeastOne(n))
      && (k !in p.params && k in after ==> n > 0 && after[k].present == n == after[k].observations)
      && (n > 0 && k !in after ==> |after| >= caps.params)
      && (k !in p.params && |p.params| >= caps.params ==> k !in after) && |p.params| <= |after|
  {
    hide AddFound, AddNames, AddStatus, Ceilings, Named;
    FoundRecorded(r, p.params, q.found, q.at, caps.params, k);
    var next := AddFound(r, p.params, q.found, q.at, caps.params);
    var after := CountAbsent(next.0, next.1);
    assert after.Keys == next.0.Keys;
    assert |after| == |after.Keys| && |next.0| == |next.0.Keys|;
  }

  /** With room for them all no parameter is refused. */
  lemma NotRefused(r: Rules, caps: Caps, p: Profile, q: Sample, k: ParamKey)
    requires Count(q.found, k) > 0 && |p.params.Keys + KeysOf(q.found)| <= caps.params
    ensures k in Touched(r, caps, p, q).params
  {
    hide AddFound, AddNames, AddStatus, Ceilings, Named;
    CountPositive(q.found, k);
    TouchedCounters(r, caps, p, q, k);
    FoundKept(r, p.params, q.found, q.at, caps.params);
    var next := AddFound(r, p.params, q.found, q.at, caps.params);
    var after := Touched(r, caps, p, q).params;
    assert after.Keys == next.0.Keys && |after| == |after.Keys|;
    Sets.Smaller(after.Keys, p.params.Keys + KeysOf(q.found));
  }

  // ---- the requests of an endpoint ----

  /** An endpoint told these requests, at `at` the first. */
  function Story(r: Rules, caps: Caps, at: int, qs: seq<Sample>): Profile {
    if qs == [] then Blank(at) else Touched(r, caps, Story(r, caps, at, qs[..|qs| - 1]), qs[|qs| - 1])
  }

  predicate Carries(q: Sample, k: ParamKey) {
    exists f | f in q.found :: f.key == k
  }

  /** The requests that carried it. */
  ghost function Carriers(qs: seq<Sample>, k: ParamKey): set<nat> {
    set i | 0 <= i < |qs| && Carries(qs[i], k)
  }

  predicate SeenBy(qs: seq<Sample>, j: nat, k: ParamKey) {
    exists i | 0 <= i < |qs| :: i <= j && Carries(qs[i], k)
  }

  /** The requests since it was first seen. */
  ghost function Since(qs: seq<Sample>, k: ParamKey): set<nat> {
    set j | 0 <= j < |qs| && SeenBy(qs, j, k)
  }

  /** Its values beyond one a request. */
  function Surplus(qs: seq<Sample>, k: ParamKey): nat {
    if qs == [] then 0
    else
      var n := Count(qs[|qs| - 1].found, k);
      Surplus(qs[..|qs| - 1], k) + if n > 1 then n - 1 else 0
  }

  lemma CarriesCounts(q: Sample, k: ParamKey)
    ensures Carries(q, k) <==> Count(q.found, k) > 0
  {
    CountPositive(q.found, k);
  }

  lemma CarriersSnoc(qs: seq<Sample>, k: ParamKey)
    requires qs != []
    ensures var n := |qs| - 1;
      Carriers(qs, k) == Carriers(qs[..n], k) + if Carries(qs[n], k) then {n} else {}
    ensures var n := |qs| - 1;
      |Carriers(qs, k)| == |Carriers(qs[..n], k)| + if Carries(qs[n], k) then 1 else 0
  {
    hide Carries;
    var n := |qs| - 1;
    assert n !in Carriers(qs[..n], k);
  }

  lemma SeenEarlier(qs: seq<Sample>, j: nat, k: ParamKey)
    requires j + 1 < |qs|
    ensures SeenBy(qs[..|qs| - 1], j, k) <==> SeenBy(qs, j, k)
  {
    hide Carries;
    var before := qs[..|qs| - 1];
    if i :| 0 <= i < |qs| && i <= j && Carries(qs[i], k) {
      assert Carries(before[i], k);
    }
    if i :| 0 <= i < |before| && i <= j && Carries(before[i], k) {
      assert Carries(qs[i], k);
    }
  }

  lemma SeenByLast(qs: seq<Sample>, k: ParamKey)
    requires qs != []
    ensures SeenBy(qs, |qs| - 1, k) <==> Carriers(qs, k) != {}
  {
    hide Carries;
    if i :| 0 <= i < |qs| && Carries(qs[i], k) {
      assert i in Carriers(qs, k);
    }
    if i :| i in Carriers(qs, k) {
      assert Carries(qs[i], k);
    }
  }

  lemma SinceSnoc(qs: seq<Sample>, k: ParamKey)
    requires qs != []
    ensures |Since(qs, k)| == |Since(qs[..|qs| - 1], k)| + if Carriers(qs, k) != {} then 1 else 0
  {
    hide Carries, SeenBy;
    var n := |qs| - 1;
    var was := Since(qs[..n], k);
    forall j: nat | j < n
      ensures SeenBy(qs[..n], j, k) <==> SeenBy(qs, j, k)
    {
      SeenEarlier(qs, j, k);
    }
    SeenByLast(qs, k);
    assert Since(qs, k) == was + if Carriers(qs, k) != {} then {n} else {};
    assert n !in was;
  }

  /** The counters over all requests of an endpoint: the requests since k was first seen and those that carried it,
      each with its values beyond one a request on top. */
  ghost predicate CountersAre(params: map<ParamKey, Param>, qs: seq<Sample>, k: ParamKey, cap: int) {
    if k in params then
      && params[k].observations == |Since(qs, k)| + Surplus(qs, k)
      && params[k].present == |Carriers(qs, k)| + Surplus(qs, k) && Carriers(qs, k) != {}
    else (Surplus(qs, k) == 0 && Carriers(qs, k) == {}) || |params| >= cap
  }

  lemma NoCounters(k: ParamKey, cap: int)
    ensures CountersAre(map[], [], k, cap)
  {
  }

  lemma FirstSeen(qs: seq<Sample>, k: ParamKey)
    ensures Since(qs, k) != {} ==> Carriers(qs, k) != {}
  {
    hide Carries;
    if j :| j in Since(qs, k) {
      var i :| 0 <= i < |qs| && i <= j && Carries(qs[i], k);
      assert i in Carriers(qs, k);
    }
  }

  lemma CountersStep(r: Rules, caps: Caps, p: Profile, qs: seq<Sample>, k: ParamKey)
    requires qs != [] && CountersAre(p.params, qs[..|qs| - 1], k, caps.params)
    ensures CountersAre(Touched(r, caps, p, qs[|qs| - 1]).params, qs, k, caps.params)
  {
    hide Touched, Carries, Carriers, Since, Count;
    var n := |qs| - 1;
    TouchedCounters(r, caps, p, qs[n], k);
    CarriersSnoc(qs, k);
    SinceSnoc(qs, k);
    CarriesCounts(qs[n], k);
    FirstSeen(qs[..n], k);
  }

  lemma {:induction false} CountersExactly(r: Rules, caps: Caps, at: int, qs: seq<Sample>, k: ParamKey)
    ensures CountersAre(Story(r, caps, at, qs).params, qs, k, caps.params)
  {
    hide Touched, CountersAre;
    if qs == [] {
      NoCounters(k, caps.params);
    } else {
      var n := |qs| - 1;
      CountersExactly(r, caps, at, qs[..n], k);
      CountersStep(r, caps, Story(r, caps, at, qs[..n]), qs, k);
    }
  }

  lemma {:induction false} NoSurplus(qs: seq<Sample>, k: ParamKey)
    ensures Surplus(qs, k) == 0 <==> forall q | q in qs :: Count(q.found, k) <= 1
  {
    if qs != [] {
      var n := |qs| - 1;
      NoSurplus(qs[..n], k);
      assert qs == qs[..n] + [qs[n]];
    }
  }

  /** The two counters are the numbers of requests since the parameter was first seen and of those that carried it
      exactly when no request carried it twice. */
  lemma RequestsCountedExactly(r: Rules, caps: Caps, at: int, qs: seq<Sample>, k: ParamKey)
    requires k in Story(r, caps, at, qs).params
    ensures var p := Story(r, caps, at, qs).params[k];
      p.observations == |Since(qs, k)| && p.present == |Carriers(qs, k)|
      <==> forall q | q in qs :: Count(q.found, k) <= 1
  {
    CountersExactly(r, caps, at, qs, k);
    NoSurplus(qs, k);
  }

  /** A request that carries it twice counts as two. */
  lemma CountedTwice(r: Rules, caps: Caps, at: int, k: ParamKey, v: string, w: string)
    requires caps.params > 0
    ensures var q := Sample(at, map[], [], 0, [], [Found(k, v), Found(k, w)]);
      var params := Story(r, caps, at, [q]).params;
      && k in params && params[k].observations == 2 == params[k].present && |Since([q], k)| == 1 == |Carriers([q], k)|
  {
    var found := [Found(k, v), Found(k, w)];
    var q := Sample(at, map[], [], 0, [], found);
    hide Touched, Surplus;
    assert found[..1] == [Found(k, v)] && found[..1][..0] == [];
    assert Count(found[..1], k) == 1 && Count(found, k) == 2;
    assert [q][..0] == [];
    assert Story(r, caps, at, [q]) == Touched(r, caps, Blank(at), q);
    TouchedCounters(r, caps, Blank(at), q, k);
    assert Carries(q, k) by { CarriesCounts(q, k); }
    CarriersSnoc([q], k);
    SinceSnoc([q], k);
    assert 0 in Carriers([q], k);
    assert Since([], k) == {} && Carriers([], k) == {};
    assert KeysOf(found) == {k};
    NotRefused(r, caps, Blank(at), q, k);
  }

  // ---- merging ----

  /** Merging first and then observing, or observing in the endpoint merged in and then merging, gives a parameter one
      number of observations exactly when the other endpoint then has it, that is, with room for the request's
      parameters, when it had it or the request carries it: a request to an endpoint that has never seen the parameter
      is not counted for it. */
  lemma ObservationsMergeExactly(r: Rules, caps: Caps, a: Profile, b: Profile, q: Sample, k: ParamKey)
    requires k in a.params
    ensures var merged := Touched(r, caps, Combined(caps, a, b), q).params;
      var other := Touched(r, caps, b, q); var told := Combined(caps, a, other).params;
      && k in merged && k in told
      && (merged[k].observations == told[k].observations <==> k in other.params)
      && (|b.params.Keys + KeysOf(q.found)| <= caps.params ==>
            (k in other.params <==> k in b.params || Carries(q, k)))
  {
    hide Touched, AddNames;
    var both := Combined(caps, a, b);
    TouchedCounters(r, caps, both, q, k);
    TouchedCounters(r, caps, b, q, k);
    CarriesCounts(q, k);
    if Carries(q, k) && |b.params.Keys + KeysOf(q.found)| <= caps.params {
      NotRefused(r, caps, b, q, k);
    }
  }

  /** An endpoint that was told k once, and one that never was: a request without it to the latter counts for k only if
      they are merged before. */
  lemma MissedBySplit(r: Rules, caps: Caps, at: int, k: ParamKey, v: string)
    requires caps.params > 0
    ensures var q, empty := Sample(at, map[], [], 0, [], [Found(k, v)]), Sample(at, map[], [], 0, [], []);
      var a := Story(r, caps, at, [q]);
      var merged := Touched(r, caps, Combined(caps, a, Blank(at)), empty).params;
      var told := Combined(caps, a, Touched(r, caps, Blank(at), empty)).params;
      k in merged && k in told && merged[k].observations != told[k].observations
  {
    var q, empty := Sample(at, map[], [], 0, [], [Found(k, v)]), Sample(at, map[], [], 0, [], []);
    hide Touched, Combined;
    assert [q][..0] == [];
    assert Story(r, caps, at, [q]) == Touched(r, caps, Blank(at), q);
    assert [Found(k, v)][..0] == [] && Count(q.found, k) == 1;
    assert KeysOf(q.found) == {k};
    NotRefused(r, caps, Blank(at), q, k);
    ObservationsMergeExactly(r, caps, Story(r, caps, at, [q]), Blank(at), empty, k);
    TouchedCounters(r, caps, Blank(at), empty, k);
  }
}
