/** What an endpoint's profile says of the flows it was told, and what one more flow and a merge make of that. */
module Tallies {
  import opened Evidences
  import opened Sets
  import opened Parameters
  import opened Profiles
  import opened Truncation
  import opened Summaries

  // ---- what the profile says ----

  ghost function Moments(flows: set<Flow>): set<int> {
    set f | f in flows :: f.At()
  }

  ghost function WithStatus(flows: set<Flow>, status: int): nat {
    |set f | f in flows && f.o.sample.status == status|
  }

  /** Cookie names, statuses and parameters that these flows carried. */
  ghost function HeardOver(flows: set<Flow>): Heard {
    Heard(set f, c | f in flows && c in f.o.sample.cookies :: c,
          set f | f in flows && f.o.sample.status > 0 :: f.o.sample.status,
          set f, x | f in flows && x in f.found :: x.key)
  }

  ghost predicate Measured(flows: set<Flow>, m: Measure, v: int) {
    exists f | f in flows :: m in f.o.sample.measured && f.o.sample.measured[m] == v
  }

  /** Each ceiling is the largest measurement of its kind, and there is none for what was never measured. */
  ghost predicate Highest(maxima: map<Measure, int>, flows: set<Flow>) {
    && (forall m, v {:trigger Measured(flows, m, v)} | Measured(flows, m, v) :: m in maxima && v <= maxima[m])
    && forall m {:trigger maxima[m]} | m in maxima :: Measured(flows, m, maxima[m])
  }

  /** The providers named. */
  ghost predicate Senders(providers: set<string>, flows: set<Flow>) {
    forall p :: p in providers <==> p != "" && exists f | f in flows :: p in f.o.sample.providers
  }

  /** A status is counted as often as it was seen, or, once something was cut off, at most as often. */
  ghost predicate Counts(statuses: map<int, nat>, flows: set<Flow>, truncated: bool, s: int) {
    && (s in statuses ==> s > 0 && statuses[s] <= WithStatus(flows, s))
    && (!truncated && s > 0 ==> Get(statuses, s) == WithStatus(flows, s))
  }

  ghost predicate Mix(statuses: map<int, nat>, flows: set<Flow>, truncated: bool) {
    forall s {:trigger Counts(statuses, flows, truncated, s)} :: Counts(statuses, flows, truncated, s)
  }

  /** The baseline of one parameter is that of values it had, of all of them unless something was cut off. */
  ghost predicate ParamLaw(
    r: Rules, params: map<ParamKey, Param>, all: set<Sight>, truncated: bool, k: ParamKey)
  {
    if k in params then
      exists seen {:trigger Summary(r, params[k], seen)} ::
        seen != {} && seen <= all && (!truncated ==> seen == all) && Summary(r, params[k], seen)
    else !truncated ==> all == {}
  }

  ghost predicate ParamLaws(r: Rules, params: map<ParamKey, Param>, flows: set<Flow>, truncated: bool) {
    forall k {:trigger ParamLaw(r, params, Sights(flows, k), truncated, k)} ::
      ParamLaw(r, params, Sights(flows, k), truncated, k)
  }

  /** p is the profile of exactly these flows, or, where it is marked truncated, of as much of them as its caps let
      it keep. */
  ghost predicate Tallied(r: Rules, caps: Caps, p: Profile, flows: set<Flow>) {
    && p.observations == |flows|
    && Extremes(p.first, p.last, Moments(flows))
    && Highest(p.maxima, flows) && Senders(p.providers, flows) && Mix(p.statuses, flows, p.truncated)
    && Holds(caps, p, HeardOver(flows))
    && (r.cap == caps.enumValues ==> ParamLaws(r, p.params, flows, p.truncated))
  }

  /** The request is what this flow tells. */
  ghost predicate Tells(f: Flow, q: Sample) {
    q == f.o.sample.(at := f.At(), found := f.found)
  }

  // ---- one more flow ----

  /** A ceiling is at least each measurement and one of them. */
  lemma CeilingsHighest(a: map<Measure, int>, b: map<Measure, int>)
    ensures var c := Ceilings(a, b);
      && c.Keys == a.Keys + b.Keys
      && (forall m | m in a :: a[m] <= c[m]) && (forall m | m in b :: b[m] <= c[m])
      && forall m | m in c :: (m in a && c[m] == a[m]) || (m in b && c[m] == b[m])
  {
  }

  lemma MeasuredBoth(x: set<Flow>, y: set<Flow>, m: Measure, v: int)
    ensures Measured(x + y, m, v) <==> Measured(x, m, v) || Measured(y, m, v)
  {
    if f :| f in x && m in f.o.sample.measured && f.o.sample.measured[m] == v {
      assert f in x + y;
    }
    if f :| f in y && m in f.o.sample.measured && f.o.sample.measured[m] == v {
      assert f in x + y;
    }
  }

  lemma HighestBoth(a: map<Measure, int>, b: map<Measure, int>, x: set<Flow>, y: set<Flow>)
    requires Highest(a, x) && Highest(b, y)
    ensures Highest(Ceilings(a, b), x + y)
  {
    hide Ceilings, Measured;
    var c := Ceilings(a, b);
    CeilingsHighest(a, b);
    forall m, v {:trigger Measured(x + y, m, v)} | Measured(x + y, m, v)
      ensures m in c && v <= c[m]
    {
      MeasuredBoth(x, y, m, v);
    }
    forall m {:trigger c[m]} | m in c
      ensures Measured(x + y, m, c[m])
    {
      MeasuredBoth(x, y, m, c[m]);
      assert m in a ==> Measured(x, m, a[m]);
      assert m in b ==> Measured(y, m, b[m]);
    }
  }

  lemma HighestOne(f: Flow)
    ensures Highest(f.o.sample.measured, {f})
  {
    forall m {:trigger f.o.sample.measured[m]} | m in f.o.sample.measured
      ensures Measured({f}, m, f.o.sample.measured[m])
    {
      assert f in {f};
    }
  }

  lemma HighestMore(maxima: map<Measure, int>, flows: set<Flow>, f: Flow)
    requires Highest(maxima, flows)
    ensures Highest(Ceilings(maxima, f.o.sample.measured), flows + {f})
  {
    hide Highest, Ceilings;
    HighestOne(f);
    HighestBoth(maxima, f.o.sample.measured, flows, {f});
  }

  lemma SendersMore(providers: set<string>, flows: set<Flow>, f: Flow)
    requires Senders(providers, flows)
    ensures Senders(providers + Named(f.o.sample.providers), flows + {f})
  {
    var all := providers + Named(f.o.sample.providers);
    forall p
      ensures p in all <==> p != "" && exists g | g in flows + {f} :: p in g.o.sample.providers
    {
      if p in f.o.sample.providers {
        assert f in flows + {f};
      }
      if g :| g in flows && p in g.o.sample.providers {
        assert g in flows + {f};
      }
    }
  }

  lemma SendersBoth(a: set<string>, b: set<string>, x: set<Flow>, y: set<Flow>)
    requires Senders(a, x) && Senders(b, y)
    ensures Senders(a + b, x + y)
  {
    forall p
      ensures p in a + b <==> p != "" && exists g | g in x + y :: p in g.o.sample.providers
    {
      if g :| g in x && p in g.o.sample.providers {
        assert g in x + y;
      }
      if g :| g in y && p in g.o.sample.providers {
        assert g in x + y;
      }
    }
  }

  lemma StatusMore(flows: set<Flow>, f: Flow, s: int)
    requires f !in flows
    ensures WithStatus(flows + {f}, s) == WithStatus(flows, s) + if f.o.sample.status == s then 1 else 0
  {
    var had, all := set g | g in flows && g.o.sample.status == s, set g | g in flows + {f} && g.o.sample.status == s;
    if f.o.sample.status == s {
      assert all == had + {f};
    } else {
      assert all == had;
    }
  }

  lemma StatusBoth(x: set<Flow>, y: set<Flow>, s: int)
    requires x !! y
    ensures WithStatus(x + y, s) == WithStatus(x, s) + WithStatus(y, s)
  {
    var a, b := set g | g in x && g.o.sample.status == s, set g | g in y && g.o.sample.status == s;
    assert a !! b && (set g | g in x + y && g.o.sample.status == s) == a + b;
  }

  lemma MixMore(statuses: map<int, nat>, flows: set<Flow>, f: Flow, cap: int, before: bool, after: bool)
    requires Mix(statuses, flows, before) && f !in flows
    requires before || AddStatus(statuses, f.o.sample.status, cap).1 ==> after
    ensures Mix(AddStatus(statuses, f.o.sample.status, cap).0, flows + {f}, after)
  {
    hide WithStatus;
    var all := AddStatus(statuses, f.o.sample.status, cap).0;
    forall s {:trigger Counts(all, flows + {f}, after, s)}
      ensures Counts(all, flows + {f}, after, s)
    {
      assert Counts(statuses, flows, before, s);
      StatusMore(flows, f, s);
    }
  }

  lemma MixBoth(
    all: map<int, nat>, a: map<int, nat>, b: map<int, nat>, lost: set<int>, x: set<Flow>, y: set<Flow>,
    cutA: bool, cutB: bool, after: bool)
    requires Adds(all, a, b, lost) && Mix(a, x, cutA) && Mix(b, y, cutB) && x !! y
    requires cutA || cutB || lost != {} ==> after
    ensures Mix(all, x + y, after)
  {
    hide WithStatus;
    forall s {:trigger Counts(all, x + y, after, s)}
      ensures Counts(all, x + y, after, s)
    {
      assert Counts(a, x, cutA, s) && Counts(b, y, cutB, s);
      StatusBoth(x, y, s);
      assert s in all ==> all[s] == Get(a, s) + Get(b, s);
    }
  }

  lemma HeardMore(flows: set<Flow>, f: Flow, q: Sample)
    requires Tells(f, q)
    ensures HeardOver(flows + {f}) == Both(HeardOver(flows), HeardOf(q))
  {
    var all, some, one := HeardOver(flows + {f}), HeardOver(flows), HeardOf(q);
    assert f in flows + {f};
    forall c
      ensures c in all.cookies <==> c in some.cookies + one.cookies
    {
      if g :| g in flows && c in g.o.sample.cookies {
        assert g in flows + {f};
      }
    }
    forall k
      ensures k in all.keys <==> k in some.keys + one.keys
    {
      if g, x :| g in flows && x in g.found && x.key == k {
        assert g in flows + {f};
      }
    }
    assert all.statuses == some.statuses + one.statuses;
    assert all.cookies == some.cookies + one.cookies;
    assert all.keys == some.keys + one.keys;
  }

  lemma HeardBoth(x: set<Flow>, y: set<Flow>)
    ensures HeardOver(x + y) == Both(HeardOver(x), HeardOver(y))
  {
    var all, a, b := HeardOver(x + y), HeardOver(x), HeardOver(y);
    assert all.cookies == a.cookies + b.cookies;
    assert all.statuses == a.statuses + b.statuses;
    assert all.keys == a.keys + b.keys;
  }

  lemma MomentsMore(flows: set<Flow>, f: Flow)
    ensures Moments(flows + {f}) == Moments(flows) + {f.At()} && (flows != {} <==> Moments(flows) != {})
  {
    if flows != {} {
      var g :| g in flows;
      assert g.At() in Moments(flows);
    }
  }

  lemma MomentsBoth(x: set<Flow>, y: set<Flow>)
    ensures Moments(x + y) == Moments(x) + Moments(y)
  {
  }

  // ---- its parameters ----

  /** The values of k told so far: those of the earlier flows and the first n of f. */
  ghost function SoFar(flows: set<Flow>, f: Flow, n: nat, k: ParamKey): set<Sight>
    requires n <= |f.found|
  {
    Sights(flows, k) + SightsIn(f, n, k)
  }

  lemma SoFarNext(flows: set<Flow>, f: Flow, n: nat, k: ParamKey)
    requires n < |f.found|
    ensures SoFar(flows, f, n + 1, k)
         == SoFar(flows, f, n, k) + if f.found[n].key == k then {Sight(f, n, f.found[n].value)} else {}
  {
    hide Sights, SightsIn;
    SightsNext(f, n, k);
  }

  lemma NotYet(flows: set<Flow>, f: Flow, n: nat, k: ParamKey, value: string)
    requires f !in flows && n <= |f.found|
    ensures Sight(f, n, value) !in SoFar(flows, f, n, k)
  {
  }

  lemma SeenMore(r: Rules, params: map<ParamKey, Param>, all: set<Sight>, truncated: bool, s: Sight, k: ParamKey)
    requires k in params && ParamLaw(r, params, all, truncated, k) && s !in all
    ensures ParamLaw(r, params[k := Observed(r, params[k], s.value, s.flow.At())], all + {s}, truncated, k)
  {
    hide Summary, Observed;
    var seen :| seen != {} && seen <= all && (!truncated ==> seen == all) && Summary(r, params[k], seen);
    var next := Observed(r, params[k], s.value, s.flow.At());
    ObservedSummary(r, params[k], seen, s);
    assert params[k := next][k] == next && Summary(r, next, seen + {s});
  }

  lemma SeenFirst(r: Rules, params: map<ParamKey, Param>, all: set<Sight>, truncated: bool, s: Sight, k: ParamKey)
    requires k !in params && ParamLaw(r, params, all, truncated, k) && s !in all
    ensures ParamLaw(r, params[k := Observed(r, Fresh(s.value, s.flow.At()), s.value, s.flow.At())],
                     all + {s}, truncated, k)
  {
    hide Summary, Observed;
    var first := Observed(r, Fresh(s.value, s.flow.At()), s.value, s.flow.At());
    FreshIsNothing(r, s.value, s.flow.At());
    ObservedSummary(r, Fresh(s.value, s.flow.At()), {}, s);
    assert {} + {s} == {s};
    assert params[k := first][k] == first && Summary(r, first, {s});
  }

  /** Only what is at k matters. */
  lemma LawAt(
    r: Rules, a: map<ParamKey, Param>, b: map<ParamKey, Param>, all: set<Sight>, before: bool, after: bool,
    k: ParamKey)
    requires ParamLaw(r, a, all, before, k) && (before ==> after) && (k in a <==> k in b)
    requires k in a ==> a[k] == b[k]
    ensures ParamLaw(r, b, all, after, k)
  {
    hide Summary;
    if k in a {
      var seen :| seen != {} && seen <= all && (!before ==> seen == all) && Summary(r, a[k], seen);
      assert Summary(r, b[k], seen);
    }
  }

  lemma Refused(r: Rules, params: map<ParamKey, Param>, all: set<Sight>, k: ParamKey)
    requires k !in params
    ensures ParamLaw(r, params, all, true, k)
  {
  }

  lemma OtherValue(r: Rules, params: map<ParamKey, Param>, f: Found, at: int, cap: int, k: ParamKey)
    requires f.key != k
    ensures var next := AddValue(r, params, f, at, cap).0;
      (k in params <==> k in next) && (k in params ==> params[k] == next[k])
  {
    hide Observed;
  }

  lemma OwnValue(r: Rules, params: map<ParamKey, Param>, f: Found, at: int, cap: int)
    ensures var next := AddValue(r, params, f, at, cap);
      && (f.key in params ==> next == (params[f.key := Observed(r, params[f.key], f.value, at)], true))
      && (f.key !in params && next.1 ==> next.0 == params[f.key := Observed(r, Fresh(f.value, at), f.value, at)])
      && (f.key !in params && !next.1 ==> next.0 == params)
  {
    hide Observed;
  }

  lemma ValueLaw(
    r: Rules, params: map<ParamKey, Param>, flows: set<Flow>, f: Flow, n: nat, truncated: bool, cap: int, k: ParamKey)
    requires f !in flows && n < |f.found|
    requires ParamLaw(r, params, SoFar(flows, f, n, k), truncated, k)
    ensures var next := AddValue(r, params, f.found[n], f.At(), cap);
      ParamLaw(r, next.0, SoFar(flows, f, n + 1, k), truncated || !next.1, k)
  {
    hide *;
    var next := AddValue(r, params, f.found[n], f.At(), cap);
    var all := SoFar(flows, f, n, k);
    SoFarNext(flows, f, n, k);
    if f.found[n].key == k {
      var s := Sight(f, n, f.found[n].value);
      NotYet(flows, f, n, k, s.value);
      OwnValue(r, params, f.found[n], f.At(), cap);
      if k in params {
        SeenMore(r, params, all, truncated, s, k);
      } else if next.1 {
        SeenFirst(r, params, all, truncated, s, k);
      } else {
        Refused(r, params, all + {s}, k);
      }
    } else {
      OtherValue(r, params, f.found[n], f.At(), cap, k);
      assert all + {} == all;
      LawAt(r, params, next.0, all, truncated, truncated || !next.1, k);
    }
  }

  lemma {:induction false} FoundLaw(
    r: Rules, params: map<ParamKey, Param>, flows: set<Flow>, f: Flow, n: nat, truncated: bool, cap: int, k: ParamKey)
    requires f !in flows && n <= |f.found| && ParamLaw(r, params, Sights(flows, k), truncated, k)
    ensures var next := AddFound(r, params, f.found[..n], f.At(), cap);
      ParamLaw(r, next.0, SoFar(flows, f, n, k), truncated || next.2, k)
  {
    hide ParamLaw, Sights, AddValue;
    if n == 0 {
      assert SoFar(flows, f, 0, k) == Sights(flows, k);
    } else {
      FoundLaw(r, params, flows, f, n - 1, truncated, cap, k);
      assert f.found[..n][..n - 1] == f.found[..n - 1];
      var before := AddFound(r, params, f.found[..n - 1], f.At(), cap);
      ValueLaw(r, before.0, flows, f, n - 1, truncated || before.2, cap, k);
    }
  }

  lemma CountedLaw(
    r: Rules, params: map<ParamKey, Param>, present: set<ParamKey>, all: set<Sight>, truncated: bool, k: ParamKey)
    requires ParamLaw(r, params, all, truncated, k)
    ensures ParamLaw(r, CountAbsent(params, present), all, truncated, k)
  {
    hide Summary;
    if k in params {
      var seen :| seen != {} && seen <= all && (!truncated ==> seen == all) && Summary(r, params[k], seen);
      AbsentSummary(r, params[k], seen);
    }
  }

  lemma LawsWeaken(
    r: Rules, params: map<ParamKey, Param>, flows: set<Flow>, before: bool, after: bool)
    requires ParamLaws(r, params, flows, before) && (before ==> after)
    ensures ParamLaws(r, params, flows, after)
  {
    hide ParamLaw, Sights;
    forall k {:trigger ParamLaw(r, params, Sights(flows, k), after, k)}
      ensures ParamLaw(r, params, Sights(flows, k), after, k)
    {
      assert ParamLaw(r, params, Sights(flows, k), before, k);
      LawAt(r, params, params, Sights(flows, k), before, after, k);
    }
  }

  lemma ParamsMore(
    r: Rules, params: map<ParamKey, Param>, flows: set<Flow>, f: Flow, truncated: bool, cap: int)
    requires f !in flows && ParamLaws(r, params, flows, truncated)
    ensures var next := AddFound(r, params, f.found, f.At(), cap);
      ParamLaws(r, CountAbsent(next.0, next.1), flows + {f}, truncated || next.2)
  {
    hide ParamLaw, Sights, SightsIn, AddFound, CountAbsent;
    var next := AddFound(r, params, f.found, f.At(), cap);
    var after := CountAbsent(next.0, next.1);
    var cut := truncated || next.2;
    assert f.found[..|f.found|] == f.found;
    forall k {:trigger ParamLaw(r, after, Sights(flows + {f}, k), cut, k)}
      ensures ParamLaw(r, after, Sights(flows + {f}, k), cut, k)
    {
      assert ParamLaw(r, params, Sights(flows, k), truncated, k);
      FoundLaw(r, params, flows, f, |f.found|, truncated, cap, k);
      SightsMore(flows, f, k);
      CountedLaw(r, next.0, next.1, SoFar(flows, f, |f.found|, k), cut, k);
    }
  }

  lemma BothLaw(
    r: Rules, all: map<ParamKey, Param>, a: map<ParamKey, Param>, b: map<ParamKey, Param>, lost: set<ParamKey>,
    x: set<Sight>, y: set<Sight>, cutA: bool, cutB: bool, after: bool, k: ParamKey)
    requires ParamsMerge(all, a, b, lost, r.cap) && x !! y
    requires ParamLaw(r, a, x, cutA, k) && ParamLaw(r, b, y, cutB, k)
    requires cutA || cutB || lost != {} ==> after
    ensures ParamLaw(r, all, x + y, after, k)
  {
    hide Summary, Merge;
    if k in all {
      assert all[k] == ParamOf(r.cap, a, b, k);
      if k in a {
        var seen :| seen != {} && seen <= x && (!cutA ==> seen == x) && Summary(r, a[k], seen);
        if k in b {
          var more :| more != {} && more <= y && (!cutB ==> more == y) && Summary(r, b[k], more);
          MergedSummary(r, a[k], b[k], seen, more);
          assert seen + more <= x + y && Summary(r, all[k], seen + more);
        } else {
          assert Summary(r, all[k], seen);
        }
      } else {
        var more :| more != {} && more <= y && (!cutB ==> more == y) && Summary(r, b[k], more);
        assert Summary(r, all[k], more);
      }
    }
  }

  lemma ParamsBoth(
    r: Rules, all: map<ParamKey, Param>, a: map<ParamKey, Param>, b: map<ParamKey, Param>, lost: set<ParamKey>,
    x: set<Flow>, y: set<Flow>, cutA: bool, cutB: bool, after: bool)
    requires ParamsMerge(all, a, b, lost, r.cap) && x !! y
    requires ParamLaws(r, a, x, cutA) && ParamLaws(r, b, y, cutB)
    requires cutA || cutB || lost != {} ==> after
    ensures ParamLaws(r, all, x + y, after)
  {
    hide ParamLaw, ParamsMerge, Sights;
    forall k {:trigger ParamLaw(r, all, Sights(x + y, k), after, k)}
      ensures ParamLaw(r, all, Sights(x + y, k), after, k)
    {
      SightsBoth(x, y, k);
      assert ParamLaw(r, a, Sights(x, k), cutA, k) && ParamLaw(r, b, Sights(y, k), cutB, k);
      BothLaw(r, all, a, b, lost, Sights(x, k), Sights(y, k), cutA, cutB, after, k);
    }
  }

  // ---- the whole profile ----

  lemma BlankTallied(r: Rules, caps: Caps, at: int)
    ensures Tallied(r, caps, Blank(at), {})
  {
    assert HeardOver({}) == SILENCE;
    assert Moments({}) == {};
    forall s {:trigger Counts(map[], {}, false, s)}
      ensures Counts(map[], {}, false, s)
    {
      assert (set f: Flow | f in {} && f.o.sample.status == s) == {};
    }
    forall k {:trigger ParamLaw(r, map[], Sights({}, k), false, k)}
      ensures ParamLaw(r, map[], Sights({}, k), false, k)
    {
      assert Sights({}, k) == {};
    }
  }

  lemma TouchedFields(r: Rules, caps: Caps, p: Profile, q: Sample)
    ensures var t := Touched(r, caps, p, q);
      && t.observations == p.observations + 1 && t.first == Min(p.first, q.at) && t.last == Max(p.last, q.at)
      && t.maxima == Ceilings(p.maxima, q.measured) && t.providers == p.providers + Named(q.providers)
      && t.statuses == AddStatus(p.statuses, q.status, caps.statuses).0
      && t.truncated == (p.truncated || AddNames(p.cookies, q.cookies, caps.cookies).1
                         || AddStatus(p.statuses, q.status, caps.statuses).1
                         || AddFound(r, p.params, q.found, q.at, caps.params).2)
    ensures var next := AddFound(r, p.params, q.found, q.at, caps.params);
      Touched(r, caps, p, q).params == CountAbsent(next.0, next.1)
  {
    hide AddNames, AddStatus, AddFound, CountAbsent, Ceilings, Named;
  }

  lemma ParamsTallied(r: Rules, caps: Caps, p: Profile, q: Sample, flows: set<Flow>, f: Flow)
    requires ParamLaws(r, p.params, flows, p.truncated) && f !in flows && Tells(f, q)
    ensures var t := Touched(r, caps, p, q); ParamLaws(r, t.params, flows + {f}, t.truncated)
  {
    hide ParamLaws, AddFound, AddNames, AddStatus, Touched, CountAbsent;
    TouchedFields(r, caps, p, q);
    ParamsMore(r, p.params, flows, f, p.truncated, caps.params);
    var next := AddFound(r, p.params, q.found, q.at, caps.params);
    LawsWeaken(r, CountAbsent(next.0, next.1), flows + {f}, p.truncated || next.2, Touched(r, caps, p, q).truncated);
  }

  /** One more flow. */
  lemma TouchedTallied(r: Rules, caps: Caps, p: Profile, q: Sample, flows: set<Flow>, f: Flow)
    requires Tallied(r, caps, p, flows) && f !in flows && Tells(f, q)
    requires flows == {} ==> p.first == p.last == q.at
    ensures Tallied(r, caps, Touched(r, caps, p, q), flows + {f})
  {
    hide AddFound, AddNames, AddStatus, CountAbsent, Touched, ParamLaws, Mix, Highest, Senders, Holds, HeardOver;
    hide Moments, Extremes, Ceilings, Named, HeardOf, Both;
    TouchedFields(r, caps, p, q);
    MomentsMore(flows, f);
    ExtremesMore(p.first, p.last, Moments(flows), f.At());
    HighestMore(p.maxima, flows, f);
    SendersMore(p.providers, flows, f);
    MixMore(p.statuses, flows, f, caps.statuses, p.truncated, Touched(r, caps, p, q).truncated);
    HeardMore(flows, f, q);
    TouchedHolds(r, caps, p, q, HeardOver(flows));
    if r.cap == caps.enumValues {
      ParamsTallied(r, caps, p, q, flows, f);
    }
  }

  lemma CutsTallied(
    r: Rules, caps: Caps, m: Profile, a: Profile, b: Profile, x: set<Flow>, y: set<Flow>, cut: bool, more: set<int>,
    refused: set<ParamKey>)
    requires Cuts(caps, m, a, b, cut, more, refused) && x !! y
    requires Mix(a.statuses, x, a.truncated) && Mix(b.statuses, y, b.truncated)
    ensures Mix(m.statuses, x + y, m.truncated)
    ensures r.cap == caps.enumValues && ParamLaws(r, a.params, x, a.truncated) && ParamLaws(r, b.params, y, b.truncated)
        ==> ParamLaws(r, m.params, x + y, m.truncated)
  {
    hide *;
    CutsParts(caps, m, a, b, cut, more, refused);
    MixBoth(m.statuses, a.statuses, b.statuses, more, x, y, a.truncated, b.truncated, m.truncated);
    if r.cap == caps.enumValues && ParamLaws(r, a.params, x, a.truncated) && ParamLaws(r, b.params, y, b.truncated) {
      ParamsBoth(r, m.params, a.params, b.params, refused, x, y, a.truncated, b.truncated, m.truncated);
    }
  }

  /** Two endpoints, told different flows, merged. */
  lemma MergedTallied(r: Rules, caps: Caps, m: Profile, a: Profile, b: Profile, x: set<Flow>, y: set<Flow>)
    requires Merged(caps, m, a, b) && Tallied(r, caps, a, x) && Tallied(r, caps, b, y)
    requires x !! y && x != {} && y != {}
    ensures Tallied(r, caps, m, x + y)
  {
    hide ParamLaws, Mix, Highest, Senders, Holds, HeardOver, Moments, Extremes, Ceilings, Both, Cuts;
    var cut, more, refused :| Cuts(caps, m, a, b, cut, more, refused);
    CutsTallied(r, caps, m, a, b, x, y, cut, more, refused);
    MomentsBoth(x, y);
    var f, g :| f in x && g in y;
    MomentsMore(x, f);
    MomentsMore(y, g);
    ExtremesBoth(a.first, a.last, Moments(x), b.first, b.last, Moments(y));
    HighestBoth(a.maxima, b.maxima, x, y);
    SendersBoth(a.providers, b.providers, x, y);
    HeardBoth(x, y);
    MergedHolds(caps, m, a, b, HeardOver(x), HeardOver(y));
  }

  // ---- a profile is determined by its flows ----

  lemma HighestBelow(a: map<Measure, int>, b: map<Measure, int>, flows: set<Flow>, m: Measure)
    requires Highest(a, flows) && Highest(b, flows) && m in a
    ensures m in b && a[m] <= b[m]
  {
    hide Measured;
    assert Measured(flows, m, a[m]);
  }

  lemma HighestUnique(a: map<Measure, int>, b: map<Measure, int>, flows: set<Flow>)
    requires Highest(a, flows) && Highest(b, flows)
    ensures a == b
  {
    hide Highest;
    forall m
      ensures m in a <==> m in b
      ensures m in a ==> a[m] == b[m]
    {
      if m in a {
        HighestBelow(a, b, flows, m);
      }
      if m in b {
        HighestBelow(b, a, flows, m);
      }
    }
  }

  lemma SendersUnique(a: set<string>, b: set<string>, flows: set<Flow>)
    requires Senders(a, flows) && Senders(b, flows)
    ensures a == b
  {
  }

  lemma MixUnique(a: map<int, nat>, b: map<int, nat>, flows: set<Flow>)
    requires Mix(a, flows, false) && Mix(b, flows, false) && a.Keys == b.Keys
    ensures a == b
  {
    hide WithStatus;
    forall s | s in a
      ensures a[s] == b[s]
    {
      assert Counts(a, flows, false, s) && Counts(b, flows, false, s);
    }
  }

  lemma ParamUnique(
    r: Rules, a: map<ParamKey, Param>, b: map<ParamKey, Param>, all: set<Sight>, k: ParamKey)
    requires ParamLaw(r, a, all, false, k) && ParamLaw(r, b, all, false, k) && k in a && k in b
    ensures a[k].(observations := 0) == b[k].(observations := 0)
  {
    hide Summary;
    SummaryIsUnique(r, a[k], b[k], all);
  }

  lemma HeldUnique(caps: Caps, a: Profile, b: Profile, h: Heard)
    requires Truncation.Holds(caps, a, h) && Truncation.Holds(caps, b, h) && !a.truncated && !b.truncated
    ensures a.cookies == b.cookies && a.statuses.Keys == b.statuses.Keys && a.params.Keys == b.params.Keys
  {
  }

  /** Two profiles of the same flows, neither marked truncated, differ at most in how many requests without it each
      parameter counted: neither the order of the flows nor how endpoints were merged shows in anything else. */
  lemma SameFlowsSameProfile(r: Rules, caps: Caps, a: Profile, b: Profile, flows: set<Flow>)
    requires Tallied(r, caps, a, flows) && Tallied(r, caps, b, flows) && flows != {} && r.cap == caps.enumValues
    requires !a.truncated && !b.truncated
    ensures a.(params := map[]) == b.(params := map[]) && a.params.Keys == b.params.Keys
    ensures forall k | k in a.params :: a.params[k].(observations := 0) == b.params[k].(observations := 0)
  {
    hide ParamLaw, Mix, Highest, Senders, Truncation.Holds, HeardOver, Moments, Extremes, Sights;
    var f :| f in flows;
    MomentsMore(flows, f);
    ExtremesUnique(a.first, a.last, b.first, b.last, Moments(flows));
    HighestUnique(a.maxima, b.maxima, flows);
    SendersUnique(a.providers, b.providers, flows);
    HeldUnique(caps, a, b, HeardOver(flows));
    MixUnique(a.statuses, b.statuses, flows);
    forall k | k in a.params
      ensures a.params[k].(observations := 0) == b.params[k].(observations := 0)
    {
      assert ParamLaw(r, a.params, Sights(flows, k), false, k) && ParamLaw(r, b.params, Sights(flows, k), false, k);
      ParamUnique(r, a.params, b.params, Sights(flows, k), k);
    }
  }
}
