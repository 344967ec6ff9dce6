/** The learned baseline of one endpoint: observing requests, and merging two endpoints. */
module Profiles {
  import opened Evidences
  import opened Parameters
  import opened Sets

  datatype Caps = Caps(perTenant: int, perHost: int, params: int, enumValues: int, statuses: int, cookies: int)

  const DEFAULT_CAPS := Caps(20000, 5000, 200, 64, 32, 64)

  /** What the content hash of these four strings stands for. */
  datatype EndpointID = EndpointID(tenant: string, host: string, verb: string, template: string)

  /** The structural ceilings; an absent one was never measured. */
  datatype Measure = RequestBytes | HeaderCount | HeaderBytes | CookieCount | ParamCount | ValueLen | PathLen

  /** A parameter is named by its place in the path or by its name in the query or the body. */
  datatype ParamKey = PathPosition(i: nat) | InQuery(name: string) | InBody(name: string)

  datatype Found = Found(key: ParamKey, value: string)

  /** One request as the endpoint sees it: its measurements, names and parsed parameters. */
  datatype Sample = Sample(
    at: int, measured: map<Measure, int>, cookies: seq<string>, status: int, providers: seq<string>, found: seq<Found>)

  datatype Profile = Profile(
    observations: nat, first: int, last: int, maxima: map<Measure, int>, cookies: set<string>,
    statuses: map<int, nat>, providers: set<string>, truncated: bool, params: map<ParamKey, Param>)

  function Blank(at: int): Profile {
    Profile(0, at, at, map[], {}, map[], {}, false, map[])
  }

  // ---- observing ----

  function Ceilings(a: map<Measure, int>, b: map<Measure, int>): map<Measure, int> {
    map m | m in a.Keys + b.Keys :: if m in a && m in b then Max(a[m], b[m]) else if m in a then a[m] else b[m]
  }

  /** Names are added until one finds the set full. */
  function AddNames(have: set<string>, names: seq<string>, cap: int): (set<string>, bool)
    decreases |names|
  {
    if names == [] then (have, false)
    else if names[0] in have then AddNames(have, names[1..], cap)
    else if |have| >= cap then (have, true)
    else AddNames(have + {names[0]}, names[1..], cap)
  }

  function AddStatus(statuses: map<int, nat>, status: int, cap: int): (map<int, nat>, bool) {
    if status <= 0 then (statuses, false)
    else if status in statuses || |statuses| < cap then (Bump(statuses, status, 1), false)
    else (statuses, true)
  }

  function Named(providers: seq<string>): set<string> {
    set p | p in providers && p != ""
  }

  /** One value of one parameter; a new parameter past the cap is refused. */
  function AddValue(r: Rules, params: map<ParamKey, Param>, f: Found, at: int, cap: int): (map<ParamKey, Param>, bool) {
    if f.key in params then (params[f.key := Observed(r, params[f.key], f.value, at)], true)
    else if |params| >= cap then (params, false)
    else (params[f.key := Observed(r, Fresh(f.value, at), f.value, at)], true)
  }

  /** All values of one request, with the keys that were recorded and whether one was refused. */
  function AddFound(r: Rules, params: map<ParamKey, Param>, found: seq<Found>, at: int, cap: int)
    : (map<ParamKey, Param>, set<ParamKey>, bool)
  {
    if found == [] then (params, {}, false)
    else
      var n := |found| - 1;
      var (before, keys, refused) := AddFound(r, params, found[..n], at, cap);
      var (after, taken) := AddValue(r, before, found[n], at, cap);
      (after, if taken then keys + {found[n].key} else keys, refused || !taken)
  }

  /** Parameters the request did not carry count one more request. */
  function CountAbsent(params: map<ParamKey, Param>, present: set<ParamKey>): map<ParamKey, Param> {
    map k | k in params :: if k in present then params[k] else params[k].(observations := params[k].observations + 1)
  }

  function Touched(r: Rules, caps: Caps, p: Profile, q: Sample): Profile {
    var (cookies, full) := AddNames(p.cookies, q.cookies, caps.cookies);
    var (statuses, more) := AddStatus(p.statuses, q.status, caps.statuses);
    var (params, present, refused) := AddFound(r, p.params, q.found, q.at, caps.params);
    Profile(p.observations + 1, Min(p.first, q.at), Max(p.last, q.at), Ceilings(p.maxima, q.measured), cookies,
            statuses, p.providers + Named(q.providers), p.truncated || full || more || refused,
            CountAbsent(params, present))
  }

  // ---- the enumerations stay consistent ----

  /** Every parameter's enumeration is one that observing and merging can have built. */
  ghost predicate Sound(cap: int, params: map<ParamKey, Param>) {
    forall k {:trigger params[k]} | k in params :: Consistent(cap, params[k].enum)
  }

  lemma ObservedConsistent(r: Rules, p: Param, v: string, at: int)
    requires Consistent(r.cap, p.enum)
    ensures Consistent(r.cap, Observed(r, p, v, at).enum)
  {
    ListedConsistent(r.cap, p.enum, v);
  }

  lemma AddValueSound(r: Rules, params: map<ParamKey, Param>, f: Found, at: int, cap: int)
    requires Sound(r.cap, params)
    ensures Sound(r.cap, AddValue(r, params, f, at, cap).0)
  {
    if f.key in params {
      ObservedConsistent(r, params[f.key], f.value, at);
    } else {
      ObservedConsistent(r, Fresh(f.value, at), f.value, at);
    }
  }

  lemma {:induction false} AddFoundSound(r: Rules, params: map<ParamKey, Param>, found: seq<Found>, at: int, cap: int)
    requires Sound(r.cap, params)
    ensures Sound(r.cap, AddFound(r, params, found, at, cap).0)
  {
    if found != [] {
      var n := |found| - 1;
      AddFoundSound(r, params, found[..n], at, cap);
      AddValueSound(r, AddFound(r, params, found[..n], at, cap).0, found[n], at, cap);
    }
  }

  /** Observing a request keeps them consistent. */
  lemma TouchedSound(r: Rules, caps: Caps, p: Profile, q: Sample)
    requires Sound(r.cap, p.params)
    ensures Sound(r.cap, Touched(r, caps, p, q).params)
  {
    AddFoundSound(r, p.params, q.found, q.at, caps.params);
    var (params, present, refused) := AddFound(r, p.params, q.found, q.at, caps.params);
    var counted := CountAbsent(params, present);
    forall k {:trigger counted[k]} | k in counted
      ensures Consistent(r.cap, counted[k].enum)
    {
      assert Consistent(r.cap, params[k].enum);
    }
  }

  ghost predicate IsTouched(r: Rules, caps: Caps, p: Profile, q: Sample, after: Profile) {
    after == Touched(r, caps, p, q)
  }

  /** The profile after one more request: `after == Touched(r, caps, p, q)`, written as a quantifier so that the
      verifier does not unfold Touched wherever a profile is passed on. */
  ghost predicate Told(r: Rules, caps: Caps, p: Profile, q: Sample, after: Profile) {
    forall x {:trigger IsTouched(r, caps, p, q, x)} | IsTouched(r, caps, p, q, x) :: x == after
  }

  lemma ToldIsTouched(r: Rules, caps: Caps, p: Profile, q: Sample, after: Profile)
    ensures Told(r, caps, p, q, after) <==> after == Touched(r, caps, p, q)
  {
    assert IsTouched(r, caps, p, q, Touched(r, caps, p, q));
  }

  lemma ToldCounts(r: Rules, caps: Caps, p: Profile, q: Sample, after: Profile)
    requires Told(r, caps, p, q, after)
    ensures after.observations == p.observations + 1
  {
    ToldIsTouched(r, caps, p, q, after);
  }

  // ---- merging ----

  /** These names of b were visited before the set was found full, which cut the others off. */
  ghost predicate Visits<K>(all: set<K>, a: set<K>, b: set<K>, cut: bool, cap: int, visited: set<K>) {
    && visited <= b && all == a + visited
    && (cut <==> visited != b) && (cut ==> |all| >= cap)
    && (visited != {} ==> |a| < cap && |all| <= cap)
  }

  /** `all` holds a and the names of b that were visited. */
  ghost predicate Unites<K(!new)>(all: set<K>, a: set<K>, b: set<K>, cut: bool, cap: int) {
    exists visited :: Visits(all, a, b, cut, cap, visited)
  }

  function ParamOf(cap: int, a: map<ParamKey, Param>, b: map<ParamKey, Param>, k: ParamKey): Param
    requires k in a || k in b
  {
    if k in a && k in b then Merge(cap, a[k], b[k]) else if k in a then a[k] else b[k]
  }

  function AllParams(cap: int, a: map<ParamKey, Param>, b: map<ParamKey, Param>): (c: map<ParamKey, Param>)
    ensures c.Keys == a.Keys + b.Keys
  {
    map k | k in a.Keys + b.Keys :: ParamOf(cap, a, b, k)
  }

  /** `all` holds the parameters of a and b, without those of `lost`, which only b has. */
  ghost predicate ParamsMerge(
    all: map<ParamKey, Param>, a: map<ParamKey, Param>, b: map<ParamKey, Param>, lost: set<ParamKey>, cap: int)
  {
    && lost <= b.Keys - a.Keys && all.Keys == a.Keys + b.Keys - lost
    && forall k {:trigger all[k]} | k in all :: all[k] == ParamOf(cap, a, b, k)
  }

  /** Cookie names were cut short or not, and these statuses and parameters were refused. */
  ghost predicate Cuts(
    caps: Caps, m: Profile, a: Profile, b: Profile, cut: bool, more: set<int>, refused: set<ParamKey>)
  {
    && Unites(m.cookies, a.cookies, b.cookies, cut, caps.cookies)
    && Adds(m.statuses, a.statuses, b.statuses, more)
    && Fits(|m.statuses|, |a.statuses|, more != {}, caps.statuses - 1)
    && ParamsMerge(m.params, a.params, b.params, refused, caps.enumValues)
    && Fits(|m.params|, |a.params|, refused != {}, caps.params - 1)
    && m.truncated == (a.truncated || b.truncated || cut || more != {} || refused != {})
  }

  /** m holds the evidence of a and b; which names a full cap refuses is left open. */
  ghost predicate Merged(caps: Caps, m: Profile, a: Profile, b: Profile) {
    && m.observations == a.observations + b.observations
    && m.first == Min(a.first, b.first) && m.last == Max(a.last, b.last)
    && m.maxima == Ceilings(a.maxima, b.maxima) && m.providers == a.providers + b.providers
    && exists cut, more, refused {:trigger Cuts(caps, m, a, b, cut, more, refused)} ::
         Cuts(caps, m, a, b, cut, more, refused)
  }

  /** Merging keeps the enumerations consistent. */
  lemma MergedSound(caps: Caps, m: Profile, a: Profile, b: Profile)
    requires Merged(caps, m, a, b) && Sound(caps.enumValues, a.params) && Sound(caps.enumValues, b.params)
    ensures Sound(caps.enumValues, m.params)
  {
    var cut, more, refused :| Cuts(caps, m, a, b, cut, more, refused);
    forall k {:trigger m.params[k]} | k in m.params
      ensures Consistent(caps.enumValues, m.params[k].enum)
    {
      if k in a.params {
        assert Consistent(caps.enumValues, a.params[k].enum);
      }
      if k in b.params {
        assert Consistent(caps.enumValues, b.params[k].enum);
      }
      if k in a.params && k in b.params {
        MergeConsistent(caps.enumValues, a.params[k].enum, b.params[k].enum);
      }
    }
  }

  /** What merging gives while no cap is reached. */
  function Combined(caps: Caps, a: Profile, b: Profile): Profile {
    Profile(a.observations + b.observations, Min(a.first, b.first), Max(a.last, b.last), Ceilings(a.maxima, b.maxima),
            a.cookies + b.cookies, AddUp(a.statuses, b.statuses),
            a.providers + b.providers, a.truncated || b.truncated, AllParams(caps.enumValues, a.params, b.params))
  }

  /** The cookie cap stops a merge even at names both sides have, so it must not be reached. */
  ghost predicate BelowCaps(caps: Caps, a: Profile, b: Profile) {
    && |a.cookies + b.cookies| < caps.cookies
    && |a.statuses.Keys + b.statuses.Keys| <= caps.statuses
    && |a.params.Keys + b.params.Keys| <= caps.params
  }

  lemma NoNamesCut(all: set<string>, a: set<string>, b: set<string>, cut: bool, cap: int)
    requires Unites(all, a, b, cut, cap) && |a + b| < cap
    ensures !cut && all == a + b
  {
    var visited :| Visits(all, a, b, cut, cap, visited);
    Larger(all, a + b);
  }

  lemma NothingLost<K>(all: set<K>, a: set<K>, b: set<K>, lost: set<K>, cap: int)
    requires lost <= b - a && all == a + b - lost && (lost != {} ==> |all| > cap - 1) && |a + b| <= cap
    ensures lost == {}
  {
    assert all + lost == a + b;
    assert |all + lost| == |all| + |lost|;
  }

  lemma StatusesExact(all: map<int, nat>, a: map<int, nat>, b: map<int, nat>)
    requires Adds(all, a, b, {})
    ensures all == AddUp(a, b)
  {
    var sum := AddUp(a, b);
    forall k | k in all
      ensures all[k] == sum[k]
    {
      assert all[k] == Get(a, k) + Get(b, k);
    }
  }

  lemma ParamsExact(all: map<ParamKey, Param>, a: map<ParamKey, Param>, b: map<ParamKey, Param>, cap: int)
    requires ParamsMerge(all, a, b, {}, cap)
    ensures all == AllParams(cap, a, b)
  {
  }

  /** Below the caps a merge loses nothing, so its result is determined. */
  lemma BelowCapsExact(caps: Caps, m: Profile, a: Profile, b: Profile)
    requires Merged(caps, m, a, b) && BelowCaps(caps, a, b)
    ensures m == Combined(caps, a, b)
  {
    var cut, more, refused :| Cuts(caps, m, a, b, cut, more, refused);
    NoNamesCut(m.cookies, a.cookies, b.cookies, cut, caps.cookies);
    NothingLost(m.statuses.Keys, a.statuses.Keys, b.statuses.Keys, more, caps.statuses);
    NothingLost(m.params.Keys, a.params.Keys, b.params.Keys, refused, caps.params);
    StatusesExact(m.statuses, a.statuses, b.statuses);
    ParamsExact(m.params, a.params, b.params, caps.enumValues);
  }

  lemma CeilingsLaws(a: map<Measure, int>, b: map<Measure, int>, c: map<Measure, int>)
    ensures Ceilings(a, b) == Ceilings(b, a)
    ensures Ceilings(Ceilings(a, b), c) == Ceilings(a, Ceilings(b, c))
  {
    var ab, bc := Ceilings(a, b), Ceilings(b, c);
    var l, r := Ceilings(ab, c), Ceilings(a, bc);
    assert ab.Keys + c.Keys == a.Keys + bc.Keys;
    forall m | m in l
      ensures l[m] == r[m]
    {
      assert m in ab.Keys + c.Keys;
    }
  }

  lemma ParamsCommute(cap: int, a: map<ParamKey, Param>, b: map<ParamKey, Param>)
    ensures AllParams(cap, a, b) == AllParams(cap, b, a)
  {
    forall k | k in a.Keys + b.Keys
      ensures ParamOf(cap, a, b, k) == ParamOf(cap, b, a, k)
    {
      if k in a && k in b {
        MergeCommutes(cap, a[k], b[k]);
      }
    }
  }

  lemma ParamsAssociate(cap: int, a: map<ParamKey, Param>, b: map<ParamKey, Param>, c: map<ParamKey, Param>)
    ensures AllParams(cap, AllParams(cap, a, b), c) == AllParams(cap, a, AllParams(cap, b, c))
  {
    var ab, bc := AllParams(cap, a, b), AllParams(cap, b, c);
    forall k | k in a.Keys + b.Keys + c.Keys
      ensures ParamOf(cap, ab, c, k) == ParamOf(cap, a, bc, k)
    {
      if k in a && k in b && k in c {
        MergeAssociates(cap, a[k], b[k], c[k]);
      }
    }
    assert ab.Keys + c.Keys == a.Keys + bc.Keys;
  }

  /** Below the caps the order of merging does not matter. */
  lemma CombinedCommutes(caps: Caps, a: Profile, b: Profile)
    ensures Combined(caps, a, b) == Combined(caps, b, a)
  {
    CeilingsLaws(a.maxima, b.maxima, map[]);
    AddUpCommutes(a.statuses, b.statuses);
    ParamsCommute(caps.enumValues, a.params, b.params);
    assert a.cookies + b.cookies == b.cookies + a.cookies && a.providers + b.providers == b.providers + a.providers;
  }

  lemma UnionAssociates(a: set<string>, b: set<string>, c: set<string>)
    ensures a + b + c == a + (b + c)
  {
  }

  lemma Assembled(a: Profile, b: Profile)
    requires a.observations == b.observations && a.first == b.first && a.last == b.last && a.maxima == b.maxima
    requires a.cookies == b.cookies && a.statuses == b.statuses && a.providers == b.providers
    requires a.truncated == b.truncated && a.params == b.params
    ensures a == b
  {
  }

  /** Nor does its grouping. */
  lemma CombinedAssociates(caps: Caps, a: Profile, b: Profile, c: Profile)
    ensures Combined(caps, Combined(caps, a, b), c) == Combined(caps, a, Combined(caps, b, c))
  {
    CeilingsLaws(a.maxima, b.maxima, c.maxima);
    AddUpAssociates(a.statuses, b.statuses, c.statuses);
    ParamsAssociate(caps.enumValues, a.params, b.params, c.params);
    UnionAssociates(a.cookies, b.cookies, c.cookies);
    UnionAssociates(a.providers, b.providers, c.providers);
    Assembled(Combined(caps, Combined(caps, a, b), c), Combined(caps, a, Combined(caps, b, c)));
  }

  // ---- in place ----

  method AddCookies(had: set<string>, names: seq<string>, cap: int) returns (have: set<string>, full: bool)
    ensures (have, full) == AddNames(had, names, cap)
  {
    have := had;
    for i := 0 to |names|
      invariant AddNames(had, names, cap) == AddNames(have, names[i..], cap)
    {
      assert names[i..][1..] == names[i + 1..];
      if names[i] in have {
        continue;
      }
      if |have| >= cap {
        return have, true;
      }
      have := have + {names[i]};
    }
    return have, false;
  }

  lemma NamedSnoc(providers: seq<string>, i: nat)
    requires i < |providers|
    ensures Named(providers[..i + 1]) == Named(providers[..i]) + if providers[i] == "" then {} else {providers[i]}
  {
    assert providers[..i + 1] == providers[..i] + [providers[i]];
  }

  method AddProviders(had: set<string>, providers: seq<string>) returns (have: set<string>)
    ensures have == had + Named(providers)
  {
    have := had;
    for i := 0 to |providers|
      invariant have == had + Named(providers[..i])
    {
      NamedSnoc(providers, i);
      if providers[i] == "" {
        continue;
      }
      have := have + {providers[i]};
    }
    assert providers[..|providers|] == providers;
  }

  method AddParams(r: Rules, had: map<ParamKey, Param>, found: seq<Found>, at: int, cap: int)
    returns (params: map<ParamKey, Param>, present: set<ParamKey>, refused: bool)
    ensures (params, present, refused) == AddFound(r, had, found, at, cap)
  {
    params, present, refused := had, {}, false;
    for i := 0 to |found|
      invariant (params, present, refused) == AddFound(r, had, found[..i], at, cap)
    {
      assert found[..i + 1][..i] == found[..i];
      var after, taken := AddValue(r, params, found[i], at, cap).0, AddValue(r, params, found[i], at, cap).1;
      params := after;
      if taken {
        present := present + {found[i].key};
      } else {
        refused := true;
      }
    }
    assert found[..|found|] == found;
  }

  lemma CountOne(had: map<ParamKey, Param>, present: set<ParamKey>, rest: set<ParamKey>, k: ParamKey)
    requires k in rest && rest <= had.Keys
    ensures var now := CountAbsent(had, present + rest);
      && k in now
      && CountAbsent(had, present + (rest - {k}))
         == if k in present then now else now[k := now[k].(observations := now[k].observations + 1)]
  {
    if k in present {
      assert present + (rest - {k}) == present + rest;
    }
  }

  method CountMissing(had: map<ParamKey, Param>, present: set<ParamKey>) returns (params: map<ParamKey, Param>)
    ensures params == CountAbsent(had, present)
  {
    params := had;
    var rest := had.Keys;
    while rest != {}
      invariant rest <= had.Keys && params == CountAbsent(had, present + rest)
    {
      var k :| k in rest;
      CountOne(had, present, rest, k);
      if k !in present {
        params := params[k := params[k].(observations := params[k].observations + 1)];
      }
      rest := rest - {k};
    }
    assert present + {} == present;
  }

  lemma Grows<K>(a: set<K>, b: set<K>, rest: set<K>, x: K)
    requires x in rest && rest <= b
    ensures a + (b - rest) + {x} == a + (b - (rest - {x}))
    ensures |a + (b - rest) + {x}| <= |a + (b - rest)| + 1
  {
    var s := a + (b - rest);
    if x in s {
      assert s + {x} == s;
    }
  }

  method MergeCookies(a: set<string>, b: set<string>, cap: int) returns (all: set<string>, cut: bool)
    ensures Unites(all, a, b, cut, cap)
  {
    all := a;
    var rest := b;
    while rest != {}
      invariant rest <= b && all == a + (b - rest)
      invariant b - rest != {} ==> |a| < cap && |all| <= cap
    {
      if |all| >= cap {
        assert Visits(all, a, b, true, cap, b - rest);
        return all, true;
      }
      var name :| name in rest;
      Grows(a, b, rest, name);
      Larger(a, all);
      rest, all := rest - {name}, all + {name};
    }
    assert Visits(all, a, b, false, cap, b);
    return all, false;
  }

  ghost predicate ParamAt(
    all: map<ParamKey, Param>, a: map<ParamKey, Param>, b: map<ParamKey, Param>,
    rest: set<ParamKey>, lost: set<ParamKey>, cap: int, k: ParamKey)
  {
    && (k in all <==> k in a || (k in b && k !in rest && k !in lost))
    && (k in all ==> all[k] == if k in rest then a[k] else ParamOf(cap, a, b, k))
    && (k in lost ==> k in b && k !in a && k !in rest)
  }

  ghost predicate ParamsSoFar(
    all: map<ParamKey, Param>, a: map<ParamKey, Param>, b: map<ParamKey, Param>,
    rest: set<ParamKey>, lost: set<ParamKey>, cap: int)
  {
    forall k {:trigger ParamAt(all, a, b, rest, lost, cap, k)} :: ParamAt(all, a, b, rest, lost, cap, k)
  }

  lemma ParamsStart(a: map<ParamKey, Param>, b: map<ParamKey, Param>, cap: int)
    ensures ParamsSoFar(a, a, b, b.Keys, {}, cap)
  {
  }

  lemma KeepParam(
    all: map<ParamKey, Param>, a: map<ParamKey, Param>, b: map<ParamKey, Param>,
    rest: set<ParamKey>, lost: set<ParamKey>, cap: int, k: ParamKey)
    requires ParamsSoFar(all, a, b, rest, lost, cap) && k in rest && k in b
    ensures ParamsSoFar(all[k := if k in all then Merge(cap, all[k], b[k]) else b[k]], a, b, rest - {k}, lost, cap)
  {
    var next := all[k := if k in all then Merge(cap, all[k], b[k]) else b[k]];
    assert ParamAt(all, a, b, rest, lost, cap, k);
    forall l {:trigger ParamAt(next, a, b, rest - {k}, lost, cap, l)}
      ensures ParamAt(next, a, b, rest - {k}, lost, cap, l)
    {
      assert ParamAt(all, a, b, rest, lost, cap, l);
    }
  }

  lemma DropParam(
    all: map<ParamKey, Param>, a: map<ParamKey, Param>, b: map<ParamKey, Param>,
    rest: set<ParamKey>, lost: set<ParamKey>, cap: int, k: ParamKey)
    requires ParamsSoFar(all, a, b, rest, lost, cap) && k in rest && k in b && k !in all
    ensures ParamsSoFar(all, a, b, rest - {k}, lost + {k}, cap)
  {
    assert ParamAt(all, a, b, rest, lost, cap, k);
    forall l {:trigger ParamAt(all, a, b, rest - {k}, lost + {k}, cap, l)}
      ensures ParamAt(all, a, b, rest - {k}, lost + {k}, cap, l)
    {
      assert ParamAt(all, a, b, rest, lost, cap, l);
    }
  }

  lemma ParamsDone(
    all: map<ParamKey, Param>, a: map<ParamKey, Param>, b: map<ParamKey, Param>, lost: set<ParamKey>, cap: int)
    requires ParamsSoFar(all, a, b, {}, lost, cap)
    ensures ParamsMerge(all, a, b, lost, cap)
  {
    forall k
      ensures k in all <==> k in a.Keys + b.Keys - lost
      ensures k in lost ==> k in b.Keys - a.Keys
      ensures k in all ==> all[k] == ParamOf(cap, a, b, k)
    {
      assert ParamAt(all, a, b, {}, lost, cap, k);
    }
  }

  lemma PutSize(all: map<ParamKey, Param>, k: ParamKey, p: Param)
    ensures |all[k := p]| == |all| + if k in all then 0 else 1
  {
    assert all[k := p].Keys == all.Keys + {k};
  }

  method MergeParams(a: map<ParamKey, Param>, b: map<ParamKey, Param>, cap: int, enumCap: int)
    returns (all: map<ParamKey, Param>, cut: bool, ghost lost: set<ParamKey>)
    ensures ParamsMerge(all, a, b, lost, enumCap) && (cut <==> lost != {})
    ensures Fits(|all|, |a|, cut, cap - 1)
  {
    all, cut, lost := a, false, {};
    var rest := b.Keys;
    ParamsStart(a, b, enumCap);
    while rest != {}
      invariant rest <= b.Keys && ParamsSoFar(all, a, b, rest, lost, enumCap)
      invariant (cut <==> lost != {}) && Fits(|all|, |a|, cut, cap - 1)
    {
      var k :| k in rest;
      if k !in all && |all| >= cap {
        DropParam(all, a, b, rest, lost, enumCap, k);
        cut, lost := true, lost + {k};
      } else {
        KeepParam(all, a, b, rest, lost, enumCap, k);
        var p := if k in all then Merge(enumCap, all[k], b[k]) else b[k];
        PutSize(all, k, p);
        all := all[k := p];
      }
      rest := rest - {k};
    }
    ParamsDone(all, a, b, lost, enumCap);
  }

  lemma CutsMerge(caps: Caps, m: Profile, a: Profile, b: Profile, cut: bool, more: set<int>, refused: set<ParamKey>)
    requires m.observations == a.observations + b.observations
    requires m.first == Min(a.first, b.first) && m.last == Max(a.last, b.last)
    requires m.maxima == Ceilings(a.maxima, b.maxima) && m.providers == a.providers + b.providers
    requires Unites(m.cookies, a.cookies, b.cookies, cut, caps.cookies)
    requires Adds(m.statuses, a.statuses, b.statuses, more)
    requires Fits(|m.statuses|, |a.statuses|, more != {}, caps.statuses - 1)
    requires ParamsMerge(m.params, a.params, b.params, refused, caps.enumValues)
    requires Fits(|m.params|, |a.params|, refused != {}, caps.params - 1)
    requires m.truncated == (a.truncated || b.truncated || cut || more != {} || refused != {})
    ensures Merged(caps, m, a, b)
  {
    assert Cuts(caps, m, a, b, cut, more, refused);
  }

  /** Merges two profiles, the names and parameters of the second in any order. */
  method MergeProfiles(caps: Caps, a: Profile, b: Profile) returns (m: Profile)
    requires Sound(caps.enumValues, a.params) && Sound(caps.enumValues, b.params)
    ensures Merged(caps, m, a, b)
  {
    var first := if b.first < a.first then b.first else a.first;
    var last := if b.last > a.last then b.last else a.last;
    var cookies, cut := MergeCookies(a.cookies, b.cookies, caps.cookies);
    var statuses, dropped, params, over;
    ghost var more, refused;
    statuses, dropped, more := AddValues(a.statuses, b.statuses, caps.statuses - 1);
    params, over, refused := MergeParams(a.params, b.params, caps.params, caps.enumValues);
    m := Profile(a.observations + b.observations, first, last, Ceilings(a.maxima, b.maxima), cookies, statuses,
                 a.providers + b.providers, a.truncated || b.truncated || cut || dropped || over, params);
    CutsMerge(caps, m, a, b, cut, more, refused);
  }

  class EndpointProfile {
    var id: EndpointID
    var observations: nat
    var first: int
    var last: int
    var maxima: map<Measure, int>
    var cookies: set<string>
    var statuses: map<int, nat>
    var providers: set<string>
    var truncated: bool
    var params: map<ParamKey, Param>
    /** The profile as one value. */
    ghost var shown: Profile

    ghost predicate Shows()
      reads this`observations, this`first, this`last, this`maxima, this`cookies
      reads this`statuses, this`providers, this`truncated, this`params, this`shown
    {
      shown == Profile(observations, first, last, maxima, cookies, statuses, providers, truncated, params)
    }

    /** Its enumerations are consistent, as merging them relies on. */
    ghost predicate Valid(caps: Caps)
      reads this`observations, this`first, this`last, this`maxima, this`cookies
      reads this`statuses, this`providers, this`truncated, this`params, this`shown
    {
      Shows() && Sound(caps.enumValues, params)
    }

    /** The row a store keeps of it. */
    function Row(): (row: Profile)
      requires Shows()
      reads this`observations, this`first, this`last, this`maxima, this`cookies
      reads this`statuses, this`providers, this`truncated, this`params, this`shown
      ensures row == shown
    {
      Profile(observations, first, last, maxima, cookies, statuses, providers, truncated, params)
    }

    constructor (id: EndpointID, at: int)
      ensures Shows() && shown == Blank(at) && this.id == id && params == map[]
    {
      this.id := id;
      observations, first, last, maxima, cookies := 0, at, at, map[], {};
      statuses, providers, truncated, params := map[], {}, false, map[];
      shown := Blank(at);
    }

    method Stretch(more: nat, from: int, to: int, measured: map<Measure, int>)
      modifies this`observations, this`first, this`last, this`maxima
      ensures observations == old(observations) + more && first == Min(old(first), from) && last == Max(old(last), to)
      ensures maxima == Ceilings(old(maxima), measured)
    {
      observations := observations + more;
      if from < first {
        first := from;
      }
      if to > last {
        last := to;
      }
      maxima := Ceilings(maxima, measured);
    }

    method RecordNames(caps: Caps, q: Sample)
      modifies this`cookies, this`statuses, this`providers, this`truncated
      ensures cookies == AddNames(old(cookies), q.cookies, caps.cookies).0
      ensures statuses == AddStatus(old(statuses), q.status, caps.statuses).0
      ensures providers == old(providers) + Named(q.providers)
      ensures truncated == (old(truncated) || AddNames(old(cookies), q.cookies, caps.cookies).1
                            || AddStatus(old(statuses), q.status, caps.statuses).1)
    {
      var have, full := AddCookies(cookies, q.cookies, caps.cookies);
      var status := AddStatus(statuses, q.status, caps.statuses);
      var named := AddProviders(providers, q.providers);
      cookies, statuses, providers, truncated := have, status.0, named, truncated || full || status.1;
    }

    method RecordParams(r: Rules, caps: Caps, q: Sample)
      modifies this`params, this`truncated
      ensures var next := AddFound(r, old(params), q.found, q.at, caps.params);
        params == CountAbsent(next.0, next.1) && truncated == (old(truncated) || next.2)
    {
      var more, present, refused := AddParams(r, params, q.found, q.at, caps.params);
      var counted := CountMissing(more, present);
      params, truncated := counted, truncated || refused;
    }

    /** Folds one request in. */
    method Observe(r: Rules, caps: Caps, q: Sample)
      requires Valid(caps) && r.cap == caps.enumValues
      modifies this`observations, this`first, this`last, this`maxima, this`cookies
      modifies this`statuses, this`providers, this`truncated, this`params, this`shown
      ensures Valid(caps) && shown == Touched(r, caps, old(shown), q)
    {
      TouchedSound(r, caps, shown, q);
      Stretch(1, q.at, q.at, q.measured);
      RecordNames(caps, q);
      RecordParams(r, caps, q);
      shown := Touched(r, caps, shown, q);
    }

    /** Folds another endpoint's evidence in. */
    method MergeWith(o: EndpointProfile, caps: Caps)
      requires Valid(caps) && o.Valid(caps)
      modifies this`observations, this`first, this`last, this`maxima, this`cookies
      modifies this`statuses, this`providers, this`truncated, this`params, this`shown
      ensures Valid(caps) && Merged(caps, shown, old(shown), old(o.shown))
    {
      hide Merged, Sound;
      var m := MergeProfiles(caps,
        Profile(observations, first, last, maxima, cookies, statuses, providers, truncated, params),
        Profile(o.observations, o.first, o.last, o.maxima, o.cookies, o.statuses, o.providers, o.truncated, o.params));
      MergedSound(caps, m, shown, o.shown);
      observations, first, last, maxima, cookies := m.observations, m.first, m.last, m.maxima, m.cookies;
      statuses, providers, truncated, params := m.statuses, m.providers, m.truncated, m.params;
      shown := m;
    }
  }
}
