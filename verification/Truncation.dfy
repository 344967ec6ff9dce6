/** A truncated profile never reads as a complete one: observing and merging keep an endpoint within its caps, and one
    that is not marked holds every name it was told. */
module Truncation {
  import opened Sets
  import opened Evidences
  import opened Parameters
  import opened Profiles

  /** The cookie names, statuses and parameters that requests carried. */
  datatype Heard = Heard(cookies: set<string>, statuses: set<int>, keys: set<ParamKey>)

  const SILENCE := Heard({}, {}, {})

  function Both(a: Heard, b: Heard): Heard {
    Heard(a.cookies + b.cookies, a.statuses + b.statuses, a.keys + b.keys)
  }

  function NamesOf(names: seq<string>): set<string> {
    set n | n in names
  }

  function KeysOf(found: seq<Found>): set<ParamKey> {
    set f | f in found :: f.key
  }

  function HeardOf(q: Sample): Heard {
    Heard(NamesOf(q.cookies), if q.status > 0 then {q.status} else {}, KeysOf(q.found))
  }

  /** What is kept was said, fits, and is all of it unless something was cut off. */
  predicate Keeps<K(==)>(have: set<K>, said: set<K>, cap: int, truncated: bool) {
    have <= said && |have| <= Cap(cap) && (!truncated ==> have == said)
  }

  predicate Holds(caps: Caps, p: Profile, h: Heard) {
    && Keeps(p.cookies, h.cookies, caps.cookies, p.truncated)
    && Keeps(p.statuses.Keys, h.statuses, caps.statuses, p.truncated)
    && Keeps(p.params.Keys, h.keys, caps.params, p.truncated)
  }

  // ---- one request ----

  lemma AddOneName(have: set<string>, name: string)
    ensures |have + {name}| <= |have| + 1
  {
    if name in have {
      assert have + {name} == have;
    }
  }

  lemma {:induction false} NamesKept(have: set<string>, names: seq<string>, cap: int)
    ensures var (all, full) := AddNames(have, names, cap);
      && have <= all <= have + NamesOf(names) && (!full ==> all == have + NamesOf(names))
      && (|have| <= Cap(cap) ==> |all| <= Cap(cap))
    decreases |names|
  {
    if names == [] {
      assert NamesOf(names) == {};
    } else {
      var rest := names[1..];
      assert names == [names[0]] + rest;
      assert NamesOf(names) == {names[0]} + NamesOf(rest);
      AddOneName(have, names[0]);
      NamesKept(have, rest, cap);
      NamesKept(have + {names[0]}, rest, cap);
    }
  }

  lemma StatusKept(statuses: map<int, nat>, status: int, cap: int)
    ensures var (all, more) := AddStatus(statuses, status, cap);
      var said := if status > 0 then {status} else {};
      && statuses.Keys <= all.Keys <= statuses.Keys + said && (!more ==> all.Keys == statuses.Keys + said)
      && (|statuses.Keys| <= Cap(cap) ==> |all.Keys| <= Cap(cap))
  {
    BumpSize(statuses, status, 1);
    assert |statuses| == |statuses.Keys|;
    var all := AddStatus(statuses, status, cap).0;
    assert |all| == |all.Keys|;
  }

  lemma ValueKept(r: Rules, params: map<ParamKey, Param>, f: Found, at: int, cap: int)
    ensures var (all, taken) := AddValue(r, params, f, at, cap);
      && params.Keys <= all.Keys <= params.Keys + {f.key} && (taken ==> all.Keys == params.Keys + {f.key})
      && (|params.Keys| <= Cap(cap) ==> |all.Keys| <= Cap(cap))
  {
    hide Observed;
    assert |params| == |params.Keys|;
    if f.key in params {
      assert params.Keys + {f.key} == params.Keys;
    }
  }

  lemma GrowsOne<K>(had: set<K>, mid: set<K>, all: set<K>, said: set<K>, k: K, refused: bool, taken: bool, cap: int)
    requires had <= mid <= had + said && (!refused ==> mid == had + said)
    requires mid <= all <= mid + {k} && (taken ==> all == mid + {k})
    ensures had <= all <= had + (said + {k}) && (!(refused || !taken) ==> all == had + (said + {k}))
  {
  }

  lemma FoundSnoc(r: Rules, params: map<ParamKey, Param>, found: seq<Found>, at: int, cap: int)
    requires found != []
    ensures var n := |found| - 1;
      var before, all := AddFound(r, params, found[..n], at, cap), AddFound(r, params, found, at, cap);
      var last := AddValue(r, before.0, found[n], at, cap);
      all.0 == last.0 && all.2 == (before.2 || !last.1)
    ensures KeysOf(found) == KeysOf(found[..|found| - 1]) + {found[|found| - 1].key}
  {
    hide AddValue;
    assert found == found[..|found| - 1] + [found[|found| - 1]];
  }

  lemma {:induction false} FoundKept(r: Rules, params: map<ParamKey, Param>, found: seq<Found>, at: int, cap: int)
    ensures var (all, present, refused) := AddFound(r, params, found, at, cap);
      && params.Keys <= all.Keys <= params.Keys + KeysOf(found)
      && (!refused ==> all.Keys == params.Keys + KeysOf(found))
      && (|params.Keys| <= Cap(cap) ==> |all.Keys| <= Cap(cap))
  {
    if found == [] {
      assert KeysOf(found) == {};
    } else {
      hide *;
      var n := |found| - 1;
      FoundKept(r, params, found[..n], at, cap);
      FoundSnoc(r, params, found, at, cap);
      var before := AddFound(r, params, found[..n], at, cap);
      var last := AddValue(r, before.0, found[n], at, cap);
      ValueKept(r, before.0, found[n], at, cap);
      GrowsOne(params.Keys, before.0.Keys, last.0.Keys, KeysOf(found[..n]), found[n].key, before.2, last.1, cap);
    }
  }

  lemma KeepsMore<K>(
    had: set<K>, all: set<K>, said: set<K>, more: set<K>, cap: int, before: bool, after: bool, cut: bool)
    requires Keeps(had, said, cap, before) && had <= all <= had + more && (!cut ==> all == had + more)
    requires |had| <= Cap(cap) ==> |all| <= Cap(cap)
    requires before || cut ==> after
    ensures Keeps(all, said + more, cap, after)
  {
  }

  /** A request told to an endpoint. */
  lemma TouchedHolds(r: Rules, caps: Caps, p: Profile, q: Sample, h: Heard)
    requires Holds(caps, p, h)
    ensures Holds(caps, Touched(r, caps, p, q), Both(h, HeardOf(q)))
  {
    hide AddNames, AddStatus, AddFound, Keeps;
    var after := Touched(r, caps, p, q);
    var (cookies, full) := AddNames(p.cookies, q.cookies, caps.cookies);
    var (statuses, more) := AddStatus(p.statuses, q.status, caps.statuses);
    var (params, present, refused) := AddFound(r, p.params, q.found, q.at, caps.params);
    NamesKept(p.cookies, q.cookies, caps.cookies);
    StatusKept(p.statuses, q.status, caps.statuses);
    FoundKept(r, p.params, q.found, q.at, caps.params);
    assert after.params.Keys == params.Keys;
    var said := HeardOf(q);
    KeepsMore(p.cookies, after.cookies, h.cookies, said.cookies, caps.cookies, p.truncated, after.truncated, full);
    KeepsMore(p.statuses.Keys, after.statuses.Keys, h.statuses, said.statuses, caps.statuses, p.truncated,
              after.truncated, more);
    KeepsMore(p.params.Keys, after.params.Keys, h.keys, said.keys, caps.params, p.truncated, after.truncated, refused);
  }

  lemma BlankHolds(caps: Caps, at: int)
    ensures Holds(caps, Blank(at), SILENCE)
  {
  }

  // ---- a merge ----

  lemma UnitedKept(
    all: set<string>, a: set<string>, b: set<string>, cut: bool, cap: int, said: set<string>, more: set<string>,
    x: bool, y: bool, after: bool)
    requires Unites(all, a, b, cut, cap) && Keeps(a, said, cap, x) && Keeps(b, more, cap, y)
    requires x || y || cut ==> after
    ensures Keeps(all, said + more, cap, after)
  {
    var visited :| Visits(all, a, b, cut, cap, visited);
    if visited == {} {
      assert all == a;
    }
  }

  lemma AddedKept<K>(
    all: set<K>, a: set<K>, b: set<K>, lost: set<K>, cap: int, said: set<K>, more: set<K>, x: bool, y: bool,
    after: bool)
    requires lost <= b - a && all == a + b - lost && Fits(|all|, |a|, lost != {}, cap - 1)
    requires Keeps(a, said, cap, x) && Keeps(b, more, cap, y)
    requires x || y || lost != {} ==> after
    ensures Keeps(all, said + more, cap, after)
  {
  }

  lemma CutsParts(
    caps: Caps, m: Profile, a: Profile, b: Profile, cut: bool, more: set<int>, refused: set<ParamKey>)
    requires Cuts(caps, m, a, b, cut, more, refused)
    ensures Adds(m.statuses, a.statuses, b.statuses, more)
    ensures Fits(|m.statuses|, |a.statuses|, more != {}, caps.statuses - 1)
    ensures ParamsMerge(m.params, a.params, b.params, refused, caps.enumValues)
    ensures Fits(|m.params|, |a.params|, refused != {}, caps.params - 1)
    ensures m.truncated == (a.truncated || b.truncated || cut || more != {} || refused != {})
  {
    hide Unites, Fits, Adds, ParamsMerge;
  }

  lemma CookiesMerged(
    caps: Caps, m: Profile, a: Profile, b: Profile, cut: bool, more: set<int>, refused: set<ParamKey>, h: Heard,
    g: Heard)
    requires Cuts(caps, m, a, b, cut, more, refused)
    requires Keeps(a.cookies, h.cookies, caps.cookies, a.truncated)
    requires Keeps(b.cookies, g.cookies, caps.cookies, b.truncated)
    ensures Keeps(m.cookies, h.cookies + g.cookies, caps.cookies, m.truncated)
  {
    hide Unites, Keeps, Fits, Adds, ParamsMerge;
    UnitedKept(m.cookies, a.cookies, b.cookies, cut, caps.cookies, h.cookies, g.cookies, a.truncated, b.truncated,
               m.truncated);
  }

  lemma StatusKeys(m: map<int, nat>, a: map<int, nat>, b: map<int, nat>, lost: set<int>, cap: int)
    requires Adds(m, a, b, lost) && Fits(|m|, |a|, lost != {}, cap - 1)
    ensures lost <= b.Keys - a.Keys && m.Keys == a.Keys + b.Keys - lost
    ensures Fits(|m.Keys|, |a.Keys|, lost != {}, cap - 1)
  {
    hide Fits, Get;
    assert |m| == |m.Keys| && |a| == |a.Keys|;
  }

  lemma ParameterKeys(
    enums: int, m: map<ParamKey, Param>, a: map<ParamKey, Param>, b: map<ParamKey, Param>, lost: set<ParamKey>,
    cap: int)
    requires ParamsMerge(m, a, b, lost, enums) && Fits(|m|, |a|, lost != {}, cap - 1)
    ensures lost <= b.Keys - a.Keys && m.Keys == a.Keys + b.Keys - lost
    ensures Fits(|m.Keys|, |a.Keys|, lost != {}, cap - 1)
  {
    hide Fits, ParamOf;
    assert |m| == |m.Keys| && |a| == |a.Keys|;
  }

  lemma StatusesMerged(
    caps: Caps, m: Profile, a: Profile, b: Profile, cut: bool, more: set<int>, refused: set<ParamKey>, h: Heard,
    g: Heard)
    requires Cuts(caps, m, a, b, cut, more, refused)
    requires Keeps(a.statuses.Keys, h.statuses, caps.statuses, a.truncated)
    requires Keeps(b.statuses.Keys, g.statuses, caps.statuses, b.truncated)
    ensures Keeps(m.statuses.Keys, h.statuses + g.statuses, caps.statuses, m.truncated)
  {
    hide *;
    CutsParts(caps, m, a, b, cut, more, refused);
    StatusKeys(m.statuses, a.statuses, b.statuses, more, caps.statuses);
    AddedKept(m.statuses.Keys, a.statuses.Keys, b.statuses.Keys, more, caps.statuses, h.statuses, g.statuses,
              a.truncated, b.truncated, m.truncated);
  }

  lemma ParamsMerged(
    caps: Caps, m: Profile, a: Profile, b: Profile, cut: bool, more: set<int>, refused: set<ParamKey>, h: Heard,
    g: Heard)
    requires Cuts(caps, m, a, b, cut, more, refused)
    requires Keeps(a.params.Keys, h.keys, caps.params, a.truncated)
    requires Keeps(b.params.Keys, g.keys, caps.params, b.truncated)
    ensures Keeps(m.params.Keys, h.keys + g.keys, caps.params, m.truncated)
  {
    hide *;
    CutsParts(caps, m, a, b, cut, more, refused);
    ParameterKeys(caps.enumValues, m.params, a.params, b.params, refused, caps.params);
    AddedKept(m.params.Keys, a.params.Keys, b.params.Keys, refused, caps.params, h.keys, g.keys,
              a.truncated, b.truncated, m.truncated);
  }

  /** A profile merged into another. */
  lemma MergedHolds(caps: Caps, m: Profile, a: Profile, b: Profile, h: Heard, g: Heard)
    requires Merged(caps, m, a, b) && Holds(caps, a, h) && Holds(caps, b, g)
    ensures Holds(caps, m, Both(h, g))
  {
    hide Keeps, Ceilings, Cuts;
    var cut, more, refused :| Cuts(caps, m, a, b, cut, more, refused);
    CookiesMerged(caps, m, a, b, cut, more, refused, h, g);
    StatusesMerged(caps, m, a, b, cut, more, refused, h, g);
    ParamsMerged(caps, m, a, b, cut, more, refused, h, g);
  }

  // ---- what marks an endpoint ----

  lemma {:induction false} NamesMark(have: set<string>, names: seq<string>, cap: int)
    ensures var (all, full) := AddNames(have, names, cap); full <==> !(NamesOf(names) <= all)
    decreases |names|
  {
    if names != [] {
      var rest := names[1..];
      assert names == [names[0]] + rest;
      assert NamesOf(names) == {names[0]} + NamesOf(rest);
      var next := if names[0] in have then have else have + {names[0]};
      NamesMark(next, rest, cap);
      NamesKept(next, rest, cap);
    }
  }

  /** A parameter once refused stays out. */
  lemma {:induction false} FoundMark(r: Rules, params: map<ParamKey, Param>, found: seq<Found>, at: int, cap: int)
    ensures var (all, present, refused) := AddFound(r, params, found, at, cap);
      && (refused <==> !(KeysOf(found) <= all.Keys)) && (refused ==> |all| >= cap)
  {
    if found != [] {
      hide Observed, KeysOf;
      var n := |found| - 1;
      FoundMark(r, params, found[..n], at, cap);
      FoundSnoc(r, params, found, at, cap);
      var before := AddFound(r, params, found[..n], at, cap);
      var last := AddValue(r, before.0, found[n], at, cap);
      ValueKept(r, before.0, found[n], at, cap);
      Larger(before.0.Keys, last.0.Keys);
      assert |before.0| == |before.0.Keys| && |last.0| == |last.0.Keys|;
    }
  }

  /** A request marks an endpoint exactly when the endpoint afterwards lacks one of its cookie names, its status or one
      of its parameters. */
  lemma TouchedMarks(r: Rules, caps: Caps, p: Profile, q: Sample)
    ensures var t := Touched(r, caps, p, q);
      t.truncated <==>
        || p.truncated || (exists c | c in q.cookies :: c !in t.cookies)
        || (q.status > 0 && q.status !in t.statuses) || exists f | f in q.found :: f.key !in t.params
  {
    hide AddNames, AddFound, Named, Ceilings;
    NamesMark(p.cookies, q.cookies, caps.cookies);
    FoundMark(r, p.params, q.found, q.at, caps.params);
    var t := Touched(r, caps, p, q);
    var next := AddFound(r, p.params, q.found, q.at, caps.params);
    assert t.params.Keys == next.0.Keys;
    assert NamesOf(q.cookies) <= t.cookies <==> forall c | c in q.cookies :: c in t.cookies;
    assert KeysOf(q.found) <= next.0.Keys <==> forall f | f in q.found :: f.key in t.params;
  }
}
