/** What the engine has seen at one path position, and when that is enough to decide. */
module Evidences {
  import opened Text
  import opened Sorting
  import opened ValueTypes
  import opened Events
  import opened Sets

  datatype TemplateOptions = TemplateOptions(
    minSamples: int, maxDistinct: int, minDistinctForType: int,
    typeShare: real, varSingletonShare: real, varRepeatFactor: int)

  const DEFAULTS := TemplateOptions(64, 64, 8, 0.9, 0.85, 4)

  /** How often each value and each inferred type was seen; overflow: some value was not kept. */
  datatype Evidence = Evidence(count: nat, values: map<string, nat>, types: map<ValueType, nat>, overflow: bool)

  const NOTHING := Evidence(0, map[], map[], false)

  // ---- counting ----

  function Get<K>(m: map<K, nat>, k: K): nat {
    if k in m then m[k] else 0
  }

  function Bump<K>(m: map<K, nat>, k: K, n: nat): map<K, nat> {
    m[k := Get(m, k) + n]
  }

  ghost function Sum<K>(m: map<K, nat>): nat {
    if m == map[] then 0
    else
      var k :| k in m;
      m[k] + Sum(m - {k})
  }

  lemma {:induction false} SumRemove<K>(m: map<K, nat>, k: K)
    requires k in m
    ensures Sum(m) == m[k] + Sum(m - {k})
    decreases |m|
  {
    var l :| l in m && Sum(m) == m[l] + Sum(m - {l});
    if l != k {
      SumRemove(m - {l}, k);
      SumRemove(m - {k}, l);
      assert m - {l} - {k} == m - {k} - {l};
    }
  }

  lemma SumBump<K>(m: map<K, nat>, k: K, n: nat)
    ensures Sum(Bump(m, k, n)) == Sum(m) + n
  {
    var b := Bump(m, k, n);
    SumRemove(b, k);
    assert b - {k} == m - {k};
    if k in m {
      SumRemove(m, k);
    } else {
      assert m - {k} == m;
    }
  }

  ghost predicate Positive<K>(m: map<K, nat>) {
    forall k {:trigger m[k]} | k in m :: m[k] > 0
  }

  /** `all` adds up a and b, without the keys of `lost`, which only b has. */
  ghost predicate Adds<K>(all: map<K, nat>, a: map<K, nat>, b: map<K, nat>, lost: set<K>) {
    && lost <= b.Keys - a.Keys && all.Keys == a.Keys + b.Keys - lost
    && forall k {:trigger all[k]} | k in all :: all[k] == Get(a, k) + Get(b, k)
  }

  lemma AddsNone<K>(all: map<K, nat>, a: map<K, nat>, b: map<K, nat>, lost: set<K>)
    requires Adds(all, a, b, lost) && b.Keys == {}
    ensures all == a && b == map[] && lost == {}
  {
  }

  lemma LostOne<K>(all: map<K, nat>, a: map<K, nat>, b: map<K, nat>, lost: set<K>, k: K)
    requires Adds(all, a, b, lost) && k in lost
    ensures Adds(all, a, b - {k}, lost - {k})
  {
  }

  lemma WithoutOne<K>(all: map<K, nat>, a: map<K, nat>, b: map<K, nat>, lost: set<K>, k: K) returns (less: map<K, nat>)
    requires Adds(all, a, b, lost) && k in b && k !in lost
    ensures Adds(less, a, b - {k}, lost) && all == Bump(less, k, b[k])
  {
    if k in a {
      less := all[k := a[k]];
      assert all[k] == a[k] + b[k];
    } else {
      less := all - {k};
      assert all[k] == b[k];
    }
  }

  lemma {:induction false} SumAdds<K>(all: map<K, nat>, a: map<K, nat>, b: map<K, nat>, lost: set<K>)
    requires Adds(all, a, b, lost) && Positive(b)
    ensures Sum(all) <= Sum(a) + Sum(b)
    ensures lost == {} <==> Sum(all) == Sum(a) + Sum(b)
    decreases |b|
  {
    if b.Keys == {} {
      AddsNone(all, a, b, lost);
    } else {
      var k :| k in b.Keys;
      SumRemove(b, k);
      assert b[k] > 0;
      if k in lost {
        LostOne(all, a, b, lost, k);
        SumAdds(all, a, b - {k}, lost - {k});
      } else {
        var less := WithoutOne(all, a, b, lost, k);
        SumAdds(less, a, b - {k}, lost);
        SumBump(less, k, b[k]);
      }
    }
  }

  // ---- one position ----

  predicate Tracked(ev: Evidence, value: string, cap: int) {
    value in ev.values || |ev.values| <= cap
  }

  /** One more value of type t. */
  function Seen(ev: Evidence, value: string, t: ValueType, cap: int): Evidence {
    Evidence(ev.count + 1, if Tracked(ev, value, cap) then Bump(ev.values, value, 1) else ev.values,
             Bump(ev.types, t, 1), ev.overflow || !Tracked(ev, value, cap))
  }

  /** `out` holds the evidence of both; which new values it keeps once full is left open. */
  ghost predicate Merges(out: Evidence, a: Evidence, b: Evidence, cap: int) {
    && out.count == a.count + b.count
    && Adds(out.types, a.types, b.types, {})
    && exists lost {:trigger Adds(out.values, a.values, b.values, lost)} ::
         && Adds(out.values, a.values, b.values, lost)
         && out.overflow == (a.overflow || b.overflow || lost != {})
         && (lost != {} ==> |out.values| > cap)
         && (|out.values| <= |a.values| || |out.values| <= cap + 1)
  }

  /** What every position in a reachable engine satisfies: type counts add up to the count, and
      so do value counts exactly while nothing overflowed. */
  ghost predicate Sane(ev: Evidence, cap: int) {
    && Positive(ev.values) && Positive(ev.types)
    && Sum(ev.types) == ev.count
    && Sum(ev.values) <= ev.count
    && (ev.overflow <==> Sum(ev.values) < ev.count)
    && |ev.values| <= (if cap < 0 then 0 else cap + 1)
    && (ev.overflow ==> |ev.values| > cap)
  }

  lemma BumpFacts<K>(m: map<K, nat>, k: K)
    requires Positive(m)
    ensures var b := Bump(m, k, 1);
      && Positive(b) && Sum(b) == Sum(m) + 1
      && |b| == |m| + (if k in m then 0 else 1)
  {
    SumBump(m, k, 1);
    assert Bump(m, k, 1).Keys == m.Keys + {k};
  }

  lemma SeenSane(ev: Evidence, value: string, t: ValueType, cap: int)
    requires Sane(ev, cap)
    ensures Sane(Seen(ev, value, t, cap), cap)
  {
    BumpFacts(ev.values, value);
    BumpFacts(ev.types, t);
  }

  lemma Grown(all: map<string, nat>, a: map<string, nat>, b: map<string, nat>)
    requires Adds(all, a, b, {})
    ensures |a| <= |all| && |b| <= |all|
  {
    Larger(a.Keys, all.Keys);
    Larger(b.Keys, all.Keys);
  }

  lemma MergesSane(out: Evidence, a: Evidence, b: Evidence, cap: int)
    requires Sane(a, cap) && Sane(b, cap) && Merges(out, a, b, cap)
    ensures Sane(out, cap)
  {
    SumAdds(out.types, a.types, b.types, {});
    var lost :| Adds(out.values, a.values, b.values, lost) && out.overflow == (a.overflow || b.overflow || lost != {})
      && (lost != {} ==> |out.values| > cap) && (|out.values| <= |a.values| || |out.values| <= cap + 1);
    SumAdds(out.values, a.values, b.values, lost);
    assert Positive(out.values) by {
      forall k {:trigger out.values[k]} | k in out.values
        ensures out.values[k] > 0
      {
        assert k in a.values ==> a.values[k] > 0;
        assert k in b.values ==> b.values[k] > 0;
      }
    }
    assert Positive(out.types) by {
      forall k {:trigger out.types[k]} | k in out.types
        ensures out.types[k] > 0
      {
        assert k in a.types ==> a.types[k] > 0;
        assert k in b.types ==> b.types[k] > 0;
      }
    }
    if out.overflow && lost == {} {
      Grown(out.values, a.values, b.values);
    }
  }

  // ---- adding up two positions ----

  /** `all` holds a and the entries of b outside rest, except those of lost, as far as v goes. */
  ghost predicate SumsAt<K>(all: map<K, nat>, a: map<K, nat>, b: map<K, nat>, rest: set<K>, lost: set<K>, v: K) {
    && (v in all <==> v in a || (v in b && v !in rest && v !in lost))
    && (v in all ==> all[v] == Get(a, v) + if v in rest then 0 else Get(b, v))
    && (v in lost ==> v in b && v !in a && v !in rest)
  }

  ghost predicate Adding<K(!new)>(all: map<K, nat>, a: map<K, nat>, b: map<K, nat>, rest: set<K>, lost: set<K>) {
    forall v {:trigger SumsAt(all, a, b, rest, lost, v)} :: SumsAt(all, a, b, rest, lost, v)
  }

  lemma AddingAll<K(!new)>(a: map<K, nat>, b: map<K, nat>)
    ensures Adding(a, a, b, b.Keys, {})
  {
  }

  lemma Added<K(!new)>(all: map<K, nat>, a: map<K, nat>, b: map<K, nat>, lost: set<K>)
    requires Adding(all, a, b, {}, lost)
    ensures Adds(all, a, b, lost)
  {
    forall v
      ensures v in all <==> v in a.Keys + b.Keys - lost
      ensures v in lost ==> v in b.Keys - a.Keys
      ensures v in all ==> all[v] == Get(a, v) + Get(b, v)
    {
      assert SumsAt(all, a, b, {}, lost, v);
    }
  }

  lemma Keep<K(!new)>(all: map<K, nat>, a: map<K, nat>, b: map<K, nat>, rest: set<K>, lost: set<K>, v: K)
    requires Adding(all, a, b, rest, lost) && v in rest && v in b
    ensures Adding(Bump(all, v, b[v]), a, b, rest - {v}, lost)
  {
    var next := Bump(all, v, b[v]);
    assert SumsAt(all, a, b, rest, lost, v);
    forall u {:trigger SumsAt(next, a, b, rest - {v}, lost, u)}
      ensures SumsAt(next, a, b, rest - {v}, lost, u)
    {
      assert SumsAt(all, a, b, rest, lost, u);
    }
  }

  lemma Drop<K(!new)>(all: map<K, nat>, a: map<K, nat>, b: map<K, nat>, rest: set<K>, lost: set<K>, v: K)
    requires Adding(all, a, b, rest, lost) && v in rest && v in b && v !in all
    ensures Adding(all, a, b, rest - {v}, lost + {v})
  {
    assert SumsAt(all, a, b, rest, lost, v);
    forall u {:trigger SumsAt(all, a, b, rest - {v}, lost + {v}, u)}
      ensures SumsAt(all, a, b, rest - {v}, lost + {v}, u)
    {
      assert SumsAt(all, a, b, rest, lost, u);
    }
  }

  method AddTypes(a: map<ValueType, nat>, b: map<ValueType, nat>) returns (all: map<ValueType, nat>)
    ensures Adds(all, a, b, {})
  {
    all := a;
    var rest := b.Keys;
    AddingAll(a, b);
    while rest != {}
      invariant rest <= b.Keys && Adding(all, a, b, rest, {})
    {
      var t :| t in rest;
      Keep(all, a, b, rest, {}, t);
      rest, all := rest - {t}, Bump(all, t, b[t]);
    }
    Added(all, a, b, {});
  }

  /** The size limits a merge respects: it is full only past the cap, and grows no further than that. */
  predicate Fits(now: nat, before: nat, full: bool, cap: int) {
    (full ==> now > cap) && (now <= before || now <= cap + 1)
  }

  lemma BumpSize<K>(all: map<K, nat>, k: K, n: nat)
    ensures |Bump(all, k, n)| == |all| + if k in all then 0 else 1
  {
    assert Bump(all, k, n).Keys == all.Keys + {k};
  }

  /** Adds b's entries to a's, in any order, refusing new keys once there are more than cap. */
  method AddValues<K(==,!new)>(a: map<K, nat>, b: map<K, nat>, cap: int)
    returns (all: map<K, nat>, dropped: bool, ghost lost: set<K>)
    ensures Adds(all, a, b, lost) && (dropped <==> lost != {})
    ensures Fits(|all|, |a|, dropped, cap)
  {
    all, dropped, lost := a, false, {};
    var rest := b.Keys;
    AddingAll(a, b);
    while rest != {}
      invariant rest <= b.Keys && Adding(all, a, b, rest, lost)
      invariant (dropped <==> lost != {}) && Fits(|all|, |a|, dropped, cap)
    {
      var k :| k in rest;
      if k in all || |all| <= cap {
        Keep(all, a, b, rest, lost, k);
        BumpSize(all, k, b[k]);
        all := Bump(all, k, b[k]);
      } else {
        Drop(all, a, b, rest, lost, k);
        dropped, lost := true, lost + {k};
      }
      rest := rest - {k};
    }
    Added(all, a, b, lost);
  }

  // ---- the decision ----

  predicate Dominates(ev: Evidence, t: ValueType, opts: TemplateOptions) {
    t in ev.types && Promotable(t) && ev.types[t] as real >= opts.typeShare * ev.count as real
  }

  predicate NameAtMost(a: ValueType, b: ValueType) {
    AtMost(a.Name(), b.Name())
  }

  /** The promotable type that covers its share, the first by name when several do. */
  ghost predicate IsDominant(ev: Evidence, opts: TemplateOptions, r: Option<ValueType>) {
    match r
    case None => forall t :: !Dominates(ev, t, opts)
    case Some(t) => Dominates(ev, t, opts) && forall u | Dominates(ev, u, opts) :: NameAtMost(t, u)
  }

  lemma NameAtMostIsTotal()
    ensures TotalPreorder(NameAtMost)
  {
    forall a: ValueType, b: ValueType, c: ValueType
      ensures NameAtMost(a, b) || NameAtMost(b, a)
      ensures NameAtMost(a, b) && NameAtMost(b, c) ==> NameAtMost(a, c)
    {
      AtMostOrders(a.Name(), b.Name(), c.Name());
    }
  }

  lemma FirstByName(ev: Evidence, opts: TemplateOptions, types: seq<ValueType>, i: nat)
    requires Sorted(NameAtMost, types) && i < |types|
    requires forall t :: t in types <==> t in ev.types
    requires forall k | 0 <= k < i :: !Dominates(ev, types[k], opts)
    ensures forall u | Dominates(ev, u, opts) :: NameAtMost(types[i], u)
  {
    NameAtMostIsTotal();
    forall u | Dominates(ev, u, opts)
      ensures NameAtMost(types[i], u)
    {
      var k :| 0 <= k < |types| && types[k] == u;
    }
  }

  method ListTypes(types: set<ValueType>) returns (listed: seq<ValueType>)
    ensures forall t :: t in listed <==> t in types
  {
    listed := [];
    var rest := types;
    while rest != {}
      invariant rest <= types && forall t :: t in listed <==> t in types - rest
    {
      var t :| t in rest;
      rest, listed := rest - {t}, listed + [t];
    }
  }

  /** The types in order of their names, so that no map order decides between candidates. */
  method SortTypes(types: set<ValueType>) returns (ordered: seq<ValueType>)
    ensures forall t :: t in ordered <==> t in types
    ensures Sorted(NameAtMost, ordered)
  {
    var listed := ListTypes(types);
    NameAtMostIsTotal();
    SortSorted(NameAtMost, listed);
    ordered := Sort(NameAtMost, listed);
    SameElements(listed, ordered);
  }

  lemma NoneDominates(ev: Evidence, opts: TemplateOptions, types: seq<ValueType>)
    requires forall t :: t in types <==> t in ev.types.Keys
    requires forall k | 0 <= k < |types| :: !Dominates(ev, types[k], opts)
    ensures IsDominant(ev, opts, None)
  {
  }

  method DominantType(ev: Evidence, opts: TemplateOptions) returns (r: Option<ValueType>)
    ensures IsDominant(ev, opts, r)
  {
    hide Dominates, NameAtMost;
    var types := SortTypes(ev.types.Keys);
    for i := 0 to |types|
      invariant forall k | 0 <= k < i :: !Dominates(ev, types[k], opts)
    {
      if Dominates(ev, types[i], opts) {
        FirstByName(ev, opts, types, i);
        return Some(types[i]);
      }
    }
    NoneDominates(ev, opts, types);
    return None;
  }

  function Singletons(values: map<string, nat>): set<string> {
    set v | v in values && values[v] == 1
  }

  ghost predicate IsVariable(ev: Evidence, opts: TemplateOptions) {
    || opts.varSingletonShare <= 0.0 || |ev.values| == 0
    || |Singletons(ev.values)| as real / |ev.values| as real >= opts.varSingletonShare
  }

  method VariableEnough(ev: Evidence, opts: TemplateOptions) returns (ok: bool)
    ensures ok <==> IsVariable(ev, opts)
  {
    if opts.varSingletonShare <= 0.0 || |ev.values| == 0 {
      return true;
    }
    var singletons := 0;
    var rest := ev.values.Keys;
    ghost var found := {};
    while rest != {}
      invariant rest <= ev.values.Keys && found == Singletons(ev.values) - rest && singletons == |found|
    {
      var v :| v in rest;
      rest := rest - {v};
      if ev.values[v] == 1 {
        singletons, found := singletons + 1, found + {v};
      }
    }
    assert found == Singletons(ev.values);
    return singletons as real / |ev.values| as real >= opts.varSingletonShare;
  }

  /** The distinct count a decision goes by; past the cap only that it was passed is known. */
  function DistinctSeen(ev: Evidence, opts: TemplateOptions): int {
    if ev.overflow then opts.maxDistinct + 1 else |ev.values|
  }

  ghost predicate FallsToVar(ev: Evidence, opts: TemplateOptions) {
    && DistinctSeen(ev, opts) > opts.maxDistinct
    && ev.count >= opts.maxDistinct * opts.varRepeatFactor
    && IsVariable(ev, opts)
  }

  /** What a position's evidence decides, if anything: a typed collapse is preferred. */
  ghost predicate IsDecision(ev: Evidence, opts: TemplateOptions, r: Option<ValueType>) {
    if ev.count < opts.minSamples then r == None
    else if DistinctSeen(ev, opts) >= opts.minDistinctForType && exists t :: Dominates(ev, t, opts) then
      IsDominant(ev, opts, r)
    else r == if FallsToVar(ev, opts) then Some(Var) else None
  }

  method Decide(ev: Evidence, opts: TemplateOptions) returns (r: Option<ValueType>)
    ensures IsDecision(ev, opts, r)
  {
    if ev.count < opts.minSamples {
      return None;
    }
    var distinct := |ev.values|;
    if ev.overflow {
      distinct := opts.maxDistinct + 1;
    }
    if distinct >= opts.minDistinctForType {
      var t := DominantType(ev, opts);
      if t.Some? {
        return t;
      }
    }
    if distinct > opts.maxDistinct && ev.count >= opts.maxDistinct * opts.varRepeatFactor {
      var ok := VariableEnough(ev, opts);
      if ok {
        return Some(Var);
      }
    }
    return None;
  }
}
