/** What the baseline of one parameter says of the values it was made from, and what observing and merging make of
    that. */
module Summaries {
  import opened ValueTypes
  import opened Evidences
  import opened Sets
  import opened Parameters
  import opened Profiles
  import opened Accounting

  // ---- the flows ----

  /** One flow told to an endpoint: when, by which clock, and the parameters found in it. */
  datatype Flow = Flow(turn: nat, o: Observation, clock: int, found: seq<Found>)
  {
    /** Its own time, or the clock's when it has none. */
    function At(): int {
      if o.seen == 0 then clock else o.seen
    }
  }

  /** One value of one parameter. */
  datatype Sight = Sight(flow: Flow, j: nat, value: string)

  /** The values of one parameter among the first n of a flow. */
  ghost function SightsIn(f: Flow, n: nat, k: ParamKey): set<Sight>
    requires n <= |f.found|
  {
    set j | 0 <= j < n && f.found[j].key == k :: Sight(f, j, f.found[j].value)
  }

  /** Every value of one parameter in these flows. */
  ghost function Sights(flows: set<Flow>, k: ParamKey): set<Sight> {
    set f, s | f in flows && s in SightsIn(f, |f.found|, k) :: s
  }

  lemma SightsMore(flows: set<Flow>, f: Flow, k: ParamKey)
    ensures Sights(flows + {f}, k) == Sights(flows, k) + SightsIn(f, |f.found|, k)
  {
    hide SightsIn;
    forall s
      ensures s in Sights(flows + {f}, k) <==> s in Sights(flows, k) + SightsIn(f, |f.found|, k)
    {
      if s in SightsIn(f, |f.found|, k) {
        assert f in flows + {f};
      }
      if g :| g in flows && s in SightsIn(g, |g.found|, k) {
        assert g in flows + {f};
      }
    }
  }

  lemma SightsBoth(a: set<Flow>, b: set<Flow>, k: ParamKey)
    requires a !! b
    ensures Sights(a + b, k) == Sights(a, k) + Sights(b, k) && Sights(a, k) !! Sights(b, k)
  {
    forall s
      ensures s in Sights(a + b, k) <==> s in Sights(a, k) + Sights(b, k)
    {
      if g :| g in a + b && s in SightsIn(g, |g.found|, k) {
        assert g in a || g in b;
      }
      if g :| g in a && s in SightsIn(g, |g.found|, k) {
        assert g in a + b;
      }
      if g :| g in b && s in SightsIn(g, |g.found|, k) {
        assert g in a + b;
      }
    }
    forall s | s in Sights(a, k)
      ensures s.flow in a
    {
    }
    forall s | s in Sights(b, k)
      ensures s.flow in b
    {
    }
  }

  lemma SightsNext(f: Flow, n: nat, k: ParamKey)
    requires n < |f.found|
    ensures SightsIn(f, n + 1, k)
         == SightsIn(f, n, k) + if f.found[n].key == k then {Sight(f, n, f.found[n].value)} else {}
  {
  }

  // ---- extremes and counts ----

  lemma ExtremesMore(low: int, high: int, xs: set<int>, x: int)
    requires Extremes(low, high, xs) && (xs == {} ==> low == high == x)
    ensures Extremes(Min(low, x), Max(high, x), xs + {x})
  {
  }

  lemma ExtremesBoth(low: int, high: int, xs: set<int>, l: int, h: int, ys: set<int>)
    requires Extremes(low, high, xs) && Extremes(l, h, ys) && xs != {} && ys != {}
    ensures Extremes(Min(low, l), Max(high, h), xs + ys)
  {
  }

  /** The least type that all of these may be widened to. */
  ghost predicate IsLeast(kind: ValueType, kinds: set<ValueType>) {
    && (forall t | t in kinds :: Widens(t, kind))
    && forall u {:trigger Widens(kind, u)} :: (forall t | t in kinds :: Widens(t, u)) ==> Widens(kind, u)
  }

  lemma LeastBoth(kind: ValueType, kinds: set<ValueType>, other: ValueType, others: set<ValueType>)
    requires IsLeast(kind, kinds) && IsLeast(other, others)
    ensures IsLeast(Join(kind, other), kinds + others)
  {
    hide Widens, Join;
    var join := Join(kind, other);
    JoinIsLeast(kind, other, join);
    forall t | t in kinds + others
      ensures Widens(t, join)
    {
      WidensIsOrder(t, if t in kinds then kind else other, join);
    }
    forall u {:trigger Widens(join, u)}
      ensures (forall t | t in kinds + others :: Widens(t, u)) ==> Widens(join, u)
    {
      JoinIsLeast(kind, other, u);
      if forall t | t in kinds + others :: Widens(t, u) {
        assert forall t | t in kinds :: t in kinds + others;
        assert forall t | t in others :: t in kinds + others;
      }
    }
  }

  lemma LeastMore(kind: ValueType, kinds: set<ValueType>, t: ValueType)
    requires IsLeast(kind, kinds)
    ensures IsLeast(Join(kind, t), kinds + {t})
  {
    LeastBoth(kind, kinds, t, {t});
  }

  // ---- one parameter ----

  ghost function Lengths(seen: set<Sight>): set<int> {
    set s | s in seen :: |s.value|
  }

  ghost function Times(seen: set<Sight>): set<int> {
    set s | s in seen :: s.flow.At()
  }

  ghost function Kinds(r: Rules, seen: set<Sight>): set<ValueType> {
    set s | s in seen :: r.infer(s.value)
  }

  /** The distinct values that are not secret. */
  ghost function PlainOf(r: Rules, seen: set<Sight>): set<string> {
    set s | s in seen && !r.secret(s.value) :: s.value
  }

  ghost function CountOf(seen: set<Sight>, v: string): nat {
    |set s | s in seen && s.value == v|
  }

  /** The enumeration lists the values that are not secret, with how often each was seen, unless there are more of
      them than the cap. */
  ghost predicate Enumerates(r: Rules, e: Enum, seen: set<Sight>) {
    && Consistent(r.cap, e) && Estimates(r.cap, e, PlainOf(r, seen))
    && forall v {:trigger e.values[v]} | v in e.values :: e.values[v] == CountOf(seen, v)
  }

  /** p is the baseline of exactly these values. */
  ghost predicate Summary(r: Rules, p: Param, seen: set<Sight>) {
    && p.present == |seen| && p.present <= p.observations
    && IsLeast(p.kind, Kinds(r, seen))
    && Extremes(p.minLen, p.maxLen, Lengths(seen)) && Extremes(p.first, p.last, Times(seen))
    && Enumerates(r, p.enum, seen)
  }

  lemma CountMore(seen: set<Sight>, s: Sight, v: string)
    requires s !in seen
    ensures CountOf(seen + {s}, v) == CountOf(seen, v) + if s.value == v then 1 else 0
  {
    var had, all := set x | x in seen && x.value == v, set x | x in seen + {s} && x.value == v;
    if s.value == v {
      assert all == had + {s};
    } else {
      assert all == had;
    }
  }

  lemma CountBoth(a: set<Sight>, b: set<Sight>, v: string)
    requires a !! b
    ensures CountOf(a + b, v) == CountOf(a, v) + CountOf(b, v)
  {
    var x, y := set s | s in a && s.value == v, set s | s in b && s.value == v;
    assert x !! y;
    assert (set s | s in a + b && s.value == v) == x + y;
  }

  lemma NotCounted(r: Rules, seen: set<Sight>, v: string)
    requires v !in PlainOf(r, seen) && !r.secret(v)
    ensures CountOf(seen, v) == 0
  {
    forall s | s in seen
      ensures s.value != v
    {
    }
    assert (set s | s in seen && s.value == v) == {};
  }

  lemma EstimatedKeys(cap: int, e: Enum, plain: set<string>)
    requires Estimates(cap, e, plain) && Consistent(cap, e)
    ensures if e.overflowed then e.values == map[] else e.values.Keys == plain
  {
  }

  lemma PlainMore(r: Rules, seen: set<Sight>, s: Sight)
    ensures PlainOf(r, seen + {s}) == PlainOf(r, seen) + if r.secret(s.value) then {} else {s.value}
  {
  }

  lemma PlainBoth(r: Rules, a: set<Sight>, b: set<Sight>)
    ensures PlainOf(r, a + b) == PlainOf(r, a) + PlainOf(r, b)
  {
  }

  /** How often each listed value has been seen after one more. */
  lemma ListedCounts(cap: int, e: Enum, v: string, u: string)
    requires u in Listed(cap, e, v).values && (e.overflowed ==> e.values == map[])
    ensures Listed(cap, e, v).values[u] == Get(e.values, u) + if u == v then 1 else 0
  {
  }

  lemma NotListed(r: Rules, e: Enum, seen: set<Sight>, v: string, u: string)
    requires Enumerates(r, e, seen) && v !in e.values && v in Listed(r.cap, e, u).values && !r.secret(u)
    ensures CountOf(seen, v) == 0
  {
    hide CountOf;
    EstimatedKeys(r.cap, e, PlainOf(r, seen));
    NotCounted(r, seen, v);
  }

  lemma ListedMore(r: Rules, e: Enum, seen: set<Sight>, s: Sight)
    requires Enumerates(r, e, seen) && s !in seen && !r.secret(s.value)
    ensures Enumerates(r, Listed(r.cap, e, s.value), seen + {s})
  {
    hide Consistent, Estimates, CountOf, Listed, PlainOf;
    var after := Listed(r.cap, e, s.value);
    var plain := PlainOf(r, seen);
    PlainMore(r, seen, s);
    ListedConsistent(r.cap, e, s.value);
    EstimateMore(r.cap, e, plain, s.value);
    EstimatedKeys(r.cap, e, plain);
    EstimatedKeys(r.cap, after, plain + {s.value});
    forall v {:trigger after.values[v]} | v in after.values
      ensures after.values[v] == CountOf(seen + {s}, v)
    {
      ListedCounts(r.cap, e, s.value, v);
      CountMore(seen, s, v);
      if v !in e.values {
        NotListed(r, e, seen, v, s.value);
      }
    }
  }

  lemma SecretMore(r: Rules, e: Enum, seen: set<Sight>, s: Sight)
    requires Enumerates(r, e, seen) && s !in seen && r.secret(s.value)
    ensures Enumerates(r, e, seen + {s})
  {
    hide Consistent, Estimates, CountOf;
    var plain := PlainOf(r, seen);
    PlainMore(r, seen, s);
    EstimatedKeys(r.cap, e, plain);
    assert plain + {} == plain;
    forall v {:trigger e.values[v]} | v in e.values
      ensures e.values[v] == CountOf(seen + {s}, v)
    {
      CountMore(seen, s, v);
      assert v in plain;
    }
  }

  lemma EnumeratesMore(r: Rules, e: Enum, seen: set<Sight>, s: Sight)
    requires Enumerates(r, e, seen) && s !in seen
    ensures Enumerates(r, Enumerated(r, e, s.value), seen + {s})
  {
    hide Enumerates, Listed;
    if r.secret(s.value) {
      SecretMore(r, e, seen, s);
    } else {
      ListedMore(r, e, seen, s);
    }
  }

  lemma EstimatesBoth(cap: int, a: Enum, b: Enum, s: set<string>, t: set<string>)
    requires Consistent(cap, a) && Consistent(cap, b) && Estimates(cap, a, s) && Estimates(cap, b, t)
    ensures Estimates(cap, MergeEnums(cap, a, b), s + t)
  {
    Larger(s, s + t);
    Larger(t, s + t);
  }

  /** A value not listed, although the enumeration is kept, was not seen. */
  lemma CountListed(r: Rules, e: Enum, seen: set<Sight>, v: string)
    requires Enumerates(r, e, seen) && !e.overflowed && !r.secret(v)
    ensures Get(e.values, v) == CountOf(seen, v)
  {
    hide CountOf, PlainOf, Consistent;
    if v !in e.values {
      NotCounted(r, seen, v);
    }
  }

  lemma EnumeratesBoth(r: Rules, a: Enum, b: Enum, x: set<Sight>, y: set<Sight>)
    requires Enumerates(r, a, x) && Enumerates(r, b, y) && x !! y
    ensures Enumerates(r, MergeEnums(r.cap, a, b), x + y)
  {
    hide CountOf, Estimates, Consistent;
    var all := MergeEnums(r.cap, a, b);
    PlainBoth(r, x, y);
    MergeConsistent(r.cap, a, b);
    EstimatesBoth(r.cap, a, b, PlainOf(r, x), PlainOf(r, y));
    EstimatedKeys(r.cap, all, PlainOf(r, x + y));
    forall v {:trigger all.values[v]} | v in all.values
      ensures all.values[v] == CountOf(x + y, v)
    {
      CountBoth(x, y, v);
      assert v in PlainOf(r, x + y);
      CountListed(r, a, x, v);
      CountListed(r, b, y, v);
    }
  }

  lemma SetsMore(r: Rules, seen: set<Sight>, s: Sight)
    ensures Lengths(seen + {s}) == Lengths(seen) + {|s.value|} && Times(seen + {s}) == Times(seen) + {s.flow.At()}
    ensures Kinds(r, seen + {s}) == Kinds(r, seen) + {r.infer(s.value)}
    ensures seen != {} <==> Lengths(seen) != {}
    ensures seen != {} <==> Times(seen) != {}
  {
    if seen != {} {
      var x :| x in seen;
      assert |x.value| in Lengths(seen) && x.flow.At() in Times(seen);
    }
  }

  lemma SetsBoth(r: Rules, x: set<Sight>, y: set<Sight>)
    ensures Lengths(x + y) == Lengths(x) + Lengths(y) && Times(x + y) == Times(x) + Times(y)
    ensures Kinds(r, x + y) == Kinds(r, x) + Kinds(r, y)
  {
  }

  /** A parameter seen for the first time starts out as the baseline of nothing. */
  lemma FreshIsNothing(r: Rules, v: string, at: int)
    ensures Summary(r, Fresh(v, at), {})
  {
    assert PlainOf(r, {}) == {};
    forall u {:trigger Widens(Empty, u)}
      ensures Widens(Empty, u)
    {
    }
  }

  /** Observing a value gives the baseline of the values with it. */
  lemma ObservedSummary(r: Rules, p: Param, seen: set<Sight>, s: Sight)
    requires Summary(r, p, seen) && s !in seen
    requires seen == {} ==> p == Fresh(s.value, s.flow.At())
    ensures Summary(r, Observed(r, p, s.value, s.flow.At()), seen + {s})
  {
    hide Enumerates, Enumerated, Lengths, Times, Kinds, IsLeast, Extremes, Join;
    SetsMore(r, seen, s);
    LeastMore(p.kind, Kinds(r, seen), r.infer(s.value));
    ExtremesMore(p.minLen, p.maxLen, Lengths(seen), |s.value|);
    ExtremesMore(p.first, p.last, Times(seen), s.flow.At());
    EnumeratesMore(r, p.enum, seen, s);
  }

  /** A request without the parameter adds no value. */
  lemma AbsentSummary(r: Rules, p: Param, seen: set<Sight>)
    requires Summary(r, p, seen)
    ensures Summary(r, p.(observations := p.observations + 1), seen)
  {
  }

  /** Merging gives the baseline of the values of both. */
  lemma MergedSummary(r: Rules, a: Param, b: Param, x: set<Sight>, y: set<Sight>)
    requires Summary(r, a, x) && Summary(r, b, y) && x !! y && x != {} && y != {}
    ensures Summary(r, Merge(r.cap, a, b), x + y)
  {
    hide Enumerates, MergeEnums, Lengths, Times, Kinds, IsLeast, Extremes, Join;
    SetsBoth(r, x, y);
    var s, t :| s in x && t in y;
    SetsMore(r, x, s);
    SetsMore(r, y, t);
    LeastBoth(a.kind, Kinds(r, x), b.kind, Kinds(r, y));
    ExtremesBoth(a.minLen, a.maxLen, Lengths(x), b.minLen, b.maxLen, Lengths(y));
    ExtremesBoth(a.first, a.last, Times(x), b.first, b.last, Times(y));
    EnumeratesBoth(r, a.enum, b.enum, x, y);
  }

  // ---- a baseline is determined by its values ----

  lemma LeastIsUnique(a: ValueType, b: ValueType, kinds: set<ValueType>)
    requires IsLeast(a, kinds) && IsLeast(b, kinds)
    ensures a == b
  {
    WidensIsOrder(a, b, a);
    assert Widens(a, b) && Widens(b, a);
  }

  lemma ExtremesUnique(low: int, high: int, l: int, h: int, xs: set<int>)
    requires Extremes(low, high, xs) && Extremes(l, h, xs) && xs != {}
    ensures low == l && high == h
  {
  }

  lemma EnumIsUnique(r: Rules, a: Enum, b: Enum, seen: set<Sight>)
    requires Enumerates(r, a, seen) && Enumerates(r, b, seen)
    ensures a == b
  {
    hide CountOf, PlainOf;
    EstimatedKeys(r.cap, a, PlainOf(r, seen));
    EstimatedKeys(r.cap, b, PlainOf(r, seen));
    forall v | v in a.values
      ensures v in b.values && a.values[v] == b.values[v]
    {
      assert a.values[v] == CountOf(seen, v) == b.values[v];
    }
  }

  /** Only the number of requests it was absent from is left open. */
  lemma SummaryIsUnique(r: Rules, a: Param, b: Param, seen: set<Sight>)
    requires Summary(r, a, seen) && Summary(r, b, seen) && seen != {}
    ensures a.(observations := 0) == b.(observations := 0)
  {
    hide Enumerates, Lengths, Times, Kinds, IsLeast, Extremes;
    var s :| s in seen;
    SetsMore(r, seen, s);
    LeastIsUnique(a.kind, b.kind, Kinds(r, seen));
    ExtremesUnique(a.minLen, a.maxLen, b.minLen, b.maxLen, Lengths(seen));
    ExtremesUnique(a.first, a.last, b.first, b.last, Times(seen));
    EnumIsUnique(r, a.enum, b.enum, seen);
  }
}
