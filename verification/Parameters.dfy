/** The learned baseline of one parameter: observing values, and merging two baselines. */
module Parameters {
  import opened ValueTypes
  import opened Evidences
  import opened Sets

  /** How one request met the parameter. */
  datatype Sighting = Value(v: string, at: int) | Absent

  /** The values seen, while there are few enough to be an enumeration. */
  datatype Enum = Enum(distinct: nat, values: map<string, nat>, overflowed: bool)

  /** A parameter profile as a value. */
  datatype Param = Param(
    kind: ValueType, observations: nat, present: nat, minLen: nat, maxLen: nat,
    enum: Enum, first: int, last: int)

  /** What classification and the secret filter say of a value, and the enum cap. */
  datatype Rules = Rules(infer: string -> ValueType, secret: string -> bool, cap: int)

  function Cap(cap: int): nat {
    if cap < 0 then 0 else cap
  }

  function Min(a: int, b: int): int {
    if b < a then b else a
  }

  function Max(a: int, b: int): int {
    if b > a then b else a
  }

  // ---- observing ----

  const UNSEEN := Enum(0, map[], false)

  function Fresh(v: string, at: int): Param {
    Param(Empty, 0, 0, |v|, |v|, UNSEEN, at, at)
  }

  /** The enum candidate given up. */
  function Overflow(e: Enum): Enum {
    if e.overflowed then e else Enum(Max(e.distinct, |e.values|), map[], true)
  }

  function Listed(cap: int, e: Enum, v: string): Enum {
    if e.overflowed then e
    else if v in e.values || |e.values| < cap then Enum(|Bump(e.values, v, 1)|, Bump(e.values, v, 1), false)
    else Overflow(e)
  }

  function Enumerated(r: Rules, e: Enum, v: string): Enum {
    if r.secret(v) then e else Listed(r.cap, e, v)
  }

  function Observed(r: Rules, p: Param, v: string, at: int): Param {
    Param(Join(p.kind, r.infer(v)), p.observations + 1, p.present + 1, Min(p.minLen, |v|), Max(p.maxLen, |v|),
          Enumerated(r, p.enum, v), Min(p.first, at), Max(p.last, at))
  }

  function Sighted(r: Rules, p: Param, s: Sighting): Param {
    match s
    case Value(v, at) => Observed(r, p, v, at)
    case Absent => p.(observations := p.observations + 1)
  }

  /** The profile of a parameter first seen in xs[0]. */
  function Profiled(r: Rules, xs: seq<Sighting>): Param
    requires xs != [] && xs[0].Value?
  {
    if |xs| == 1 then Observed(r, Fresh(xs[0].v, xs[0].at), xs[0].v, xs[0].at)
    else Sighted(r, Profiled(r, xs[..|xs| - 1]), xs[|xs| - 1])
  }

  // ---- merging ----

  function AddUp<K>(a: map<K, nat>, b: map<K, nat>): (c: map<K, nat>)
    ensures c.Keys == a.Keys + b.Keys
  {
    map v | v in a.Keys + b.Keys :: Get(a, v) + Get(b, v)
  }

  /** Two enumerations as one, whatever the order their values are visited in. */
  function MergeEnums(cap: int, a: Enum, b: Enum): Enum {
    if !a.overflowed && !b.overflowed && |a.values.Keys + b.values.Keys| <= Cap(cap) then
      Enum(|a.values.Keys + b.values.Keys|, AddUp(a.values, b.values), false)
    else Enum(Cap(cap), map[], true)
  }

  function Merge(cap: int, a: Param, b: Param): Param {
    Param(Join(a.kind, b.kind), a.observations + b.observations, a.present + b.present,
          Min(a.minLen, b.minLen), Max(a.maxLen, b.maxLen),
          MergeEnums(cap, a.enum, b.enum), Min(a.first, b.first), Max(a.last, b.last))
  }

  /** What every enumeration built by observing and merging satisfies. */
  ghost predicate Consistent(cap: int, e: Enum) {
    if e.overflowed then e.values == map[] && e.distinct == Cap(cap)
    else e.distinct == |e.values| <= Cap(cap) && Positive(e.values)
  }

  lemma KeysGrow(m: map<string, nat>, v: string)
    ensures Bump(m, v, 1).Keys == m.Keys + {v}
    ensures |Bump(m, v, 1)| == |m| + if v in m then 0 else 1
  {
    assert Bump(m, v, 1).Keys == m.Keys + {v};
  }

  lemma ListedConsistent(cap: int, e: Enum, v: string)
    requires Consistent(cap, e)
    ensures Consistent(cap, Listed(cap, e, v))
  {
    KeysGrow(e.values, v);
  }

  lemma {:induction false} ProfiledConsistent(r: Rules, xs: seq<Sighting>)
    requires xs != [] && xs[0].Value?
    ensures Consistent(r.cap, Profiled(r, xs).enum)
  {
    var n := |xs| - 1;
    if n == 0 {
      ListedConsistent(r.cap, UNSEEN, xs[0].v);
    } else {
      ProfiledConsistent(r, xs[..n]);
      if xs[n].Value? {
        ListedConsistent(r.cap, Profiled(r, xs[..n]).enum, xs[n].v);
      }
    }
  }

  lemma AddUpPositive(a: map<string, nat>, b: map<string, nat>)
    requires Positive(a) && Positive(b)
    ensures Positive(AddUp(a, b))
  {
    var c := AddUp(a, b);
    forall v {:trigger c[v]} | v in c
      ensures c[v] > 0
    {
      assert v in a ==> a[v] > 0;
      assert v in b ==> b[v] > 0;
    }
  }

  lemma MergeConsistent(cap: int, a: Enum, b: Enum)
    requires Consistent(cap, a) && Consistent(cap, b)
    ensures Consistent(cap, MergeEnums(cap, a, b))
  {
    if !a.overflowed && !b.overflowed {
      AddUpPositive(a.values, b.values);
    }
  }

  // ---- merging is a homomorphism of observing ----

  lemma AddUpNothing(a: map<string, nat>)
    ensures AddUp(a, map[]) == a
  {
  }

  lemma AddUpBump(a: map<string, nat>, b: map<string, nat>, v: string, n: nat)
    ensures AddUp(a, Bump(b, v, n)) == Bump(AddUp(a, b), v, n)
  {
    forall u
      ensures u in AddUp(a, Bump(b, v, n)) <==> u in Bump(AddUp(a, b), v, n)
      ensures u in Bump(AddUp(a, b), v, n) ==> AddUp(a, Bump(b, v, n))[u] == Bump(AddUp(a, b), v, n)[u]
    {
    }
  }

  lemma MergeUnseen(cap: int, a: Enum)
    requires Consistent(cap, a)
    ensures MergeEnums(cap, a, UNSEEN) == a
  {
    AddUpNothing(a.values);
    assert a.values.Keys + {} == a.values.Keys;
  }

  lemma AddSize(s: set<string>, v: string)
    ensures |s + {v}| == |s| + if v in s then 0 else 1
  {
    if v in s {
      assert s + {v} == s;
    }
  }

  lemma Sizes(p: set<string>, q: set<string>, v: string)
    ensures p + (q + {v}) == p + q + {v}
    ensures |p + q + {v}| == |p + q| + if v in p + q then 0 else 1
    ensures |q| <= |p + q|
    ensures v !in q && v in p ==> |q| + 1 <= |p + q|
  {
    Larger(q, p + q);
    AddSize(p + q, v);
    AddSize(q, v);
    if v !in q && v in p {
      Larger(q + {v}, p + q);
    }
  }

  lemma ListFits(cap: int, a: Enum, b: Enum, v: string)
    requires Consistent(cap, a) && Consistent(cap, b) && !a.overflowed && !b.overflowed
    requires |a.values.Keys + b.values.Keys + {v}| <= Cap(cap)
    ensures MergeEnums(cap, a, Listed(cap, b, v)) == Listed(cap, MergeEnums(cap, a, b), v)
  {
    var all := Bump(AddUp(a.values, b.values), v, 1);
    Sizes(a.values.Keys, b.values.Keys, v);
    KeysGrow(b.values, v);
    AddUpBump(a.values, b.values, v, 1);
    assert MergeEnums(cap, a, Listed(cap, b, v)) == Enum(|all|, all, false);
    assert MergeEnums(cap, a, b) == Enum(|AddUp(a.values, b.values)|, AddUp(a.values, b.values), false);
  }

  lemma ListFull(cap: int, a: Enum, b: Enum, v: string)
    requires Consistent(cap, a) && Consistent(cap, b) && !a.overflowed && !b.overflowed
    requires |a.values.Keys + b.values.Keys + {v}| > Cap(cap)
    ensures MergeEnums(cap, a, Listed(cap, b, v)) == Enum(Cap(cap), map[], true)
    ensures Listed(cap, MergeEnums(cap, a, b), v) == Enum(Cap(cap), map[], true)
  {
    hide AddUp;
    var p, q := a.values.Keys, b.values.Keys;
    Sizes(p, q, v);
    KeysGrow(b.values, v);
    if |p + q| <= Cap(cap) {
      var all := AddUp(a.values, b.values);
      assert all.Keys == p + q && |all| == |all.Keys|;
      assert v !in all && |all| == Cap(cap);
    }
  }

  lemma ListStep(cap: int, a: Enum, b: Enum, v: string)
    requires Consistent(cap, a) && Consistent(cap, b)
    ensures MergeEnums(cap, a, Listed(cap, b, v)) == Listed(cap, MergeEnums(cap, a, b), v)
  {
    if !a.overflowed && !b.overflowed {
      if |a.values.Keys + b.values.Keys + {v}| <= Cap(cap) {
        ListFits(cap, a, b, v);
      } else {
        ListFull(cap, a, b, v);
      }
    }
  }

  /** Merging with a profile of a single value is observing that value. */
  lemma MergeOne(r: Rules, a: Param, v: string, at: int)
    requires Consistent(r.cap, a.enum)
    ensures Merge(r.cap, a, Observed(r, Fresh(v, at), v, at)) == Observed(r, a, v, at)
  {
    MergeUnseen(r.cap, a.enum);
    ListStep(r.cap, a.enum, UNSEEN, v);
  }

  lemma MergeStep(r: Rules, a: Param, b: Param, s: Sighting)
    requires Consistent(r.cap, a.enum) && Consistent(r.cap, b.enum)
    ensures Merge(r.cap, a, Sighted(r, b, s)) == Sighted(r, Merge(r.cap, a, b), s)
  {
    if s.Value? {
      JoinAssociates(a.kind, b.kind, r.infer(s.v));
      ListStep(r.cap, a.enum, b.enum, s.v);
    }
  }

  /** Profiling xs followed by ys is profiling each and merging. */
  lemma {:induction false} ProfileIsHomomorphism(r: Rules, xs: seq<Sighting>, ys: seq<Sighting>)
    requires xs != [] && xs[0].Value? && ys != [] && ys[0].Value?
    ensures Profiled(r, xs + ys) == Merge(r.cap, Profiled(r, xs), Profiled(r, ys))
  {
    var n := |ys| - 1;
    ProfiledConsistent(r, xs);
    assert (xs + ys)[..|xs + ys| - 1] == xs + ys[..n];
    if n == 0 {
      assert xs + ys[..0] == xs;
      MergeOne(r, Profiled(r, xs), ys[0].v, ys[0].at);
    } else {
      ProfileIsHomomorphism(r, xs, ys[..n]);
      ProfiledConsistent(r, ys[..n]);
      MergeStep(r, Profiled(r, xs), Profiled(r, ys[..n]), ys[n]);
    }
  }

  // ---- merging does not care about order ----

  lemma AddUpCommutes<K>(a: map<K, nat>, b: map<K, nat>)
    ensures AddUp(a, b) == AddUp(b, a)
  {
  }

  lemma AddUpAssociates<K(!new)>(a: map<K, nat>, b: map<K, nat>, c: map<K, nat>)
    ensures AddUp(AddUp(a, b), c) == AddUp(a, AddUp(b, c))
  {
    forall v
      ensures v in AddUp(AddUp(a, b), c) <==> v in AddUp(a, AddUp(b, c))
      ensures v in AddUp(AddUp(a, b), c) ==> AddUp(AddUp(a, b), c)[v] == AddUp(a, AddUp(b, c))[v]
    {
    }
  }

  lemma MergeCommutes(cap: int, a: Param, b: Param)
    ensures Merge(cap, a, b) == Merge(cap, b, a)
  {
    JoinCommutes(a.kind, b.kind);
    AddUpCommutes(a.enum.values, b.enum.values);
    assert a.enum.values.Keys + b.enum.values.Keys == b.enum.values.Keys + a.enum.values.Keys;
  }

  lemma EnumsAssociate(cap: int, a: Enum, b: Enum, c: Enum)
    ensures MergeEnums(cap, MergeEnums(cap, a, b), c) == MergeEnums(cap, a, MergeEnums(cap, b, c))
  {
    hide AddUp;
    var p, q, s := a.values.Keys, b.values.Keys, c.values.Keys;
    AddUpAssociates(a.values, b.values, c.values);
    assert p + q + s == p + (q + s);
    Larger(p + q, p + q + s);
    Larger(q + s, p + q + s);
  }

  lemma MergeAssociates(cap: int, a: Param, b: Param, c: Param)
    ensures Merge(cap, Merge(cap, a, b), c) == Merge(cap, a, Merge(cap, b, c))
  {
    JoinAssociates(a.kind, b.kind, c.kind);
    EnumsAssociate(cap, a.enum, b.enum, c.enum);
  }

  // ---- what the estimate means ----

  /** The distinct values that are not secret. */
  function Plain(r: Rules, xs: seq<Sighting>): set<string> {
    set i | 0 <= i < |xs| && xs[i].Value? && !r.secret(xs[i].v) :: xs[i].v
  }

  lemma PlainSnoc(r: Rules, xs: seq<Sighting>)
    requires xs != []
    ensures var n := |xs| - 1;
      Plain(r, xs) == Plain(r, xs[..n]) + if xs[n].Value? && !r.secret(xs[n].v) then {xs[n].v} else {}
  {
    var n := |xs| - 1;
    forall v
      ensures v in Plain(r, xs)
        <==> v in Plain(r, xs[..n]) || (xs[n] == xs[n] && xs[n].Value? && !r.secret(v) && v == xs[n].v)
    {
      if v in Plain(r, xs[..n]) {
        var i :| 0 <= i < n && xs[..n][i].Value? && !r.secret(xs[..n][i].v) && xs[..n][i].v == v;
        assert xs[i].v == v;
      }
      if v in Plain(r, xs) {
        var i :| 0 <= i < |xs| && xs[i].Value? && !r.secret(xs[i].v) && xs[i].v == v;
        assert i < n ==> xs[..n][i].v == v;
      }
    }
  }

  ghost predicate Estimates(cap: int, e: Enum, seen: set<string>) {
    && (e.overflowed <==> |seen| > Cap(cap))
    && (if e.overflowed then e.distinct < |seen| else e.distinct == |seen| && e.values.Keys == seen)
  }

  lemma EstimateMore(cap: int, e: Enum, seen: set<string>, v: string)
    requires Consistent(cap, e) && Estimates(cap, e, seen)
    ensures Estimates(cap, Listed(cap, e, v), seen + {v})
  {
    KeysGrow(e.values, v);
    Larger(seen, seen + {v});
    assert |seen + {v}| == |seen| + if v in seen then 0 else 1;
  }

  /** The enum overflows exactly when there are more distinct plain values than the cap; until
      then the estimate is their exact number and each is listed, afterwards it is less. */
  lemma {:induction false} EstimateIsExact(r: Rules, xs: seq<Sighting>)
    requires xs != [] && xs[0].Value?
    ensures Estimates(r.cap, Profiled(r, xs).enum, Plain(r, xs))
  {
    var n := |xs| - 1;
    ProfiledConsistent(r, xs);
    PlainSnoc(r, xs);
    if n == 0 {
      assert Plain(r, xs[..0]) == {};
      EstimateMore(r.cap, UNSEEN, {}, xs[0].v);
    } else {
      EstimateIsExact(r, xs[..n]);
      ProfiledConsistent(r, xs[..n]);
      if xs[n].Value? {
        EstimateMore(r.cap, Profiled(r, xs[..n]).enum, Plain(r, xs[..n]), xs[n].v);
      }
    }
  }

  // ---- in place ----

  lemma AllAdded(a: map<string, nat>, b: map<string, nat>)
    ensures AddUp(a, b - {}) == AddUp(a, b) && |AddUp(a, b)| == |a.Keys + b.Keys|
  {
    assert b - {} == b;
  }

  lemma NothingAdded(a: map<string, nat>, b: map<string, nat>)
    ensures AddUp(a, b - b.Keys) == a
  {
    assert b - b.Keys == map[];
    AddUpNothing(a);
  }

  lemma AddedOne(a: map<string, nat>, b: map<string, nat>, rest: set<string>, v: string)
    requires v in rest && rest <= b.Keys
    ensures var now := AddUp(a, b - rest);
      && Bump(now, v, b[v]) == AddUp(a, b - (rest - {v}))
      && |Bump(now, v, b[v])| == |now| + if v in now then 0 else 1
  {
    var now := AddUp(a, b - rest);
    AddUpBump(a, b - rest, v, b[v]);
    assert b - (rest - {v}) == Bump(b - rest, v, b[v]);
    assert Bump(now, v, b[v]).Keys == now.Keys + {v};
  }

  lemma TooMany(a: map<string, nat>, b: map<string, nat>, rest: set<string>, v: string, cap: nat)
    requires v in rest && rest <= b.Keys && v !in AddUp(a, b - rest) && |AddUp(a, b - rest)| >= cap
    ensures |a.Keys + b.Keys| > cap
  {
    var have := AddUp(a, b - rest).Keys;
    Larger(have + {v}, a.Keys + b.Keys);
    assert |have + {v}| == |have| + 1;
  }

  /** Adds values until one more would pass the cap; then what was added so far is as many as fit. */
  method AddWhileFits(a: map<string, nat>, b: map<string, nat>, cap: int) returns (all: map<string, nat>, full: bool)
    requires |a| <= Cap(cap)
    ensures full <==> |a.Keys + b.Keys| > Cap(cap)
    ensures if full then |all| == Cap(cap) else all == AddUp(a, b)
  {
    all := a;
    var rest := b.Keys;
    NothingAdded(a, b);
    while rest != {}
      invariant rest <= b.Keys && all == AddUp(a, b - rest) && |all| <= Cap(cap)
    {
      var v :| v in rest;
      if v !in all && |all| >= cap {
        TooMany(a, b, rest, v, Cap(cap));
        return all, true;
      }
      AddedOne(a, b, rest, v);
      rest, all := rest - {v}, Bump(all, v, b[v]);
    }
    AllAdded(a, b);
    return all, false;
  }

  class ParamProfile {
    var kind: ValueType
    var observations: nat
    var present: nat
    var minLen: nat
    var maxLen: nat
    var distinct: nat
    var values: map<string, nat>
    var overflowed: bool
    var first: int
    var last: int

    ghost function Enumeration(): Enum
      reads this`distinct, this`values, this`overflowed
    {
      Enum(distinct, values, overflowed)
    }

    ghost function View(): Param
      reads this
    {
      Param(kind, observations, present, minLen, maxLen, Enumeration(), first, last)
    }

    constructor (v: string, at: int)
      ensures View() == Fresh(v, at)
    {
      kind, observations, present := Empty, 0, 0;
      minLen, maxLen, distinct := |v|, |v|, 0;
      values, overflowed, first, last := map[], false, at, at;
    }

    method OverflowEnum()
      modifies this`distinct, this`values, this`overflowed
      ensures Enumeration() == Overflow(old(Enumeration()))
    {
      if !overflowed {
        if |values| > distinct {
          distinct := |values|;
        }
        values, overflowed := map[], true;
      }
    }

    method Widen(low: nat, high: nat, from: int, to: int)
      modifies this`minLen, this`maxLen, this`first, this`last
      ensures minLen == Min(old(minLen), low) && maxLen == Max(old(maxLen), high)
      ensures first == Min(old(first), from) && last == Max(old(last), to)
    {
      if low < minLen {
        minLen := low;
      }
      if high > maxLen {
        maxLen := high;
      }
      if to > last {
        last := to;
      }
      if from < first {
        first := from;
      }
    }

    method Observe(r: Rules, v: string, at: int)
      modifies this
      ensures View() == Observed(r, old(View()), v, at)
    {
      observations, present := observations + 1, present + 1;
      kind := Join(kind, r.infer(v));
      Widen(|v|, |v|, at, at);
      if !overflowed && !r.secret(v) {
        Enumerate(r.cap, v);
      }
    }

    method Enumerate(cap: int, v: string)
      requires !overflowed
      modifies this`distinct, this`values, this`overflowed
      ensures Enumeration() == Listed(cap, old(Enumeration()), v)
    {
      if v in values || |values| < cap {
        values := Bump(values, v, 1);
        distinct := |values|;
      } else {
        OverflowEnum();
      }
    }

    /** Folds another profile of the same parameter in. */
    method MergeWith(o: ParamProfile, cap: int)
      requires o != this && Consistent(cap, Enumeration()) && Consistent(cap, o.Enumeration())
      modifies this
      ensures View() == Merge(cap, old(View()), o.View())
    {
      kind := Join(kind, o.kind);
      observations, present := observations + o.observations, present + o.present;
      Widen(o.minLen, o.maxLen, o.first, o.last);
      MergeEnum(o.distinct, o.values, o.overflowed, cap);
    }

    /** Adds the other enumeration's values, in any order, until there are too many. */
    method MergeEnum(others: nat, more: map<string, nat>, over: bool, cap: int)
      requires Consistent(cap, Enumeration()) && Consistent(cap, Enum(others, more, over))
      modifies this`distinct, this`values, this`overflowed
      ensures Enumeration() == MergeEnums(cap, old(Enumeration()), Enum(others, more, over))
    {
      if overflowed || over {
        OverflowEnum();
        if others > distinct {
          distinct := others;
        }
        return;
      }
      var full;
      values, full := AddWhileFits(values, more, cap);
      if full {
        OverflowEnum();
        return;
      }
      distinct := |values|;
    }
  }
}
