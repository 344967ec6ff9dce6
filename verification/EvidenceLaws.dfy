/** What a position's evidence, and the decision made on it, say of the values seen there. */
module EvidenceLaws {
  import opened Events
  import opened Text
  import opened Sets
  import opened ValueTypes
  import opened Evidences

  /** A position that has seen these values, in order. */
  function Watched(infer: string -> ValueType, vs: seq<string>, cap: int): Evidence {
    if vs == [] then NOTHING
    else
      var v := vs[|vs| - 1];
      Seen(Watched(infer, vs[..|vs| - 1], cap), v, infer(v), cap)
  }

  // ---- counting what was seen ----

  ghost function Times(vs: seq<string>, v: string): nat {
    multiset(vs)[v]
  }

  ghost function OfType(infer: string -> ValueType, vs: seq<string>, t: ValueType): set<nat> {
    set i | 0 <= i < |vs| && infer(vs[i]) == t
  }

  ghost function Distinct(vs: seq<string>): set<string> {
    set v | v in vs
  }

  /** How many different values are kept. */
  function Most(cap: int): nat {
    if cap < 0 then 0 else cap + 1
  }

  lemma DistinctSnoc(vs: seq<string>)
    requires vs != []
    ensures var n := |vs| - 1; Distinct(vs) == Distinct(vs[..n]) + {vs[n]}
    ensures forall v {:trigger Times(vs, v)} ::
      Times(vs, v) == Times(vs[..|vs| - 1], v) + if vs[|vs| - 1] == v then 1 else 0
  {
    assert vs == vs[..|vs| - 1] + [vs[|vs| - 1]];
  }

  lemma OfTypeSnoc(infer: string -> ValueType, vs: seq<string>, t: ValueType)
    requires vs != []
    ensures var n := |vs| - 1;
      |OfType(infer, vs, t)| == |OfType(infer, vs[..n], t)| + if infer(vs[n]) == t then 1 else 0
  {
    var n := |vs| - 1;
    var had, all := OfType(infer, vs[..n], t), OfType(infer, vs, t);
    forall i
      ensures i in all <==> i in had || (i == n && infer(vs[n]) == t)
    {
      if 0 <= i < n {
        assert vs[..n][i] == vs[i];
      }
    }
    assert n !in had;
    if infer(vs[n]) == t {
      assert all == had + {n};
    } else {
      assert all == had;
    }
  }

  /** The values kept were seen as often as they are counted; they are all there were, or as many as may be kept. */
  ghost predicate KeepsValues(values: map<string, nat>, overflow: bool, vs: seq<string>, cap: int) {
    && values.Keys <= Distinct(vs) && (forall v | v in values :: values[v] == Times(vs, v))
    && (overflow <==> |Distinct(vs)| > Most(cap))
    && if overflow then |values| == Most(cap) else values.Keys == Distinct(vs)
  }

  lemma BumpKeys(values: map<string, nat>, v: string)
    ensures Bump(values, v, 1).Keys == values.Keys + {v}
    ensures |Bump(values, v, 1)| == |values| + if v in values then 0 else 1
    ensures |values| == |values.Keys|
  {
    assert Bump(values, v, 1).Keys == values.Keys + {v};
  }

  lemma KeepsMore(values: map<string, nat>, overflow: bool, vs: seq<string>, cap: int)
    requires vs != [] && KeepsValues(values, overflow, vs[..|vs| - 1], cap)
    ensures var v := vs[|vs| - 1]; var kept := v in values || |values| <= cap;
      KeepsValues(if kept then Bump(values, v, 1) else values, overflow || !kept, vs, cap)
  {
    var before, v := vs[..|vs| - 1], vs[|vs| - 1];
    DistinctSnoc(vs);
    WithOne(Distinct(before), v);
    Larger(values.Keys, Distinct(before));
    BumpKeys(values, v);
    assert v !in Distinct(before) ==> Times(before, v) == 0;
    if overflow && v in Distinct(before) && v !in values {
      assert |values| > cap;
    }
  }

  lemma {:induction false} ValuesKept(infer: string -> ValueType, vs: seq<string>, cap: int)
    ensures var ev := Watched(infer, vs, cap); KeepsValues(ev.values, ev.overflow, vs, cap)
  {
    if vs == [] {
      assert Distinct([]) == {};
    } else {
      hide KeepsValues;
      var before := Watched(infer, vs[..|vs| - 1], cap);
      ValuesKept(infer, vs[..|vs| - 1], cap);
      KeepsMore(before.values, before.overflow, vs, cap);
    }
  }

  lemma {:induction false} TypesCounted(infer: string -> ValueType, vs: seq<string>, cap: int, t: ValueType)
    ensures Get(Watched(infer, vs, cap).types, t) == |OfType(infer, vs, t)|
    ensures t in Watched(infer, vs, cap).types <==> OfType(infer, vs, t) != {}
    ensures Watched(infer, vs, cap).count == |vs|
  {
    if vs == [] {
      assert OfType(infer, vs, t) == {};
    } else {
      hide OfType;
      TypesCounted(infer, vs[..|vs| - 1], cap, t);
      OfTypeSnoc(infer, vs, t);
    }
  }

  // ---- deciding ----

  /** A promotable type that covers its share of the values. */
  ghost predicate Covers(infer: string -> ValueType, vs: seq<string>, t: ValueType, share: real) {
    && t in {Int, UUID, Hex, Date}
    && OfType(infer, vs, t) != {} && |OfType(infer, vs, t)| as real >= share * |vs| as real
  }

  lemma CoversDominates(infer: string -> ValueType, vs: seq<string>, opts: TemplateOptions, t: ValueType)
    ensures Dominates(Watched(infer, vs, opts.maxDistinct), t, opts) <==> Covers(infer, vs, t, opts.typeShare)
  {
    hide Watched, OfType;
    TypesCounted(infer, vs, opts.maxDistinct, t);
  }

  /** As many different values as a decision knows of. */
  function Known(distinct: nat, maxDistinct: int): int {
    if distinct > Most(maxDistinct) then maxDistinct + 1 else distinct
  }

  lemma SeenDistinct(infer: string -> ValueType, vs: seq<string>, opts: TemplateOptions)
    ensures DistinctSeen(Watched(infer, vs, opts.maxDistinct), opts) == Known(|Distinct(vs)|, opts.maxDistinct)
  {
    hide Watched, Distinct;
    ValuesKept(infer, vs, opts.maxDistinct);
    var ev := Watched(infer, vs, opts.maxDistinct);
    assert |ev.values| == |ev.values.Keys|;
  }

  /** The share of singletons among the values kept reaches the threshold. */
  ghost predicate MostlyOnce(infer: string -> ValueType, vs: seq<string>, opts: TemplateOptions) {
    var kept := Watched(infer, vs, opts.maxDistinct).values.Keys;
    || opts.varSingletonShare <= 0.0 || kept == {}
    || |set v | v in kept && Times(vs, v) == 1| as real / |kept| as real >= opts.varSingletonShare
  }

  lemma MostlyOnceIsVariable(infer: string -> ValueType, vs: seq<string>, opts: TemplateOptions)
    ensures IsVariable(Watched(infer, vs, opts.maxDistinct), opts) <==> MostlyOnce(infer, vs, opts)
  {
    hide Watched, Times;
    ValuesKept(infer, vs, opts.maxDistinct);
    var ev := Watched(infer, vs, opts.maxDistinct);
    assert |ev.values| == |ev.values.Keys|;
    assert ev.values.Keys == {} <==> |ev.values| == 0;
    assert Singletons(ev.values) == set v | v in ev.values.Keys && Times(vs, v) == 1;
  }

  /** What a position decides, said of the values it saw: nothing before it saw enough; then the first type by name
      among those that cover their share, if there are enough different values; otherwise {var}, if there are too
      many different values, enough visits for them to have repeated, and they mostly did not. */
  lemma DecidesOnValues(infer: string -> ValueType, vs: seq<string>, opts: TemplateOptions, r: Option<ValueType>)
    requires IsDecision(Watched(infer, vs, opts.maxDistinct), opts, r)
    ensures |vs| < opts.minSamples ==> r == None
    ensures var typed := Known(|Distinct(vs)|, opts.maxDistinct) >= opts.minDistinctForType
        && exists t :: Covers(infer, vs, t, opts.typeShare);
      |vs| >= opts.minSamples ==>
        if typed then
          && r.Some? && Covers(infer, vs, r.value, opts.typeShare)
          && forall u | Covers(infer, vs, u, opts.typeShare) :: AtMost(r.value.Name(), u.Name())
        else r == if |Distinct(vs)| > opts.maxDistinct && |vs| >= opts.maxDistinct * opts.varRepeatFactor
                     && MostlyOnce(infer, vs, opts) then Some(Var) else None
  {
    hide Watched, Covers, Dominates, MostlyOnce, IsVariable, Distinct, DistinctSeen;
    var ev := Watched(infer, vs, opts.maxDistinct);
    TypesCounted(infer, vs, opts.maxDistinct, Var);
    SeenDistinct(infer, vs, opts);
    MostlyOnceIsVariable(infer, vs, opts);
    forall t
      ensures Dominates(ev, t, opts) <==> Covers(infer, vs, t, opts.typeShare)
    {
      CoversDominates(infer, vs, opts, t);
    }
  }

  lemma NoSingletons(infer: string -> ValueType, vs: seq<string>, cap: int)
    requires forall v | v in vs :: Times(vs, v) > 1
    ensures (set v | v in Watched(infer, vs, cap).values.Keys && Times(vs, v) == 1) == {}
  {
    hide Watched, Times;
    ValuesKept(infer, vs, cap);
    forall v | v in Watched(infer, vs, cap).values.Keys
      ensures Times(vs, v) != 1
    {
      assert v in Distinct(vs);
    }
  }

  lemma SomeKept(infer: string -> ValueType, vs: seq<string>, cap: int)
    requires vs != [] && cap >= 0
    ensures Watched(infer, vs, cap).values.Keys != {}
  {
    hide Watched;
    ValuesKept(infer, vs, cap);
    assert vs[0] in Distinct(vs);
  }

  lemma NotMostlyOnce(infer: string -> ValueType, vs: seq<string>, opts: TemplateOptions)
    requires opts.maxDistinct >= 0 && opts.varSingletonShare > 0.0
    requires vs != [] && forall v | v in vs :: Times(vs, v) > 1
    ensures !MostlyOnce(infer, vs, opts)
  {
    hide Watched, Times;
    SomeKept(infer, vs, opts.maxDistinct);
    NoSingletons(infer, vs, opts.maxDistinct);
  }

  /** A vocabulary of routes stays literal: while every value seen was seen again and none of the types covers its
      share, nothing is decided, however many values there are. */
  lemma VocabularyStays(infer: string -> ValueType, vs: seq<string>, opts: TemplateOptions, r: Option<ValueType>)
    requires opts.maxDistinct >= 0 && opts.varSingletonShare > 0.0
    requires IsDecision(Watched(infer, vs, opts.maxDistinct), opts, r)
    requires vs != [] && forall v | v in vs :: Times(vs, v) > 1
    requires forall t :: !Covers(infer, vs, t, opts.typeShare)
    ensures r == None
  {
    hide Covers, IsDecision, MostlyOnce, Times, Watched;
    DecidesOnValues(infer, vs, opts, r);
    NotMostlyOnce(infer, vs, opts);
  }
}
