/** When merging two endpoint profiles does not depend on which is merged into which, nor on the order a map is
    ranged over. */
module MergeOrder {
  import opened Sets
  import opened Evidences
  import opened Parameters
  import opened Profiles

  // ---- choosing what fits ----

  lemma {:induction false} Choose<K>(n: set<K>, k: nat) returns (v: set<K>)
    requires k <= |n|
    ensures v <= n && |v| == k
  {
    v := {};
    if k > 0 {
      var x :| x in n;
      var w := Choose(n - {x}, k - 1);
      v := w + {x};
    }
  }

  /** More names than fit can be cut down to two different choices. */
  lemma TwoChoices<K>(n: set<K>, k: nat) returns (v: set<K>, w: set<K>)
    requires 1 <= k < |n|
    ensures v <= n && w <= n && |v| == |w| == k && v != w
  {
    var s := Choose(n, k - 1);
    assert |n - s| == |n| - |s|;
    var x :| x in n - s;
    assert |n - s - {x}| >= 1;
    var y :| y in n - s - {x};
    v, w := s + {x}, s + {y};
    assert x in v && x !in w;
  }

  lemma SizeWith<K>(a: set<K>, b: set<K>, v: set<K>)
    requires v <= b - a
    ensures |a + v| == |a| + |v| && |a + b| == |a| + |b - a|
  {
    assert a + b == a + (b - a);
  }

  // ---- the cookie names ----

  /** Both orders leave the same elements: everything fits, or there is nothing to add. */
  predicate SetCommutes<K(==)>(a: set<K>, b: set<K>, cap: int) {
    |a + b| <= cap || a == b
  }

  /** Both orders agree on whether something was cut off. */
  predicate CutCommutes<K(==)>(a: set<K>, b: set<K>, cap: int) {
    |a + b| < cap || (|a + b| <= cap && a !! b) || a == b
  }

  lemma SameNames(a: set<string>, b: set<string>, cap: int, m: set<string>, cut: bool)
    requires SetCommutes(a, b, cap) && Unites(m, a, b, cut, cap)
    ensures m == a + b
  {
    var visited :| Visits(m, a, b, cut, cap, visited);
    if cut && a != b {
      AllOf(m, a + b);
    }
  }

  lemma SameCut(a: set<string>, b: set<string>, cap: int, m: set<string>, cut: bool)
    requires CutCommutes(a, b, cap) && Unites(m, a, b, cut, cap)
    ensures cut <==> a == b != {} && |a| >= cap
  {
    var visited :| Visits(m, a, b, cut, cap, visited);
    Larger(m, a + b);
    Smaller(visited, b);
    assert a == b ==> a + visited == a;
    assert a !! b ==> |a + visited| == |a| + |visited| && |a + b| == |a| + |b|;
  }

  lemma Admit(a: set<string>, b: set<string>, cap: int, v: set<string>) returns (m: set<string>, cut: bool)
    requires |a| < cap < |a + b| && v <= b - a && |a| + |v| == cap
    ensures Unites(m, a, b, cut, cap) && m == a + v && cut
  {
    SizeWith(a, b, v);
    m, cut := a + v, true;
    assert v == b ==> a + v == a + b;
    assert Visits(m, a, b, cut, cap, v);
  }

  lemma SomeNames(a: set<string>, b: set<string>, cap: int) returns (m: set<string>, cut: bool)
    ensures Unites(m, a, b, cut, cap)
  {
    if b == {} || |a| >= cap {
      m, cut := a, b != {};
      assert Visits(m, a, b, cut, cap, {});
    } else if |a + b| <= cap {
      m, cut := a + b, false;
      assert Visits(m, a, b, cut, cap, b);
    } else {
      SizeWith(a, b, {});
      var v := Choose(b - a, cap - |a|);
      m, cut := Admit(a, b, cap, v);
    }
  }

  /** When there is a choice, some merge differs from any given set. */
  lemma OtherNames(a: set<string>, b: set<string>, cap: int, n: set<string>) returns (m: set<string>, cut: bool)
    requires |a| < cap < |a + b|
    ensures Unites(m, a, b, cut, cap) && m != n
  {
    SizeWith(a, b, {});
    var v, w := TwoChoices(b - a, cap - |a|);
    m, cut := Admit(a, b, cap, v);
    if m == n {
      m, cut := Admit(a, b, cap, w);
      assert a + v != a + w by {
        var x :| (x in v && x !in w) || (x in w && x !in v);
      }
    }
  }

  lemma NamesClash(a: set<string>, b: set<string>, cap: int)
    returns (m: set<string>, cut: bool, n: set<string>, other: bool)
    requires !SetCommutes(a, b, cap)
    ensures Unites(m, a, b, cut, cap) && Unites(n, b, a, other, cap) && m != n
  {
    assert a + b == b + a;
    if |a| < cap {
      n, other := SomeNames(b, a, cap);
      m, cut := OtherNames(a, b, cap, n);
    } else if |b| < cap {
      m, cut := SomeNames(a, b, cap);
      n, other := OtherNames(b, a, cap, m);
    } else {
      m, cut, n, other := a, b != {}, b, a != {};
      assert Visits(m, a, b, cut, cap, {}) && Visits(n, b, a, other, cap, {});
    }
  }

  /** At exactly the cap a name both sides have decides, by when it comes, whether the merge is cut. */
  lemma EitherCut(a: set<string>, b: set<string>, cap: int, cut: bool) returns (m: set<string>)
    requires |a| < cap == |a + b| && !(a !! b)
    ensures Unites(m, a, b, cut, cap)
  {
    var x :| x in a && x in b;
    m := a + b;
    assert Visits(m, a, b, false, cap, b);
    assert a + (b - {x}) == a + b && b - {x} != b;
    assert b - {x} == {} ==> a + b == a;
    assert Visits(m, a, b, true, cap, b - {x});
  }

  lemma CutsClash(a: set<string>, b: set<string>, cap: int)
    returns (m: set<string>, cut: bool, n: set<string>, other: bool)
    requires SetCommutes(a, b, cap) && !CutCommutes(a, b, cap)
    ensures Unites(m, a, b, cut, cap) && Unites(n, b, a, other, cap) && cut != other
  {
    assert a + b == b + a;
    if |a| < cap {
      n, other := SomeNames(b, a, cap);
      cut := !other;
      m := EitherCut(a, b, cap, cut);
    } else {
      AllOf(a, a + b);
      m, cut := SomeNames(a, b, cap);
      if |b| >= cap {
        AllOf(b, a + b);
      }
      other := !cut;
      n := EitherCut(b, a, cap, other);
    }
  }

  // ---- statuses and parameters ----

  /** `all` holds a and b without the keys of `lost`, which found it full. */
  ghost predicate Admits<K>(all: set<K>, a: set<K>, b: set<K>, lost: set<K>, cap: int) {
    lost <= b - a && all == a + b - lost && Fits(|all|, |a|, lost != {}, cap - 1)
  }

  lemma NothingRefused<K>(a: set<K>, b: set<K>, cap: int, all: set<K>, lost: set<K>)
    requires SetCommutes(a, b, cap) && Admits(all, a, b, lost, cap)
    ensures lost == {} && all == a + b
  {
    Smaller(all, a + b);
    assert all == a + b ==> lost == {};
  }

  lemma AdmittedWithin<K>(all: set<K>, a: set<K>, b: set<K>, lost: set<K>, cap: int)
    requires Admits(all, a, b, lost, cap)
    ensures all <= a + b
  {
  }

  lemma AdmitKeys<K>(a: set<K>, b: set<K>, cap: int, v: set<K>) returns (all: set<K>, lost: set<K>)
    requires |a| < cap < |a + b| && v <= b - a && |a| + |v| == cap
    ensures Admits(all, a, b, lost, cap) && all == a + v
  {
    SizeWith(a, b, v);
    all, lost := a + v, b - a - v;
    assert all == a + b - lost;
  }

  lemma SomeKeys<K>(a: set<K>, b: set<K>, cap: int) returns (all: set<K>, lost: set<K>)
    ensures Admits(all, a, b, lost, cap)
  {
    if |a| >= cap {
      all, lost := a, b - a;
      assert all == a + b - lost;
    } else if |a + b| <= cap {
      all, lost := a + b, {};
    } else {
      SizeWith(a, b, {});
      var v := Choose(b - a, cap - |a|);
      all, lost := AdmitKeys(a, b, cap, v);
    }
  }

  lemma OtherKeys<K(!new)>(a: set<K>, b: set<K>, cap: int, n: set<K>) returns (all: set<K>, lost: set<K>)
    requires |a| < cap < |a + b|
    ensures Admits(all, a, b, lost, cap) && all != n
  {
    SizeWith(a, b, {});
    var v, w := TwoChoices(b - a, cap - |a|);
    all, lost := AdmitKeys(a, b, cap, v);
    if all == n {
      all, lost := AdmitKeys(a, b, cap, w);
      assert a + v != a + w by {
        var x :| (x in v && x !in w) || (x in w && x !in v);
      }
    }
  }

  lemma KeysClash<K(!new)>(a: set<K>, b: set<K>, cap: int)
    returns (m: set<K>, lost: set<K>, n: set<K>, gone: set<K>)
    requires !SetCommutes(a, b, cap)
    ensures Admits(m, a, b, lost, cap) && Admits(n, b, a, gone, cap) && m != n
  {
    assert a + b == b + a;
    if |a| < cap {
      n, gone := SomeKeys(b, a, cap);
      m, lost := OtherKeys(a, b, cap, n);
    } else if |b| < cap {
      m, lost := SomeKeys(a, b, cap);
      n, gone := OtherKeys(b, a, cap, m);
    } else {
      m, lost, n, gone := a, b - a, b, a - b;
      assert m == a + b - lost && n == b + a - gone;
    }
  }

  // ---- whole profiles ----

  /** What each merge leaves of the names and keys. */
  datatype Kept = Kept(
    cookies: set<string>, cut: bool, statuses: set<int>, more: set<int>, params: set<ParamKey>, refused: set<ParamKey>)

  ghost predicate Keeps(caps: Caps, a: Profile, b: Profile, k: Kept) {
    && Unites(k.cookies, a.cookies, b.cookies, k.cut, caps.cookies)
    && Admits(k.statuses, a.statuses.Keys, b.statuses.Keys, k.more, caps.statuses)
    && Admits(k.params, a.params.Keys, b.params.Keys, k.refused, caps.params)
  }

  function StatusesOf(a: map<int, nat>, b: map<int, nat>, keys: set<int>): map<int, nat> {
    map s | s in keys :: Get(a, s) + Get(b, s)
  }

  function ParamsOf(cap: int, a: map<ParamKey, Param>, b: map<ParamKey, Param>, keys: set<ParamKey>)
    : map<ParamKey, Param>
    requires keys <= a.Keys + b.Keys
  {
    map p | p in keys :: ParamOf(cap, a, b, p)
  }

  /** The merged profile that keeps these. */
  function Assemble(caps: Caps, a: Profile, b: Profile, k: Kept): Profile
    requires k.params <= a.params.Keys + b.params.Keys
  {
    Profile(a.observations + b.observations, Min(a.first, b.first), Max(a.last, b.last), Ceilings(a.maxima, b.maxima),
            k.cookies, StatusesOf(a.statuses, b.statuses, k.statuses), a.providers + b.providers,
            a.truncated || b.truncated || k.cut || k.more != {} || k.refused != {},
            ParamsOf(caps.enumValues, a.params, b.params, k.params))
  }

  lemma StatusesKept(a: map<int, nat>, b: map<int, nat>, keys: set<int>, lost: set<int>, cap: int)
    requires Admits(keys, a.Keys, b.Keys, lost, cap)
    ensures var all := StatusesOf(a, b, keys); Adds(all, a, b, lost) && Fits(|all|, |a|, lost != {}, cap - 1)
  {
    var all := StatusesOf(a, b, keys);
    assert all.Keys == keys && |all| == |all.Keys| && |a| == |a.Keys|;
  }

  lemma StatusesAdmitted(all: map<int, nat>, a: map<int, nat>, b: map<int, nat>, lost: set<int>, cap: int)
    requires Adds(all, a, b, lost) && Fits(|all|, |a|, lost != {}, cap - 1)
    ensures Admits(all.Keys, a.Keys, b.Keys, lost, cap)
  {
    hide Fits, Get;
    assert |all| == |all.Keys| && |a| == |a.Keys|;
  }

  lemma StatusesSum(all: map<int, nat>, a: map<int, nat>, b: map<int, nat>, lost: set<int>)
    requires Adds(all, a, b, lost)
    ensures all == StatusesOf(a, b, all.Keys)
  {
    hide Get;
    var sums := StatusesOf(a, b, all.Keys);
    forall k {:trigger sums[k]} | k in sums
      ensures all[k] == sums[k]
    {
      assert all[k] == Get(a, k) + Get(b, k);
    }
    assert all == sums;
  }

  lemma ParamsKept(
    cap: int, a: map<ParamKey, Param>, b: map<ParamKey, Param>, keys: set<ParamKey>, lost: set<ParamKey>, most: int)
    requires Admits(keys, a.Keys, b.Keys, lost, most)
    ensures var all := ParamsOf(cap, a, b, keys);
      ParamsMerge(all, a, b, lost, cap) && Fits(|all|, |a|, lost != {}, most - 1)
  {
    var all := ParamsOf(cap, a, b, keys);
    assert all.Keys == keys && |all| == |all.Keys| && |a| == |a.Keys|;
  }

  lemma ParamsAre(
    cap: int, all: map<ParamKey, Param>, a: map<ParamKey, Param>, b: map<ParamKey, Param>, lost: set<ParamKey>,
    most: int)
    requires ParamsMerge(all, a, b, lost, cap) && Fits(|all|, |a|, lost != {}, most - 1)
    ensures Admits(all.Keys, a.Keys, b.Keys, lost, most) && all == ParamsOf(cap, a, b, all.Keys)
  {
    hide Fits, ParamOf;
    var same := ParamsOf(cap, a, b, all.Keys);
    assert |all| == |all.Keys| && |a| == |a.Keys|;
    forall k {:trigger same[k]} | k in same
      ensures all[k] == same[k]
    {
      assert all[k] == ParamOf(cap, a, b, k);
    }
    assert all == same;
  }

  lemma AssembleMerges(caps: Caps, a: Profile, b: Profile, k: Kept)
    requires Keeps(caps, a, b, k)
    ensures Merged(caps, Assemble(caps, a, b, k), a, b)
  {
    StatusesKept(a.statuses, b.statuses, k.statuses, k.more, caps.statuses);
    ParamsKept(caps.enumValues, a.params, b.params, k.params, k.refused, caps.params);
    hide Unites, Admits, StatusesOf, ParamsOf, Adds, ParamsMerge, Merged, Fits, Ceilings;
    CutsMerge(caps, Assemble(caps, a, b, k), a, b, k.cut, k.more, k.refused);
  }

  /** Every merge keeps something and is determined by it. */
  lemma MergeKeeps(caps: Caps, m: Profile, a: Profile, b: Profile) returns (k: Kept)
    requires Merged(caps, m, a, b)
    ensures Keeps(caps, a, b, k) && m == Assemble(caps, a, b, k)
  {
    hide Unites, Admits, StatusesOf, ParamsOf, Adds, ParamsMerge, Fits, Ceilings;
    var cut, more, refused :| Cuts(caps, m, a, b, cut, more, refused);
    k := Kept(m.cookies, cut, m.statuses.Keys, more, m.params.Keys, refused);
    StatusesAdmitted(m.statuses, a.statuses, b.statuses, more, caps.statuses);
    StatusesSum(m.statuses, a.statuses, b.statuses, more);
    ParamsAre(caps.enumValues, m.params, a.params, b.params, refused, caps.params);
    AdmittedWithin(m.params.Keys, a.params.Keys, b.params.Keys, refused, caps.params);
  }

  /** Merging either into the other, whatever the order their maps are ranged over, gives one profile. */
  ghost predicate Commutes(caps: Caps, a: Profile, b: Profile) {
    forall m, n {:trigger Merged(caps, m, a, b), Merged(caps, n, b, a)}
      | Merged(caps, m, a, b) && Merged(caps, n, b, a) :: m == n
  }

  /** Names, statuses and parameters each fit, or are the same on both sides; and both orders agree on the mark, or
      one side carries it already. */
  predicate Agreeable(caps: Caps, a: Profile, b: Profile) {
    && SetCommutes(a.cookies, b.cookies, caps.cookies)
    && SetCommutes(a.statuses.Keys, b.statuses.Keys, caps.statuses)
    && SetCommutes(a.params.Keys, b.params.Keys, caps.params)
    && (CutCommutes(a.cookies, b.cookies, caps.cookies) || a.truncated || b.truncated)
  }

  lemma StatusesSwap(a: map<int, nat>, b: map<int, nat>, keys: set<int>)
    ensures StatusesOf(a, b, keys) == StatusesOf(b, a, keys)
  {
  }

  lemma ParamsSwap(cap: int, a: map<ParamKey, Param>, b: map<ParamKey, Param>, keys: set<ParamKey>)
    requires keys <= a.Keys + b.Keys
    ensures ParamsOf(cap, a, b, keys) == ParamsOf(cap, b, a, keys)
  {
    forall k | k in keys && k in a && k in b
      ensures Merge(cap, a[k], b[k]) == Merge(cap, b[k], a[k])
    {
      MergeCommutes(cap, a[k], b[k]);
    }
  }

  lemma SameKeys<K>(a: set<K>, b: set<K>, cap: int, all: set<K>, lost: set<K>, same: set<K>, gone: set<K>)
    requires SetCommutes(a, b, cap) && Admits(all, a, b, lost, cap) && Admits(same, b, a, gone, cap)
    ensures all == same == a + b && lost == gone == {}
  {
    assert a + b == b + a;
    NothingRefused(a, b, cap, all, lost);
    NothingRefused(b, a, cap, same, gone);
  }

  /** The same names either way, and the same mark where one side has not set it already. */
  lemma SameCookies(
    a: set<string>, b: set<string>, cap: int, all: set<string>, cut: bool, same: set<string>, other: bool)
    requires SetCommutes(a, b, cap) && Unites(all, a, b, cut, cap) && Unites(same, b, a, other, cap)
    ensures all == same && (CutCommutes(a, b, cap) ==> cut == other)
  {
    assert a + b == b + a;
    SameNames(a, b, cap, all, cut);
    SameNames(b, a, cap, same, other);
    if CutCommutes(a, b, cap) {
      SameCut(a, b, cap, all, cut);
      SameCut(b, a, cap, same, other);
    }
  }

  /** Merges that keep the same names and keys and agree on the mark are the same. */
  lemma AssembledSame(caps: Caps, a: Profile, b: Profile, j: Kept, k: Kept)
    requires j.params <= a.params.Keys + b.params.Keys && k.params <= b.params.Keys + a.params.Keys
    requires j.cookies == k.cookies && j.statuses == k.statuses && j.params == k.params
    requires j.more == k.more && j.refused == k.refused && (j.cut == k.cut || a.truncated || b.truncated)
    ensures Assemble(caps, a, b, j) == Assemble(caps, b, a, k)
  {
    hide StatusesOf, ParamsOf, Ceilings;
    CeilingsLaws(a.maxima, b.maxima, map[]);
    StatusesSwap(a.statuses, b.statuses, j.statuses);
    ParamsSwap(caps.enumValues, a.params, b.params, j.params);
    assert a.providers + b.providers == b.providers + a.providers;
  }

  lemma AgreeableSame(caps: Caps, a: Profile, b: Profile, m: Profile, n: Profile)
    requires Agreeable(caps, a, b) && Merged(caps, m, a, b) && Merged(caps, n, b, a)
    ensures m == n
  {
    hide Merged, Unites, Admits, SetCommutes, CutCommutes, Assemble;
    var j := MergeKeeps(caps, m, a, b);
    var k := MergeKeeps(caps, n, b, a);
    SameCookies(a.cookies, b.cookies, caps.cookies, j.cookies, j.cut, k.cookies, k.cut);
    SameKeys(a.statuses.Keys, b.statuses.Keys, caps.statuses, j.statuses, j.more, k.statuses, k.more);
    SameKeys(a.params.Keys, b.params.Keys, caps.params, j.params, j.refused, k.params, k.refused);
    AssembledSame(caps, a, b, j, k);
  }

  lemma SomeKept(caps: Caps, a: Profile, b: Profile) returns (k: Kept)
    ensures Keeps(caps, a, b, k)
  {
    hide Unites, Admits;
    var cookies, cut := SomeNames(a.cookies, b.cookies, caps.cookies);
    var statuses, more := SomeKeys(a.statuses.Keys, b.statuses.Keys, caps.statuses);
    var params, refused := SomeKeys(a.params.Keys, b.params.Keys, caps.params);
    k := Kept(cookies, cut, statuses, more, params, refused);
  }

  /** Two ways to cut the cookie names, statuses or parameters that do not leave the same. */
  lemma SetsClash(caps: Caps, a: Profile, b: Profile) returns (j: Kept, k: Kept)
    requires !SetCommutes(a.cookies, b.cookies, caps.cookies)
      || !SetCommutes(a.statuses.Keys, b.statuses.Keys, caps.statuses)
      || !SetCommutes(a.params.Keys, b.params.Keys, caps.params)
    ensures Keeps(caps, a, b, j) && Keeps(caps, b, a, k)
    ensures j.cookies != k.cookies || j.statuses != k.statuses || j.params != k.params
  {
    hide Unites, Admits, SetCommutes;
    j := SomeKept(caps, a, b);
    k := SomeKept(caps, b, a);
    if !SetCommutes(a.cookies, b.cookies, caps.cookies) {
      var x, cut, y, other := NamesClash(a.cookies, b.cookies, caps.cookies);
      j, k := j.(cookies := x, cut := cut), k.(cookies := y, cut := other);
    } else if !SetCommutes(a.statuses.Keys, b.statuses.Keys, caps.statuses) {
      var x, lost, y, gone := KeysClash(a.statuses.Keys, b.statuses.Keys, caps.statuses);
      j, k := j.(statuses := x, more := lost), k.(statuses := y, more := gone);
    } else {
      var x, lost, y, gone := KeysClash(a.params.Keys, b.params.Keys, caps.params);
      j, k := j.(params := x, refused := lost), k.(params := y, refused := gone);
    }
  }

  /** Two ways that leave the same, only one of which says that something was cut off. */
  lemma MarksClash(caps: Caps, a: Profile, b: Profile) returns (j: Kept, k: Kept)
    requires SetCommutes(a.cookies, b.cookies, caps.cookies)
    requires SetCommutes(a.statuses.Keys, b.statuses.Keys, caps.statuses)
    requires SetCommutes(a.params.Keys, b.params.Keys, caps.params)
    requires !CutCommutes(a.cookies, b.cookies, caps.cookies)
    ensures Keeps(caps, a, b, j) && Keeps(caps, b, a, k)
    ensures j.more == k.more == {} && j.refused == k.refused == {} && j.cut != k.cut
  {
    hide Unites, Admits, SetCommutes, CutCommutes;
    j := SomeKept(caps, a, b);
    k := SomeKept(caps, b, a);
    var x, cut, y, other := CutsClash(a.cookies, b.cookies, caps.cookies);
    j, k := j.(cookies := x, cut := cut), k.(cookies := y, cut := other);
    SameKeys(a.statuses.Keys, b.statuses.Keys, caps.statuses, j.statuses, j.more, k.statuses, k.more);
    SameKeys(a.params.Keys, b.params.Keys, caps.params, j.params, j.refused, k.params, k.refused);
  }

  /** What a merge keeps can be read off the merged profile. */
  lemma AssembledKeys(caps: Caps, a: Profile, b: Profile, k: Kept)
    requires k.params <= a.params.Keys + b.params.Keys
    ensures var m := Assemble(caps, a, b, k);
      && m.cookies == k.cookies && m.statuses.Keys == k.statuses && m.params.Keys == k.params
      && m.truncated == (a.truncated || b.truncated || k.cut || k.more != {} || k.refused != {})
  {
  }

  /** Two ways of merging that differ. */
  lemma Clash(caps: Caps, a: Profile, b: Profile) returns (m: Profile, n: Profile)
    requires !Agreeable(caps, a, b)
    ensures Merged(caps, m, a, b) && Merged(caps, n, b, a) && m != n
  {
    hide Merged, Unites, Admits, SetCommutes, CutCommutes, Assemble;
    var j, k;
    if SetCommutes(a.cookies, b.cookies, caps.cookies)
      && SetCommutes(a.statuses.Keys, b.statuses.Keys, caps.statuses)
      && SetCommutes(a.params.Keys, b.params.Keys, caps.params)
    {
      j, k := MarksClash(caps, a, b);
    } else {
      j, k := SetsClash(caps, a, b);
    }
    AdmittedWithin(j.params, a.params.Keys, b.params.Keys, j.refused, caps.params);
    AdmittedWithin(k.params, b.params.Keys, a.params.Keys, k.refused, caps.params);
    AssembleMerges(caps, a, b, j);
    AssembleMerges(caps, b, a, k);
    AssembledKeys(caps, a, b, j);
    AssembledKeys(caps, b, a, k);
    m, n := Assemble(caps, a, b, j), Assemble(caps, b, a, k);
  }

  /** Merging commutes exactly when the two profiles are agreeable. */
  lemma MergeCommutesExactly(caps: Caps, a: Profile, b: Profile)
    ensures Commutes(caps, a, b) <==> Agreeable(caps, a, b)
  {
    if Agreeable(caps, a, b) {
      forall m, n {:trigger Merged(caps, m, a, b), Merged(caps, n, b, a)}
        | Merged(caps, m, a, b) && Merged(caps, n, b, a)
        ensures m == n
      {
        AgreeableSame(caps, a, b, m, n);
      }
    } else {
      var m, n := Clash(caps, a, b);
    }
  }

  /** One cookie name fits and two come: which of them is kept is open. */
  lemma EitherName(caps: Caps, at: int, x: string, y: string, b: Profile)
    requires caps.cookies == 1 && x != y && b == Blank(at).(cookies := {x, y})
    ensures !Commutes(caps, Blank(at), b)
  {
    assert |{x, y}| == 2;
    assert {} + {x, y} == {x, y};
    MergeCommutesExactly(caps, Blank(at), b);
  }
}
