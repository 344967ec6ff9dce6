/** Sizes and extremes of finite sets. */
module Sets {
  /** A subset is no larger. */
  lemma Larger<K>(a: set<K>, b: set<K>)
    requires a <= b
    ensures |a| <= |b|
  {
    assert b == a + (b - a);
  }

  /** A proper subset is smaller. */
  lemma Smaller<K>(a: set<K>, b: set<K>)
    requires a <= b
    ensures a == b || |a| < |b|
  {
    assert |b - a| == |b| - |a|;
  }

  /** A subset of the same size is everything. */
  lemma AllOf<K>(part: set<K>, whole: set<K>)
    requires part <= whole && |whole| <= |part|
    ensures part == whole
  {
    assert |whole - part| == |whole| - |part|;
  }

  lemma WithOne<K>(s: set<K>, x: K)
    ensures |s + {x}| == |s| + if x in s then 0 else 1
    ensures |s - {x}| == |s| - if x in s then 1 else 0
  {
    if x in s {
      assert s + {x} == s;
    } else {
      assert s - {x} == s;
    }
  }

  /** Disjoint sets have nothing in common. */
  lemma Apart<K>(a: set<K>, b: set<K>)
    ensures a !! b <==> a * b == {}
  {
    forall x | x in a && x in b
      ensures a * b != {}
    {
      assert x in a * b;
    }
  }

  /** low and high are the least and the greatest of these numbers, if there are any. */
  ghost predicate Extremes(low: int, high: int, xs: set<int>) {
    (forall x | x in xs :: low <= x <= high) && (xs != {} ==> low in xs && high in xs)
  }
}
