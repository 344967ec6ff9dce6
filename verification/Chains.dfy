/** What correlation means: two identifiers belong together when a chain of groups, each
    sharing an identifier with the next, leads from one to the other. A group is the
    identifier list of one record, or one linked pair. */
module Chains {

  ghost predicate Share(groups: seq<seq<string>>, a: string, b: string) {
    exists i :: 0 <= i < |groups| && a in groups[i] && b in groups[i]
  }

  /** The i-th hop of p stays inside one group. */
  ghost predicate Hop(groups: seq<seq<string>>, p: seq<string>, i: int)
    requires 0 <= i < |p| - 1
  {
    Share(groups, p[i], p[i + 1])
  }

  ghost predicate Chain(groups: seq<seq<string>>, p: seq<string>) {
    && p != []
    && forall i {:trigger Hop(groups, p, i)} :: 0 <= i < |p| - 1 ==> Hop(groups, p, i)
  }

  ghost predicate Connected(groups: seq<seq<string>>, a: string, b: string) {
    exists p :: Chain(groups, p) && p[0] == a && p[|p| - 1] == b
  }

  /** Some identifier of `g` is connected to a. */
  ghost predicate Touches(groups: seq<seq<string>>, a: string, g: seq<string>) {
    exists x :: x in g && Connected(groups, a, x)
  }

  lemma Reflexive(groups: seq<seq<string>>, a: string)
    ensures Connected(groups, a, a)
  {
    assert Chain(groups, [a]);
  }

  lemma ShareConnected(groups: seq<seq<string>>, i: nat, a: string, b: string)
    requires i < |groups| && a in groups[i] && b in groups[i]
    ensures Connected(groups, a, b)
  {
    assert Share(groups, a, b);
    assert forall k :: 0 <= k < 1 ==> Hop(groups, [a, b], k);
    assert Chain(groups, [a, b]);
  }

  lemma Transitive(groups: seq<seq<string>>, a: string, b: string, c: string)
    requires Connected(groups, a, b) && Connected(groups, b, c)
    ensures Connected(groups, a, c)
  {
    var p :| Chain(groups, p) && p[0] == a && p[|p| - 1] == b;
    var q :| Chain(groups, q) && q[0] == b && q[|q| - 1] == c;
    var r := p + q[1..];
    assert forall i :: 0 <= i < |p| ==> r[i] == p[i];
    assert forall i :: |p| - 1 <= i < |r| ==> r[i] == q[i - |p| + 1];
    forall i | 0 <= i < |r| - 1
      ensures Hop(groups, r, i)
    {
      assert if i < |p| - 1 then Hop(groups, p, i) else Hop(groups, q, i - |p| + 1);
    }
    assert Chain(groups, r);
  }

  lemma {:induction false} Symmetric(groups: seq<seq<string>>, a: string, b: string)
    requires Connected(groups, a, b)
    ensures Connected(groups, b, a)
  {
    var p :| Chain(groups, p) && p[0] == a && p[|p| - 1] == b;
    var r := seq(|p|, i requires 0 <= i < |p| => p[|p| - 1 - i]);
    forall i | 0 <= i < |r| - 1
      ensures Hop(groups, r, i)
    {
      assert Hop(groups, p, |p| - 2 - i);
    }
    assert Chain(groups, r);
  }

  lemma Equivalence(groups: seq<seq<string>>)
    ensures forall a :: Connected(groups, a, a)
    ensures forall a, b :: Connected(groups, a, b) ==> Connected(groups, b, a)
    ensures forall a, b, c :: Connected(groups, a, b) && Connected(groups, b, c) ==> Connected(groups, a, c)
  {
    forall a ensures Connected(groups, a, a) { Reflexive(groups, a); }
    forall a, b | Connected(groups, a, b) ensures Connected(groups, b, a) { Symmetric(groups, a, b); }
    forall a, b, c | Connected(groups, a, b) && Connected(groups, b, c) ensures Connected(groups, a, c) {
      Transitive(groups, a, b, c);
    }
  }

  /** More groups connect no less. */
  lemma {:induction false} Monotone(groups: seq<seq<string>>, more: seq<seq<string>>, a: string, b: string)
    requires forall x, y :: Share(groups, x, y) ==> Share(more, x, y)
    requires Connected(groups, a, b)
    ensures Connected(more, a, b)
  {
    var p :| Chain(groups, p) && p[0] == a && p[|p| - 1] == b;
    forall i | 0 <= i < |p| - 1
      ensures Hop(more, p, i)
    {
      assert Hop(groups, p, i);
    }
    assert Chain(more, p);
  }

  lemma ShareSnoc(groups: seq<seq<string>>, g: seq<string>, x: string, y: string)
    ensures Share(groups + [g], x, y) <==> Share(groups, x, y) || (x in g && y in g)
  {
    var more := groups + [g];
    if Share(groups, x, y) {
      var i :| 0 <= i < |groups| && x in groups[i] && y in groups[i];
      assert more[i] == groups[i];
    }
    if x in g && y in g {
      assert more[|groups|] == g;
    }
    if Share(more, x, y) {
      var i :| 0 <= i < |more| && x in more[i] && y in more[i];
      if i < |groups| {
        assert groups[i] == more[i];
      }
    }
  }

  /** A chain that may use the new group either avoids it or reaches it from both ends. */
  lemma {:induction false} ChainSnoc(groups: seq<seq<string>>, g: seq<string>, p: seq<string>)
    requires Chain(groups + [g], p)
    ensures Connected(groups, p[0], p[|p| - 1])
         || (Touches(groups, p[0], g) && Touches(groups, p[|p| - 1], g))
    decreases |p|
  {
    Equivalence(groups);
    if |p| > 1 {
      var a, b, c := p[0], p[1], p[|p| - 1];
      assert Hop(groups + [g], p, 0);
      ShareSnoc(groups, g, a, b);
      var q := p[1..];
      forall i | 0 <= i < |q| - 1
        ensures Hop(groups + [g], q, i)
      {
        assert Hop(groups + [g], p, i + 1);
      }
      ChainSnoc(groups, g, q);
      assert q[0] == b && q[|q| - 1] == c;
      if Share(groups, a, b) {
        var i :| 0 <= i < |groups| && a in groups[i] && b in groups[i];
        ShareConnected(groups, i, a, b);
      } else {
        assert Touches(groups, a, g) && Connected(groups, c, c);
        if Connected(groups, b, c) {
          assert Connected(groups, c, b);
          assert Touches(groups, c, g);
        }
      }
    }
  }

  /** Adding a group joins exactly the classes it touches. */
  lemma ConnectedSnoc(groups: seq<seq<string>>, g: seq<string>, a: string, b: string)
    ensures Connected(groups + [g], a, b)
       <==> Connected(groups, a, b) || (Touches(groups, a, g) && Touches(groups, b, g))
  {
    var more := groups + [g];
    if Connected(more, a, b) {
      var p :| Chain(more, p) && p[0] == a && p[|p| - 1] == b;
      ChainSnoc(groups, g, p);
    }
    forall x, y | Share(groups, x, y)
      ensures Share(more, x, y)
    {
      ShareSnoc(groups, g, x, y);
    }
    if Connected(groups, a, b) {
      Monotone(groups, more, a, b);
    }
    if Touches(groups, a, g) && Touches(groups, b, g) {
      var x :| x in g && Connected(groups, a, x);
      var y :| y in g && Connected(groups, b, y);
      Monotone(groups, more, a, x);
      Monotone(groups, more, b, y);
      assert more[|groups|] == g;
      ShareConnected(more, |groups|, x, y);
      Symmetric(more, b, y);
      Transitive(more, a, x, y);
      Transitive(more, a, y, b);
    }
  }

  /** Growing the last group by x is linking one of its members to x. */
  lemma GrowGroup(groups: seq<seq<string>>, g: seq<string>, first: string, x: string, a: string, b: string)
    requires first in g
    ensures Connected(groups + [g + [x]], a, b) <==> Connected(groups + [g] + [[first, x]], a, b)
  {
    hide Connected;
    Equivalence(groups);
    ConnectedSnoc(groups, g + [x], a, b);
    ConnectedSnoc(groups + [g], [first, x], a, b);
    ConnectedSnoc(groups, g, a, b);
    forall z | z == a || z == b
      ensures Touches(groups, z, g + [x]) <==> Touches(groups, z, g) || Connected(groups, z, x)
      ensures Touches(groups + [g], z, [first, x]) <==> Touches(groups, z, g) || Connected(groups, z, x)
    {
      ConnectedSnoc(groups, g, z, first);
      ConnectedSnoc(groups, g, z, x);
      assert Touches(groups, first, g);
      assert Connected(groups, z, first) ==> Touches(groups, z, g);
      if Touches(groups, z, g) {
        var y :| y in g && Connected(groups, z, y);
        assert y in g + [x];
        assert first in [first, x];
      }
      if Connected(groups, z, x) {
        assert x in g + [x];
        assert x in [first, x];
      }
      if Touches(groups, z, g + [x]) {
        var y :| y in g + [x] && Connected(groups, z, y);
      }
      if Touches(groups + [g], z, [first, x]) {
        var y :| y in [first, x] && Connected(groups + [g], z, y);
        assert y == first || y == x;
      }
    }
  }

  /** An identifier no group mentions is connected to itself only. */
  lemma Isolated(groups: seq<seq<string>>, a: string, b: string)
    requires forall i :: 0 <= i < |groups| ==> a !in groups[i]
    ensures Connected(groups, a, b) <==> a == b
    ensures Connected(groups, b, a) <==> a == b
  {
    Reflexive(groups, a);
    if Connected(groups, b, a) {
      Symmetric(groups, b, a);
    }
    if Connected(groups, a, b) {
      var p :| Chain(groups, p) && p[0] == a && p[|p| - 1] == b;
      assert |p| == 1 || Hop(groups, p, 0);
    }
  }

  /** Only which groups there are matters, not their order or number. */
  lemma OrderIrrelevant(groups: seq<seq<string>>, other: seq<seq<string>>, a: string, b: string)
    requires forall g :: g in groups ==> g in other
    requires Connected(groups, a, b)
    ensures Connected(other, a, b)
  {
    forall x, y | Share(groups, x, y)
      ensures Share(other, x, y)
    {
      var i :| 0 <= i < |groups| && x in groups[i] && y in groups[i];
      assert groups[i] in other;
      var j :| 0 <= j < |other| && other[j] == groups[i];
    }
    Monotone(groups, other, a, b);
  }

  /** Two lists of groups that connect the same identifiers. */
  ghost predicate SamePartition(groups: seq<seq<string>>, other: seq<seq<string>>) {
    forall a, b {:trigger Connected(groups, a, b)} {:trigger Connected(other, a, b)} ::
      Connected(groups, a, b) <==> Connected(other, a, b)
  }

  lemma SameSnoc(groups: seq<seq<string>>, other: seq<seq<string>>, g: seq<string>)
    requires SamePartition(groups, other)
    ensures SamePartition(groups + [g], other + [g])
  {
    forall a, b
      ensures Connected(groups + [g], a, b) <==> Connected(other + [g], a, b)
    {
      ConnectedSnoc(groups, g, a, b);
      ConnectedSnoc(other, g, a, b);
      assert forall x, z :: x in g && (z == a || z == b) ==> (Connected(groups, z, x) <==> Connected(other, z, x));
    }
  }

  /** A group of at most one identifier joins nothing. */
  lemma SmallGroup(groups: seq<seq<string>>, g: seq<string>)
    requires |g| <= 1
    ensures SamePartition(groups, groups + [g])
  {
    hide Connected;
    Equivalence(groups);
    forall a, b
      ensures Connected(groups, a, b) <==> Connected(groups + [g], a, b)
    {
      ConnectedSnoc(groups, g, a, b);
      if Touches(groups, a, g) && Touches(groups, b, g) {
        assert Connected(groups, a, g[0]) && Connected(groups, b, g[0]);
      }
    }
  }

  lemma GrowGroupSame(groups: seq<seq<string>>, g: seq<string>, first: string, x: string)
    requires first in g
    ensures SamePartition(groups + [g] + [[first, x]], groups + [g + [x]])
  {
    forall a, b
      ensures Connected(groups + [g] + [[first, x]], a, b) <==> Connected(groups + [g + [x]], a, b)
    {
      GrowGroup(groups, g, first, x, a, b);
    }
  }
}
