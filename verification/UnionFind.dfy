/** The identifier union-find: two in-place maps, path compression, union by rank. */
module UnionFind {
  import opened Chains
  import opened Sets

  type Ids = map<string, string>
  type Ranks = map<string, nat>

  function Pow2(n: nat): (p: nat)
    ensures p >= 1
  {
    if n == 0 then 1 else 2 * Pow2(n - 1)
  }

  lemma {:induction false} Pow2Monotone(a: nat, b: nat)
    requires a <= b
    ensures Pow2(a) <= Pow2(b)
    decreases b
  {
    if a < b {
      Pow2Monotone(a, b - 1);
    }
  }

  function RankOf(rank: Ranks, id: string): nat {
    if id in rank then rank[id] else 0
  }

  /** The ids that climb to `root`. */
  ghost function Members(repr: Ids, root: string): set<string> {
    set x | x in repr && repr[x] == root
  }

  /** id's parent, rank and representative agree: ranks rise towards the root. */
  ghost predicate Placed(parent: Ids, rank: Ranks, repr: Ids, id: string)
    requires id in parent && repr.Keys == parent.Keys
  {
    && parent[id] in parent && repr[id] in parent
    && parent[repr[id]] == repr[id]
    && repr[parent[id]] == repr[id]
    && (parent[id] == id ==> repr[id] == id)
    && (parent[id] != id ==> RankOf(rank, id) < RankOf(rank, parent[id]))
    && RankOf(rank, id) <= RankOf(rank, repr[id])
  }

  /** A root of rank r carries at least 2^r ids. */
  ghost predicate Heavy(parent: Ids, rank: Ranks, repr: Ids, id: string)
    requires id in parent
  {
    parent[id] == id ==> |Members(repr, id)| >= Pow2(RankOf(rank, id))
  }

  ghost predicate IsForest(parent: Ids, rank: Ranks, repr: Ids) {
    && repr.Keys == parent.Keys
    && (forall x {:trigger x in rank} :: x in rank ==> x in parent)
    && (forall x {:trigger Placed(parent, rank, repr, x)} :: x in parent ==> Placed(parent, rank, repr, x))
    && (forall x {:trigger Heavy(parent, rank, repr, x)} :: x in parent ==> Heavy(parent, rank, repr, x))
  }

  /** Same representative means: joined by a chain of linked pairs. */
  ghost predicate Partitions(repr: Ids, links: seq<seq<string>>) {
    && (forall i, x :: 0 <= i < |links| && x in links[i] ==> x in repr)
    && forall a, b {:trigger Connected(links, a, b)} ::
         a in repr && b in repr ==> (repr[a] == repr[b] <==> Connected(links, a, b))
  }

  // ---- add ----

  lemma AddKeeps(parent: Ids, rank: Ranks, repr: Ids, links: seq<seq<string>>, id: string)
    requires IsForest(parent, rank, repr) && Partitions(repr, links) && id !in parent
    ensures IsForest(parent[id := id], rank, repr[id := id])
    ensures Partitions(repr[id := id], links)
  {
    forall x | x in repr
      ensures repr[x] != id
    {
      assert Placed(parent, rank, repr, x);
    }
    var p, r := parent[id := id], repr[id := id];
    forall x {:trigger Placed(p, rank, r, x)} {:trigger Heavy(p, rank, r, x)} | x in p
      ensures Placed(p, rank, r, x) && Heavy(p, rank, r, x)
    {
      if x == id {
        assert Members(r, id) == {id};
      } else {
        assert Placed(parent, rank, repr, x) && Heavy(parent, rank, repr, x);
        assert Members(r, x) == Members(repr, x);
      }
    }
    forall a, b | a in r && b in r
      ensures r[a] == r[b] <==> Connected(links, a, b)
    {
      Isolated(links, id, if a == id then b else a);
    }
  }

  // ---- find ----

  /** Re-pointing one node straight at its root. */
  lemma CompressKeeps(parent: Ids, rank: Ranks, repr: Ids, node: string)
    requires IsForest(parent, rank, repr)
    requires node in parent && parent[node] != repr[node]
    ensures IsForest(parent[node := repr[node]], rank, repr)
    ensures parent[node] in parent && repr[parent[node]] == repr[node]
    ensures RankOf(rank, node) < RankOf(rank, parent[node]) <= RankOf(rank, repr[node])
  {
    var root := repr[node];
    assert Placed(parent, rank, repr, node) && Placed(parent, rank, repr, parent[node]);
    var shorter := parent[node := root];
    assert shorter.Keys == parent.Keys;
    forall x {:trigger Placed(shorter, rank, repr, x)} {:trigger Heavy(shorter, rank, repr, x)} | x in shorter
      ensures Placed(shorter, rank, repr, x) && Heavy(shorter, rank, repr, x)
    {
      assert Placed(parent, rank, repr, x) && Placed(parent, rank, repr, root) && Heavy(parent, rank, repr, x);
    }
  }

  // ---- link ----

  ghost predicate Roots(parent: Ids, rank: Ranks, repr: Ids, top: string, low: string) {
    && IsForest(parent, rank, repr)
    && top in parent && low in parent && top != low && parent[top] == top && parent[low] == low
    && RankOf(rank, low) <= RankOf(rank, top)
  }

  function Raise(rank: Ranks, top: string, low: string): Ranks {
    if RankOf(rank, top) == RankOf(rank, low) then rank[top := RankOf(rank, top) + 1] else rank
  }

  ghost function Rerooted(repr: Ids, top: string, low: string): (r: Ids)
    ensures r.Keys == repr.Keys
  {
    map x | x in repr :: if repr[x] == low then top else repr[x]
  }

  lemma HangPlaced(parent: Ids, rank: Ranks, repr: Ids, top: string, low: string, x: string)
    requires Roots(parent, rank, repr, top, low) && x in parent
    requires parent[low := top].Keys == parent.Keys
    ensures Placed(parent[low := top], Raise(rank, top, low), Rerooted(repr, top, low), x)
  {
    assert Placed(parent, rank, repr, x) && Placed(parent, rank, repr, top) && Placed(parent, rank, repr, low);
    assert Placed(parent, rank, repr, parent[x]) && Placed(parent, rank, repr, repr[x]);
  }

  lemma HangHeavy(parent: Ids, rank: Ranks, repr: Ids, top: string, low: string, x: string)
    requires Roots(parent, rank, repr, top, low) && x in parent
    ensures Heavy(parent[low := top], Raise(rank, top, low), Rerooted(repr, top, low), x)
  {
    assert Heavy(parent, rank, repr, x);
    if x == top {
      assert Placed(parent, rank, repr, top) && Placed(parent, rank, repr, low) && Heavy(parent, rank, repr, low);
      var a, b := Members(repr, top), Members(repr, low);
      assert a * b == {};
      assert Members(Rerooted(repr, top, low), top) == a + b;
    } else if x != low {
      assert Members(Rerooted(repr, top, low), x) == Members(repr, x);
    }
  }

  /** Hanging root `low` under root `top` of no smaller rank. */
  lemma HangKeeps(parent: Ids, rank: Ranks, repr: Ids, top: string, low: string)
    requires Roots(parent, rank, repr, top, low)
    ensures IsForest(parent[low := top], Raise(rank, top, low), Rerooted(repr, top, low))
  {
    var p, k, r := parent[low := top], Raise(rank, top, low), Rerooted(repr, top, low);
    assert p.Keys == parent.Keys;
    forall x {:trigger Placed(p, k, r, x)} {:trigger Heavy(p, k, r, x)} | x in p
      ensures Placed(p, k, r, x) && Heavy(p, k, r, x)
    {
      HangPlaced(parent, rank, repr, top, low, x);
      HangHeavy(parent, rank, repr, top, low, x);
    }
  }

  /** If `repr` partitions ids by `links` and `joined` merges the classes of a and b, then
      `joined` partitions ids by the links with the pair added. */
  lemma Joined(links: seq<seq<string>>, a: string, b: string, repr: Ids, joined: Ids)
    requires a in repr && b in repr && joined.Keys == repr.Keys
    requires Partitions(repr, links)
    requires forall x, y :: x in repr && y in repr ==>
      (joined[x] == joined[y]
       <==> repr[x] == repr[y] || (repr[x] in {repr[a], repr[b]} && repr[y] in {repr[a], repr[b]}))
    ensures Partitions(joined, links + [[a, b]])
  {
    forall x, y | x in repr && y in repr
      ensures joined[x] == joined[y] <==> Connected(links + [[a, b]], x, y)
    {
      ConnectedSnoc(links, [a, b], x, y);
      forall z | z == x || z == y
        ensures Touches(links, z, [a, b]) <==> repr[z] in {repr[a], repr[b]}
      {
        assert a in [a, b] && b in [a, b];
      }
    }
  }

  lemma AlreadyJoined(links: seq<seq<string>>, a: string, b: string, repr: Ids)
    requires a in repr && b in repr && repr[a] == repr[b]
    requires Partitions(repr, links)
    ensures Partitions(repr, links + [[a, b]])
  {
    Joined(links, a, b, repr, repr);
  }

  lemma HangJoins(
    parent: Ids, rank: Ranks, repr: Ids, links: seq<seq<string>>, a: string, b: string, top: string, low: string)
    requires Roots(parent, rank, repr, top, low) && Partitions(repr, links)
    requires a in repr && b in repr
    requires (repr[a] == top && repr[b] == low) || (repr[a] == low && repr[b] == top)
    ensures Partitions(Rerooted(repr, top, low), links + [[a, b]])
  {
    Joined(links, a, b, repr, Rerooted(repr, top, low));
  }

  /** A climb from id, parent by parent. */
  ghost predicate IsClimb(parent: Ids, climb: seq<string>, id: string) {
    && climb != [] && climb[0] == id
    && (forall i | 0 <= i < |climb| :: climb[i] in parent)
    && forall i | 0 < i < |climb| :: climb[i] == parent[climb[i - 1]]
  }

  /** Compression at the last node of the climb: the earlier ones already point at the root, no other changed. */
  ghost predicate Compressing(
    was: Ids, parent: Ids, rank: Ranks, repr: Ids, climb: seq<string>, id: string, root: string)
  {
    && IsForest(parent, rank, repr) && parent.Keys == was.Keys
    && IsClimb(was, climb, id) && climb[|climb| - 1] in repr && repr[climb[|climb| - 1]] == root
    && (forall x | x in climb[..|climb| - 1] :: RankOf(rank, x) < RankOf(rank, climb[|climb| - 1]))
    && forall x | x in parent :: parent[x] == if x in climb[..|climb| - 1] then root else was[x]
  }

  lemma CompressStep(
    was: Ids, parent: Ids, rank: Ranks, repr: Ids, climb: seq<string>, id: string, root: string, node: string)
    requires Compressing(was, parent, rank, repr, climb, id, root)
    requires climb[|climb| - 1] == node && node in parent && parent[node] != root
    ensures Compressing(was, parent[node := root], rank, repr, climb + [parent[node]], id, root)
    ensures parent[node] in parent && RankOf(rank, node) < RankOf(rank, parent[node]) <= RankOf(rank, root)
  {
    CompressKeeps(parent, rank, repr, node);
    var next := parent[node];
    assert Placed(parent, rank, repr, node) && Placed(parent, rank, repr, next);
    assert node !in climb[..|climb| - 1];
    assert climb == climb[..|climb| - 1] + [node];
    assert (climb + [next])[..|climb|] == climb;
  }

  lemma Compressed(
    was: Ids, parent: Ids, rank: Ranks, repr: Ids, climb: seq<string>, id: string, root: string, node: string)
    requires Compressing(was, parent, rank, repr, climb, id, root)
    requires climb[|climb| - 1] == node && node in parent && parent[node] == root
    ensures was[climb[|climb| - 1]] == root
    ensures forall x | x in parent :: parent[x] == if x in climb then root else was[x]
  {
    var rankOfNode := RankOf(rank, node);
    assert node !in climb[..|climb| - 1];
    assert climb == climb[..|climb| - 1] + [node];
  }

  class Forest {
    var parent: map<string, string>
    var rank: map<string, nat>
    /** The root every id climbs to. */
    ghost var repr: map<string, string>
    /** Every pair ever passed to Link. */
    ghost var links: seq<seq<string>>

    ghost predicate Valid()
      reads this
    {
      IsForest(parent, rank, repr) && Partitions(repr, links)
    }

    constructor ()
      ensures Valid()
      ensures parent == map[] && links == [] && repr == map[]
    {
      parent, rank, repr, links := map[], map[], map[], [];
    }

    method Add(id: string)
      requires Valid()
      modifies this
      ensures Valid() && links == old(links) && rank == old(rank)
      ensures repr == if id in old(repr) then old(repr) else old(repr)[id := id]
    {
      if id !in parent {
        AddKeeps(parent, rank, repr, links, id);
        parent, repr := parent[id := id], repr[id := id];
      }
    }

    /** The climb to the root: at most log2 of the number of ids steps. */
    method Climb(id: string) returns (root: string, ghost steps: nat)
      requires Valid() && id in parent
      ensures root in parent && root == repr[id] && parent[root] == root
      ensures Pow2(steps) <= |parent|
    {
      root, steps := id, 0;
      assert Placed(parent, rank, repr, id);
      while parent[root] != root
        invariant root in parent && repr[root] == repr[id]
        invariant steps <= RankOf(rank, root) <= RankOf(rank, repr[id])
        decreases RankOf(rank, repr[id]) - RankOf(rank, root)
      {
        assert Placed(parent, rank, repr, root) && Placed(parent, rank, repr, parent[root]);
        root, steps := parent[root], steps + 1;
      }
      assert Placed(parent, rank, repr, root) && Heavy(parent, rank, repr, root);
      Pow2Monotone(steps, RankOf(rank, root));
      Larger(Members(repr, root), parent.Keys);
    }

    /** Points every node on the climb straight at its root, and changes no other. */
    method Compress(id: string, root: string) returns (ghost climb: seq<string>)
      requires Valid() && id in parent && root == repr[id]
      modifies this`parent
      ensures Valid() && parent.Keys == old(parent.Keys)
      ensures IsClimb(old(parent), climb, id) && old(parent)[climb[|climb| - 1]] == root
      ensures forall x | x in parent :: parent[x] == if x in climb then root else old(parent)[x]
    {
      var node := id;
      climb := [id];
      while parent[node] != root
        invariant Compressing(old(parent), parent, rank, repr, climb, id, root) && climb[|climb| - 1] == node
        decreases RankOf(rank, root) - RankOf(rank, node)
      {
        CompressStep(old(parent), parent, rank, repr, climb, id, root, node);
        var next := parent[node];
        parent := parent[node := root];
        climb, node := climb + [next], next;
      }
      Compressed(old(parent), parent, rank, repr, climb, id, root, node);
    }

    /** The representative of id. Compression changes no representative. */
    method Find(id: string) returns (root: string)
      requires Valid()
      modifies this
      ensures Valid() && links == old(links) && rank == old(rank)
      ensures id in repr && root == repr[id]
      ensures repr == if id in old(repr) then old(repr) else old(repr)[id := id]
    {
      Add(id);
      ghost var steps;
      root, steps := Climb(id);
      ghost var climb := Compress(id, root);
    }

    /** Hangs the root of lower rank under the other, for the pair a, b. */
    method Unite(ra: string, rb: string, ghost a: string, ghost b: string)
      requires Valid() && a in repr && b in repr
      requires ra == repr[a] && rb == repr[b] && ra != rb
      modifies this
      ensures Valid() && links == old(links) + [[a, b]] && repr.Keys == old(repr.Keys)
    {
      assert Placed(parent, rank, repr, a) && Placed(parent, rank, repr, b);
      var top, low := ra, rb;
      if RankOf(rank, ra) < RankOf(rank, rb) {
        top, low := rb, ra;
      }
      HangKeeps(parent, rank, repr, top, low);
      HangJoins(parent, rank, repr, links, a, b, top, low);
      parent, rank := parent[low := top], Raise(rank, top, low);
      repr, links := Rerooted(repr, top, low), links + [[a, b]];
    }

    /** Joins the classes of a and b, and no others. */
    method Link(a: string, b: string)
      requires Valid()
      modifies this
      ensures Valid()
      ensures links == old(links) + [[a, b]]
      ensures repr.Keys == old(repr.Keys) + {a, b}
    {
      var ra := Find(a);
      var rb := Find(b);
      assert repr.Keys == old(repr.Keys) + {a, b};
      if ra == rb {
        AlreadyJoined(links, a, b, repr);
        links := links + [[a, b]];
      } else {
        Unite(ra, rb, a, b);
      }
    }
  }
}
