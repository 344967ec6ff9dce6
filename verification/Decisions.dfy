/** What a collapse does to the decisions already made below the collapsed position. */
module Deciding {
  import opened Text
  import opened Sorting
  import opened Paths
  import opened ValueTypes
  import opened Collapsing

  type Decisions = map<Prefix, ValueType>

  // ---- least upper bounds of decisions ----

  ghost predicate AllWiden(c: Decisions, ks: set<Prefix>, x: ValueType)
    requires ks <= c.Keys
  {
    forall k {:trigger c[k]} | k in ks :: Widens(c[k], x)
  }

  /** v is the least upper bound of the decisions at ks. */
  ghost predicate IsLub(c: Decisions, ks: set<Prefix>, v: ValueType)
    requires ks <= c.Keys
  {
    forall x {:trigger Widens(v, x)} :: Widens(v, x) <==> AllWiden(c, ks, x)
  }

  lemma LubOne(c: Decisions, k: Prefix)
    requires k in c
    ensures IsLub(c, {k}, c[k])
  {
    forall x {:trigger Widens(c[k], x)}
      ensures Widens(c[k], x) <==> AllWiden(c, {k}, x)
    {
    }
  }

  lemma LubMore(c: Decisions, ks: set<Prefix>, v: ValueType, k: Prefix)
    requires ks <= c.Keys && k in c && IsLub(c, ks, v)
    ensures IsLub(c, ks + {k}, Join(v, c[k]))
  {
    forall x {:trigger Widens(Join(v, c[k]), x)}
      ensures Widens(Join(v, c[k]), x) <==> AllWiden(c, ks + {k}, x)
    {
      JoinIsLeast(v, c[k], x);
      WidensIsOrder(v, Join(v, c[k]), x);
      WidensIsOrder(c[k], Join(v, c[k]), x);
      assert Widens(v, x) <==> AllWiden(c, ks, x);
      assert AllWiden(c, ks + {k}, x) <==> AllWiden(c, ks, x) && Widens(c[k], x);
    }
  }

  lemma LubUnique(c: Decisions, ks: set<Prefix>, v: ValueType, w: ValueType)
    requires ks <= c.Keys && IsLub(c, ks, v) && IsLub(c, ks, w)
    ensures v == w
  {
    WidensIsOrder(v, w, v);
    WidensIsOrder(w, v, w);
    assert Widens(v, w) && Widens(w, v);
  }

  /** The join of the decisions at ks; Empty for none. */
  ghost function JoinOf(c: Decisions, ks: set<Prefix>): (v: ValueType)
    requires ks <= c.Keys
    ensures IsLub(c, ks, v)
  {
    if ks == {} then Empty
    else
      var k :| k in ks;
      LubMore(c, ks - {k}, JoinOf(c, ks - {k}), k);
      assert ks - {k} + {k} == ks;
      Join(JoinOf(c, ks - {k}), c[k])
  }

  // ---- moving the decisions ----

  function MoveDecision(c: Decisions, from: Prefix, to: Prefix, t: ValueType): Decisions {
    var d := c - {from};
    d[to := if to in d then Join(d[to], t) else t]
  }

  /** Keys compare by their text. */
  predicate TextAtMost(a: Prefix, b: Prefix) {
    AtMost(Slashed(a), Slashed(b))
  }

  ghost predicate AreBelow(before: Decisions, prefix: Prefix, order: seq<Prefix>) {
    forall i | 0 <= i < |order| :: order[i] in before && prefix < order[i]
  }

  ghost predicate AreMoves(infer: Infer, before: Decisions, prefix: Prefix, t: ValueType, order: seq<Prefix>) {
    forall i | 0 <= i < |order| :: order[i] in before && Moves(infer, prefix, t, order[i])
  }

  /** The keys a collapse moves, in the order it moves them. */
  ghost predicate InOrder(infer: Infer, before: Decisions, prefix: Prefix, t: ValueType, order: seq<Prefix>) {
    && AreMoves(infer, before, prefix, t, order)
    && (forall k | k in before && Moves(infer, prefix, t, k) :: k in order)
    && Distinct(order) && Sorted(TextAtMost, order)
  }

  /** The decisions after these moves; each carries the type it had before any of them. */
  ghost function MovedAlong(before: Decisions, prefix: Prefix, t: ValueType, order: seq<Prefix>): Decisions
    requires AreBelow(before, prefix, order)
  {
    if order == [] then before
    else
      var k := order[|order| - 1];
      MoveDecision(MovedAlong(before, prefix, t, order[..|order| - 1]), k, Rekey(prefix, t, k), before[k])
  }

  /** What a collapse of the prefix makes of the decisions. */
  ghost predicate Decided(infer: Infer, before: Decisions, after: Decisions, prefix: Prefix, t: ValueType) {
    exists order {:trigger InOrder(infer, before, prefix, t, order)} ::
      InOrder(infer, before, prefix, t, order) && after == MovedAlong(before, prefix, t, order)
  }

  ghost predicate AllSegments(c: Decisions) {
    forall k {:trigger AreSegments(k)} | k in c :: AreSegments(k)
  }

  lemma RekeyedSegments(prefix: Prefix, t: ValueType, k: Prefix)
    requires prefix < k && AreSegments(k)
    ensures AreSegments(Rekey(prefix, t, k))
  {
    TokenThenParse(t);
    var to := Rekey(prefix, t, k);
    forall i | 0 <= i < |to|
      ensures IsSegment(to[i])
    {
      assert i != |prefix| ==> to[i] == k[i];
    }
  }

  lemma {:induction false} MovedSegments(before: Decisions, prefix: Prefix, t: ValueType, order: seq<Prefix>)
    requires AreBelow(before, prefix, order) && AllSegments(before)
    ensures AllSegments(MovedAlong(before, prefix, t, order))
  {
    if order != [] {
      var k := order[|order| - 1];
      MovedSegments(before, prefix, t, order[..|order| - 1]);
      RekeyedSegments(prefix, t, k);
    }
  }

  /** Keys stay lists of segments. */
  lemma DecidedSegments(infer: Infer, before: Decisions, after: Decisions, prefix: Prefix, t: ValueType)
    requires Decided(infer, before, after, prefix, t) && AllSegments(before)
    ensures AllSegments(after)
  {
    var order :| InOrder(infer, before, prefix, t, order) && after == MovedAlong(before, prefix, t, order);
    MovedSegments(before, prefix, t, order);
  }

  lemma StillSegments(infer: Infer, was: Decisions, now: Decisions, prefix: Prefix, t: ValueType)
    requires Decided(infer, was[prefix := t], now, prefix, t)
    ensures AllSegments(was) && AreSegments(prefix) ==> AllSegments(now)
  {
    if AllSegments(was) && AreSegments(prefix) {
      DecidedSegments(infer, was[prefix := t], now, prefix, t);
    }
  }

  /** Nothing above or beside the prefix changes. */
  lemma {:induction false} AboveStays(before: Decisions, prefix: Prefix, t: ValueType, order: seq<Prefix>, l: Prefix)
    requires AreBelow(before, prefix, order)
    requires !(prefix < l)
    ensures Agree(before, MovedAlong(before, prefix, t, order), l)
  {
    if order != [] {
      AboveStays(before, prefix, t, order[..|order| - 1], l);
    }
  }

  /** A collapse leaves the decisions at shorter prefixes alone and stands at its own. */
  lemma ShorterAgree(infer: Infer, was: Decisions, now: Decisions, prefix: Prefix, t: ValueType)
    requires Decided(infer, was[prefix := t], now, prefix, t)
    ensures prefix in now && now[prefix] == t
    ensures forall k {:trigger Agree(was, now, k)} | |k| < |prefix| :: Agree(was, now, k)
  {
    var before := was[prefix := t];
    var order :| InOrder(infer, before, prefix, t, order) && now == MovedAlong(before, prefix, t, order);
    AboveStays(before, prefix, t, order, prefix);
    forall k {:trigger Agree(was, now, k)} | |k| < |prefix|
      ensures Agree(was, now, k)
    {
      AboveStays(before, prefix, t, order, k);
    }
  }

  lemma DistinctMore(listed: seq<Prefix>, k: Prefix)
    requires Distinct(listed) && k !in listed
    ensures Distinct(listed + [k])
  {
    forall i | 0 <= i < |listed|
      ensures listed[i] != k
    {
      assert listed[i] in listed;
    }
  }

  method ListPrefixes(keys: set<Prefix>) returns (listed: seq<Prefix>)
    ensures (forall k :: k in listed <==> k in keys) && Distinct(listed)
  {
    listed := [];
    var rest := keys;
    while rest != {}
      invariant rest <= keys && (forall k :: k in listed <==> k in keys - rest) && Distinct(listed)
    {
      var k :| k in rest;
      DistinctMore(listed, k);
      rest, listed := rest - {k}, listed + [k];
    }
  }

  lemma TextAtMostIsTotal()
    ensures TotalPreorder(TextAtMost)
  {
    forall a, b, c
      ensures TextAtMost(a, b) || TextAtMost(b, a)
      ensures TextAtMost(a, b) && TextAtMost(b, c) ==> TextAtMost(a, c)
    {
      AtMostOrders(Slashed(a), Slashed(b), Slashed(c));
    }
  }

  lemma SortPutsInOrder(infer: Infer, before: Decisions, prefix: Prefix, t: ValueType, listed: seq<Prefix>)
    requires Distinct(listed) && forall k :: k in listed <==> k in before && Moves(infer, prefix, t, k)
    ensures InOrder(infer, before, prefix, t, Sort(TextAtMost, listed))
  {
    var order := Sort(TextAtMost, listed);
    TextAtMostIsTotal();
    SortSorted(TextAtMost, listed);
    SameElements(listed, order);
    DistinctPermuted(listed, order);
    assert AreMoves(infer, before, prefix, t, order) by {
      forall i | 0 <= i < |order|
        ensures order[i] in before && Moves(infer, prefix, t, order[i])
      {
        assert order[i] in listed;
      }
    }
  }

  lemma MovedOneMore(before: Decisions, prefix: Prefix, t: ValueType, order: seq<Prefix>, i: nat)
    requires AreBelow(before, prefix, order) && i < |order|
    ensures var k := order[i];
      MovedAlong(before, prefix, t, order[..i + 1])
      == MoveDecision(MovedAlong(before, prefix, t, order[..i]), k, Rekey(prefix, t, k), before[k])
  {
    assert order[..i + 1][..i] == order[..i];
  }

  method MoveEach(before: Decisions, prefix: Prefix, t: ValueType, order: seq<Prefix>) returns (c: Decisions)
    requires AreBelow(before, prefix, order)
    ensures c == MovedAlong(before, prefix, t, order)
  {
    c := before;
    for i := 0 to |order|
      invariant c == MovedAlong(before, prefix, t, order[..i])
    {
      MovedOneMore(before, prefix, t, order, i);
      c := MoveDecision(c, order[i], Rekey(prefix, t, order[i]), before[order[i]]);
    }
    assert order[..|order|] == order;
  }

  /** Moves every decision below the prefix that the new parameter takes over: collects the moves,
      sorts them by old key, then makes them. */
  method MoveDecisions(infer: Infer, before: Decisions, prefix: Prefix, t: ValueType) returns (c: Decisions)
    ensures Decided(infer, before, c, prefix, t)
  {
    var listed := ListPrefixes(set k | k in before && Moves(infer, prefix, t, k));
    SortPutsInOrder(infer, before, prefix, t, listed);
    c := MoveEach(before, prefix, t, Sort(TextAtMost, listed));
  }

  // ---- what each decision then holds ----

  /** The earlier decisions a key's decision stands for after these moves. */
  ghost function Held(before: Decisions, prefix: Prefix, t: ValueType, order: seq<Prefix>, l: Prefix): (ks: set<Prefix>)
    requires AreBelow(before, prefix, order)
    ensures ks <= before.Keys
  {
    if order == [] then (if l in before then {l} else {})
    else
      var k, was := order[|order| - 1], Held(before, prefix, t, order[..|order| - 1], l);
      if l == Rekey(prefix, t, k) then (if l == k then {k} else was + {k})
      else if l == k then {}
      else was
  }

  /** After the moves every decision is the join of those it stands for. */
  lemma {:induction false} HeldIsLub(before: Decisions, prefix: Prefix, t: ValueType, order: seq<Prefix>, l: Prefix)
    requires AreBelow(before, prefix, order)
    ensures var after, ks := MovedAlong(before, prefix, t, order), Held(before, prefix, t, order, l);
      (l in after <==> ks != {}) && (l in after ==> IsLub(before, ks, after[l]))
  {
    if order == [] {
      if l in before {
        LubOne(before, l);
      }
    } else {
      var n := |order| - 1;
      var k := order[n];
      var was := Held(before, prefix, t, order[..n], l);
      HeldIsLub(before, prefix, t, order[..n], l);
      LubOne(before, k);
      if l != k && l in MovedAlong(before, prefix, t, order[..n]) {
        LubMore(before, was, MovedAlong(before, prefix, t, order[..n])[l], k);
      } else {
        assert was == {} ==> was + {k} == {k};
      }
    }
  }

  /** The key is moved onto itself, because a path held the new token literally. */
  ghost predicate MovesOntoItself(infer: Infer, prefix: Prefix, t: ValueType, k: Prefix) {
    Moves(infer, prefix, t, k) && Rekey(prefix, t, k) == k
  }

  /** Where the collapse sends every decision. */
  ghost function Sent(infer: Infer, before: Decisions, prefix: Prefix, t: ValueType): map<Prefix, Prefix> {
    map k | k in before :: Target(infer, prefix, t, k)
  }

  ghost predicate Bounds(before: Decisions, after: Decisions, where: map<Prefix, Prefix>, k: Prefix)
    requires k in after && where.Keys <= before.Keys
  {
    IsLub(before, Sources(where, k), after[k])
  }

  /** Every decision is where `where` sends it, joined with the others sent there. */
  ghost predicate Redecided(before: Decisions, after: Decisions, where: map<Prefix, Prefix>)
    requires where.Keys <= before.Keys
  {
    && (forall k {:trigger Sources(where, k)} :: k in after <==> Sources(where, k) != {})
    && forall k {:trigger Bounds(before, after, where, k)} | k in after :: Bounds(before, after, where, k)
  }

  /** The moved keys that go to l. */
  ghost function Arrivals(before: Decisions, prefix: Prefix, t: ValueType, order: seq<Prefix>, l: Prefix): set<Prefix>
    requires AreBelow(before, prefix, order)
  {
    set i | 0 <= i < |order| && Rekey(prefix, t, order[i]) == l :: order[i]
  }

  lemma ArrivalsMore(before: Decisions, prefix: Prefix, t: ValueType, order: seq<Prefix>, l: Prefix)
    requires AreBelow(before, prefix, order) && order != []
    ensures var n := |order| - 1;
      Arrivals(before, prefix, t, order, l)
      == Arrivals(before, prefix, t, order[..n], l) + if Rekey(prefix, t, order[n]) == l then {order[n]} else {}
  {
    var n := |order| - 1;
    var less := Arrivals(before, prefix, t, order[..n], l);
    forall k | k in Arrivals(before, prefix, t, order, l)
      ensures k in less || (k == order[n] && Rekey(prefix, t, order[n]) == l)
    {
      var i :| 0 <= i < |order| && Rekey(prefix, t, order[i]) == l && order[i] == k;
      assert i < n ==> order[..n][i] == k;
    }
  }

  /** A key that moves elsewhere receives nothing. */
  lemma LeaversReceiveNothing(
    infer: Infer, before: Decisions, prefix: Prefix, t: ValueType, order: seq<Prefix>, l: Prefix)
    requires AreMoves(infer, before, prefix, t, order)
    requires Moves(infer, prefix, t, l) && Rekey(prefix, t, l) != l
    ensures Arrivals(before, prefix, t, order, l) == {}
  {
    forall i | 0 <= i < |order|
      ensures Rekey(prefix, t, order[i]) != l
    {
      TargetIdempotent(infer, prefix, t, order[i]);
    }
  }

  lemma MovesWithoutLast(infer: Infer, before: Decisions, prefix: Prefix, t: ValueType, order: seq<Prefix>)
    requires AreMoves(infer, before, prefix, t, order) && order != []
    ensures var n := |order| - 1;
      && AreBelow(before, prefix, order) && AreMoves(infer, before, prefix, t, order[..n])
      && AreBelow(before, prefix, order[..n])
      && order[n] in before && prefix < order[n] && Moves(infer, prefix, t, order[n])
  {
  }

  lemma HeldMore(before: Decisions, prefix: Prefix, t: ValueType, order: seq<Prefix>, l: Prefix)
    requires AreBelow(before, prefix, order) && order != []
    ensures var k, was := order[|order| - 1], Held(before, prefix, t, order[..|order| - 1], l);
      Held(before, prefix, t, order, l)
      == if l == Rekey(prefix, t, k) then (if l == k then {k} else was + {k}) else if l == k then {} else was
  {
  }

  /** A key not moved onto itself holds its own decision until that moves, and all those moved to it. */
  lemma {:induction false} HeldElsewhere(
    infer: Infer, before: Decisions, prefix: Prefix, t: ValueType, order: seq<Prefix>, l: Prefix)
    requires AreMoves(infer, before, prefix, t, order)
    requires Distinct(order) && (l in order ==> Rekey(prefix, t, l) != l)
    ensures Held(before, prefix, t, order, l)
      == (if l in before && l !in order then {l} else {}) + Arrivals(before, prefix, t, order, l)
  {
    if order == [] {
    } else {
      var n := |order| - 1;
      assert order == order[..n] + [order[n]];
      MovesWithoutLast(infer, before, prefix, t, order);
      hide *;
      HeldElsewhere(infer, before, prefix, t, order[..n], l);
      ArrivalsMore(before, prefix, t, order, l);
      HeldMore(before, prefix, t, order, l);
      if l == order[n] {
        LeaversReceiveNothing(infer, before, prefix, t, order, l);
      }
    }
  }

  /** The decisions from position m on that move where order[m] moves. */
  ghost function FromOn(before: Decisions, prefix: Prefix, t: ValueType, order: seq<Prefix>, m: nat): (ks: set<Prefix>)
    requires AreBelow(before, prefix, order) && m < |order|
    ensures ks <= before.Keys
  {
    set n | m <= n < |order| && Rekey(prefix, t, order[n]) == order[m] :: order[n]
  }

  lemma FromOnMore(before: Decisions, prefix: Prefix, t: ValueType, order: seq<Prefix>, m: nat)
    requires AreBelow(before, prefix, order) && m < |order| - 1
    ensures var k := order[|order| - 1];
      FromOn(before, prefix, t, order, m)
      == FromOn(before, prefix, t, order[..|order| - 1], m) + if Rekey(prefix, t, k) == order[m] then {k} else {}
  {
    var n := |order| - 1;
    var less := FromOn(before, prefix, t, order[..n], m);
    forall k | k in FromOn(before, prefix, t, order, m)
      ensures k in less || (k == order[n] && Rekey(prefix, t, order[n]) == order[m])
    {
      var i :| m <= i < |order| && Rekey(prefix, t, order[i]) == order[m] && order[i] == k;
      assert i < n ==> order[..n][i] == k;
    }
  }

  /** A key that moves onto itself forgets what was moved to it earlier. */
  lemma {:induction false} HeldOntoItself(
    infer: Infer, before: Decisions, prefix: Prefix, t: ValueType, order: seq<Prefix>, m: nat)
    requires AreMoves(infer, before, prefix, t, order)
    requires Distinct(order) && m < |order| && Rekey(prefix, t, order[m]) == order[m]
    ensures Held(before, prefix, t, order, order[m]) == FromOn(before, prefix, t, order, m)
  {
    var n := |order| - 1;
    if m < n {
      HeldOntoItself(infer, before, prefix, t, order[..n], m);
      FromOnMore(before, prefix, t, order, m);
    } else {
      assert FromOn(before, prefix, t, order, m) == {order[m]};
    }
  }

  // ---- when no decision is lost ----

  /** What was moved onto order[m] before it widens to what it keeps: its own decision joined with those
      moved there later. */
  ghost predicate KeepsEarlier(before: Decisions, prefix: Prefix, t: ValueType, order: seq<Prefix>, m: nat)
    requires AreBelow(before, prefix, order) && m < |order|
  {
    forall i | 0 <= i < m && Rekey(prefix, t, order[i]) == order[m] ::
      Widens(before[order[i]], JoinOf(before, FromOn(before, prefix, t, order, m)))
  }

  /** That holds for every key that moves onto itself. */
  ghost predicate NothingForgotten(before: Decisions, prefix: Prefix, t: ValueType, order: seq<Prefix>)
    requires AreBelow(before, prefix, order)
  {
    forall m {:trigger KeepsEarlier(before, prefix, t, order, m)}
      | 0 <= m < |order| && Rekey(prefix, t, order[m]) == order[m] :: KeepsEarlier(before, prefix, t, order, m)
  }

  lemma HeldAreSent(
    infer: Infer, before: Decisions, prefix: Prefix, t: ValueType, order: seq<Prefix>, l: Prefix)
    requires InOrder(infer, before, prefix, t, order) && (l in order ==> !MovesOntoItself(infer, prefix, t, l))
    ensures Held(before, prefix, t, order, l) == Sources(Sent(infer, before, prefix, t), l)
  {
    HeldElsewhere(infer, before, prefix, t, order, l);
    var arrived := Arrivals(before, prefix, t, order, l);
    forall k
      ensures k in Sources(Sent(infer, before, prefix, t), l)
        <==> (k == l && l in before && l !in order) || k in arrived
    {
      if k in order {
        var i :| 0 <= i < |order| && order[i] == k;
      }
    }
  }

  /** Whatever is sent to a key that moves onto itself is among the moves. */
  lemma SentIsMoved(
    infer: Infer, before: Decisions, prefix: Prefix, t: ValueType, order: seq<Prefix>, l: Prefix, k: Prefix)
    requires InOrder(infer, before, prefix, t, order)
    requires l in order && MovesOntoItself(infer, prefix, t, l)
    ensures k in Sources(Sent(infer, before, prefix, t), l) <==> k in order && Rekey(prefix, t, k) == l
  {
    if k in order {
      var i :| 0 <= i < |order| && order[i] == k;
    }
  }

  lemma EarlierAbsorbed(
    before: Decisions, prefix: Prefix, t: ValueType, order: seq<Prefix>, m: nat, sent: set<Prefix>)
    requires AreBelow(before, prefix, order) && m < |order| && sent <= before.Keys
    requires forall k :: k in sent <==> k in order && Rekey(prefix, t, k) == order[m]
    requires KeepsEarlier(before, prefix, t, order, m)
    ensures IsLub(before, sent, JoinOf(before, FromOn(before, prefix, t, order, m)))
  {
    var kept := FromOn(before, prefix, t, order, m);
    var v := JoinOf(before, kept);
    forall x {:trigger Widens(v, x)}
      ensures Widens(v, x) <==> AllWiden(before, sent, x)
    {
      if Widens(v, x) {
        assert AllWiden(before, kept, x);
        forall k {:trigger before[k]} | k in sent
          ensures Widens(before[k], x)
        {
          var i :| 0 <= i < |order| && order[i] == k;
          if i < m {
            WidensIsOrder(before[k], v, x);
          } else {
            assert k in kept;
          }
        }
      }
      if AllWiden(before, sent, x) {
        assert AllWiden(before, kept, x);
      }
    }
  }

  /** What a key that moves onto itself keeps is all that was sent to it, as far as types go, exactly when
      every earlier arrival widens to it. */
  lemma KeepsAll(infer: Infer, before: Decisions, prefix: Prefix, t: ValueType, order: seq<Prefix>, m: nat)
    requires InOrder(infer, before, prefix, t, order)
    requires m < |order| && Rekey(prefix, t, order[m]) == order[m]
    ensures var kept := FromOn(before, prefix, t, order, m);
      IsLub(before, Sources(Sent(infer, before, prefix, t), order[m]), JoinOf(before, kept))
      <==> KeepsEarlier(before, prefix, t, order, m)
  {
    var kept, sent := FromOn(before, prefix, t, order, m), Sources(Sent(infer, before, prefix, t), order[m]);
    var v := JoinOf(before, kept);
    WidensIsOrder(v, v, v);
    forall k
      ensures k in sent <==> k in order && Rekey(prefix, t, k) == order[m]
    {
      SentIsMoved(infer, before, prefix, t, order, order[m], k);
    }
    if IsLub(before, sent, v) {
      assert AllWiden(before, sent, v);
      forall i | 0 <= i < m && Rekey(prefix, t, order[i]) == order[m]
        ensures Widens(before[order[i]], v)
      {
        assert order[i] in sent;
      }
    }
    if KeepsEarlier(before, prefix, t, order, m) {
      EarlierAbsorbed(before, prefix, t, order, m, sent);
    }
  }

  lemma RedecidedElsewhere(
    infer: Infer, before: Decisions, prefix: Prefix, t: ValueType, order: seq<Prefix>, l: Prefix)
    requires InOrder(infer, before, prefix, t, order) && (l in order ==> !MovesOntoItself(infer, prefix, t, l))
    ensures var after, where := MovedAlong(before, prefix, t, order), Sent(infer, before, prefix, t);
      (l in after <==> Sources(where, l) != {}) && (l in after ==> Bounds(before, after, where, l))
  {
    HeldIsLub(before, prefix, t, order, l);
    HeldAreSent(infer, before, prefix, t, order, l);
  }

  lemma RedecidedOntoItself(
    infer: Infer, before: Decisions, prefix: Prefix, t: ValueType, order: seq<Prefix>, m: nat)
    requires InOrder(infer, before, prefix, t, order)
    requires m < |order| && Rekey(prefix, t, order[m]) == order[m]
    ensures var after, where := MovedAlong(before, prefix, t, order), Sent(infer, before, prefix, t);
      && order[m] in after && Sources(where, order[m]) != {}
      && (Bounds(before, after, where, order[m]) <==> KeepsEarlier(before, prefix, t, order, m))
  {
    var after, kept := MovedAlong(before, prefix, t, order), FromOn(before, prefix, t, order, m);
    HeldIsLub(before, prefix, t, order, order[m]);
    HeldOntoItself(infer, before, prefix, t, order, m);
    assert order[m] in kept;
    LubUnique(before, kept, after[order[m]], JoinOf(before, kept));
    KeepsAll(infer, before, prefix, t, order, m);
    SentIsMoved(infer, before, prefix, t, order, order[m], order[m]);
  }

  lemma RedecidedAt(
    infer: Infer, before: Decisions, prefix: Prefix, t: ValueType, order: seq<Prefix>, l: Prefix)
    requires InOrder(infer, before, prefix, t, order) && NothingForgotten(before, prefix, t, order)
    ensures var after, where := MovedAlong(before, prefix, t, order), Sent(infer, before, prefix, t);
      (l in after <==> Sources(where, l) != {}) && (l in after ==> Bounds(before, after, where, l))
  {
    if l in order && MovesOntoItself(infer, prefix, t, l) {
      var m :| 0 <= m < |order| && order[m] == l;
      assert KeepsEarlier(before, prefix, t, order, m);
      RedecidedOntoItself(infer, before, prefix, t, order, m);
    } else {
      RedecidedElsewhere(infer, before, prefix, t, order, l);
    }
  }

  /** Each decision is joined with the others sent to its key exactly when nothing is forgotten. */
  lemma RedecidedExactly(
    infer: Infer, before: Decisions, prefix: Prefix, t: ValueType, order: seq<Prefix>)
    requires InOrder(infer, before, prefix, t, order)
    ensures Redecided(before, MovedAlong(before, prefix, t, order), Sent(infer, before, prefix, t))
      <==> NothingForgotten(before, prefix, t, order)
  {
    var after, where := MovedAlong(before, prefix, t, order), Sent(infer, before, prefix, t);
    if Redecided(before, after, where) {
      forall m {:trigger KeepsEarlier(before, prefix, t, order, m)}
        | 0 <= m < |order| && Rekey(prefix, t, order[m]) == order[m]
        ensures KeepsEarlier(before, prefix, t, order, m)
      {
        RedecidedOntoItself(infer, before, prefix, t, order, m);
        assert Bounds(before, after, where, order[m]);
      }
    }
    if NothingForgotten(before, prefix, t, order) {
      forall l {:trigger Sources(where, l)}
        ensures l in after <==> Sources(where, l) != {}
        ensures l in after ==> Bounds(before, after, where, l)
      {
        RedecidedAt(infer, before, prefix, t, order, l);
      }
    }
  }

  /** No decision already sits below the very token the prefix collapses to. */
  ghost predicate Unclaimed(infer: Infer, c: Decisions, prefix: Prefix, t: ValueType) {
    forall k | k in c :: !MovesOntoItself(infer, prefix, t, k)
  }

  /** Then nothing is forgotten. */
  lemma UnclaimedRedecides(infer: Infer, before: Decisions, after: Decisions, prefix: Prefix, t: ValueType)
    requires Decided(infer, before, after, prefix, t) && Unclaimed(infer, before, prefix, t)
    ensures Redecided(before, after, Sent(infer, before, prefix, t))
  {
    var order :| InOrder(infer, before, prefix, t, order) && after == MovedAlong(before, prefix, t, order);
    RedecidedExactly(infer, before, prefix, t, order);
  }

  // ---- the same in terms of the decisions alone ----

  lemma SlashedNonEmpty(a: Prefix)
    requires AreSegments(a)
    ensures Slashed(a) == "" <==> a == []
  {
  }

  lemma SlashedInjective(a: Prefix, b: Prefix)
    requires AreSegments(a) && AreSegments(b) && Slashed(a) == Slashed(b)
    ensures a == b
  {
    SlashedNonEmpty(a);
    SlashedNonEmpty(b);
    if a != [] && b != [] {
      SplitSlashed(a);
      SplitSlashed(b);
    }
  }

  /** Of two moves the earlier is the one whose key is smaller as text. */
  lemma EarlierIsSmaller(
    infer: Infer, before: Decisions, prefix: Prefix, t: ValueType, order: seq<Prefix>, i: nat, m: nat)
    requires InOrder(infer, before, prefix, t, order) && AllSegments(before)
    requires i < |order| && m < |order|
    ensures i < m <==> Less(Slashed(order[i]), Slashed(order[m]))
    ensures m <= i <==> TextAtMost(order[m], order[i])
  {
    var a, b := Slashed(order[i]), Slashed(order[m]);
    AtMostOrders(a, b, a);
    LessIrreflexive(a);
    if i != m && a == b {
      SlashedInjective(order[i], order[m]);
    }
  }

  /** The decisions that move onto k and are not before it in the order: its own among them. */
  ghost function Kept(infer: Infer, before: Decisions, prefix: Prefix, t: ValueType, k: Prefix): (ks: set<Prefix>)
    ensures ks <= before.Keys
  {
    set l | l in before && Moves(infer, prefix, t, l) && Rekey(prefix, t, l) == k && TextAtMost(k, l)
  }

  /** j's decision is lost at k: j sorts before k, moves onto it, k moves onto itself, and j's type does not
      widen to what k keeps. */
  ghost predicate Forgets(infer: Infer, before: Decisions, prefix: Prefix, t: ValueType, j: Prefix, k: Prefix) {
    && j in before && Moves(infer, prefix, t, j) && Rekey(prefix, t, j) == k
    && k in before && MovesOntoItself(infer, prefix, t, k)
    && Less(Slashed(j), Slashed(k))
    && !Widens(before[j], JoinOf(before, Kept(infer, before, prefix, t, k)))
  }

  lemma KeptIsFromOn(infer: Infer, before: Decisions, prefix: Prefix, t: ValueType, order: seq<Prefix>, m: nat)
    requires InOrder(infer, before, prefix, t, order) && AllSegments(before)
    requires m < |order|
    ensures Kept(infer, before, prefix, t, order[m]) == FromOn(before, prefix, t, order, m)
  {
    forall l | l in before && Moves(infer, prefix, t, l) && Rekey(prefix, t, l) == order[m]
      ensures TextAtMost(order[m], l) <==> l in FromOn(before, prefix, t, order, m)
    {
      var i :| 0 <= i < |order| && order[i] == l;
      EarlierIsSmaller(infer, before, prefix, t, order, i, m);
    }
  }

  lemma KeepsEarlierExactly(
    infer: Infer, before: Decisions, prefix: Prefix, t: ValueType, order: seq<Prefix>, m: nat)
    requires InOrder(infer, before, prefix, t, order) && AllSegments(before)
    requires m < |order| && Rekey(prefix, t, order[m]) == order[m]
    ensures KeepsEarlier(before, prefix, t, order, m)
      <==> forall j {:trigger Forgets(infer, before, prefix, t, j, order[m])} ::
             !Forgets(infer, before, prefix, t, j, order[m])
  {
    KeptIsFromOn(infer, before, prefix, t, order, m);
    forall i | 0 <= i < |order|
      ensures Forgets(infer, before, prefix, t, order[i], order[m])
        <==> i < m && Rekey(prefix, t, order[i]) == order[m]
             && !Widens(before[order[i]], JoinOf(before, FromOn(before, prefix, t, order, m)))
    {
      EarlierIsSmaller(infer, before, prefix, t, order, i, m);
    }
    forall j | Forgets(infer, before, prefix, t, j, order[m])
      ensures !KeepsEarlier(before, prefix, t, order, m)
    {
      var i :| 0 <= i < |order| && order[i] == j;
    }
  }

  /** A collapse joins every decision with those it meets exactly when no key that moves onto itself forgets
      one that sorts before it. */
  lemma DecisionsLostExactly(infer: Infer, before: Decisions, after: Decisions, prefix: Prefix, t: ValueType)
    requires Decided(infer, before, after, prefix, t) && AllSegments(before)
    ensures Redecided(before, after, Sent(infer, before, prefix, t))
      <==> forall j, k {:trigger Forgets(infer, before, prefix, t, j, k)} :: !Forgets(infer, before, prefix, t, j, k)
  {
    var order :| InOrder(infer, before, prefix, t, order) && after == MovedAlong(before, prefix, t, order);
    RedecidedExactly(infer, before, prefix, t, order);
    if NothingForgotten(before, prefix, t, order) {
      forall j, k {:trigger Forgets(infer, before, prefix, t, j, k)}
        ensures !Forgets(infer, before, prefix, t, j, k)
      {
        if Forgets(infer, before, prefix, t, j, k) {
          var m :| 0 <= m < |order| && order[m] == k;
          assert KeepsEarlier(before, prefix, t, order, m);
          KeepsEarlierExactly(infer, before, prefix, t, order, m);
        }
      }
    }
    if forall j, k {:trigger Forgets(infer, before, prefix, t, j, k)} :: !Forgets(infer, before, prefix, t, j, k) {
      forall m {:trigger KeepsEarlier(before, prefix, t, order, m)}
        | 0 <= m < |order| && Rekey(prefix, t, order[m]) == order[m]
        ensures KeepsEarlier(before, prefix, t, order, m)
      {
        KeepsEarlierExactly(infer, before, prefix, t, order, m);
      }
    }
  }

  /** When no other decision arrives after it, what k keeps is its own type. */
  lemma LastKeepsItsOwn(infer: Infer, before: Decisions, prefix: Prefix, t: ValueType, k: Prefix)
    requires Kept(infer, before, prefix, t, k) == {k}
    ensures JoinOf(before, Kept(infer, before, prefix, t, k)) == before[k]
  {
    LubOne(before, k);
    LubUnique(before, {k}, before[k], JoinOf(before, {k}));
  }
}
