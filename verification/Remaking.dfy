/** What a pass over a scope makes of the live profiles: each is the merge of those whose templates became its own. */
module Remaking {
  import opened Sorting
  import opened Collapsing
  import opened Scopes
  import opened Profiles
  import opened Ledger

  /** id's profile is now at `to`, merged into what was there; no other profile changed. */
  ghost predicate Shifted(caps: Caps, before: Live, after: Live, id: EndpointID, to: EndpointID) {
    && id in before && id != to && to in after && after == (before - {id})[to := after[to]]
    && if to in before then Merged(caps, after[to], before[to], before[id]) else after[to] == before[id]
  }

  /** The ids whose profiles are at k once those outside `rest` have moved. */
  ghost function Origins(
    infer: Infer, d: Decisions, live: set<EndpointID>, rest: set<EndpointID>, k: EndpointID): set<EndpointID>
  {
    set id | id in live && (if id in rest then id == k else Retemplated(infer, d, id) == k)
  }

  /** The profiles of these ids, each merged into what those before it made. */
  ghost predicate MergedAlong(caps: Caps, live: Live, order: seq<EndpointID>, p: Profile) {
    && order != [] && order[|order| - 1] in live
    && var last := live[order[|order| - 1]];
       if |order| == 1 then p == last
       else exists m {:trigger Merged(caps, p, m, last)} ::
         MergedAlong(caps, live, order[..|order| - 1], m) && Merged(caps, p, m, last)
  }

  /** Each id of s once, and k first if it is one of them. */
  ghost predicate Lists(order: seq<EndpointID>, s: set<EndpointID>, k: EndpointID) {
    Distinct(order) && (forall x :: x in order <==> x in s) && (k in s ==> order != [] && order[0] == k)
  }

  /** p is what is at k when the profiles of s are merged there. */
  ghost predicate Joined(caps: Caps, live: Live, s: set<EndpointID>, k: EndpointID, p: Profile) {
    exists order {:trigger MergedAlong(caps, live, order, p)} :: Lists(order, s, k) && MergedAlong(caps, live, order, p)
  }

  ghost predicate RemadeAt(
    caps: Caps, infer: Infer, d: Decisions, live0: Live, live: Live, rest: set<EndpointID>, k: EndpointID)
  {
    var s := Origins(infer, d, live0.Keys, rest, k);
    (k in live <==> s != {}) && (k in live ==> Joined(caps, live0, s, k, live[k]))
  }

  /** The profiles outside `rest` are where their templates put them, those that meet merged; the others are where
      they were. */
  ghost predicate Remade(caps: Caps, infer: Infer, d: Decisions, live0: Live, live: Live, rest: set<EndpointID>) {
    forall k {:trigger RemadeAt(caps, infer, d, live0, live, rest, k)} ::
      RemadeAt(caps, infer, d, live0, live, rest, k)
  }

  lemma JoinedOne(caps: Caps, live: Live, id: EndpointID, k: EndpointID)
    requires id in live
    ensures Joined(caps, live, {id}, k, live[id])
  {
    assert Lists([id], {id}, k) && MergedAlong(caps, live, [id], live[id]);
  }

  lemma SomeOther(order: seq<EndpointID>, id: EndpointID)
    requires Distinct(order) && |order| > 1
    ensures exists x | x in order :: x != id
  {
    assert order[0] in order && order[1] in order;
  }

  lemma OnlyOne(caps: Caps, live: Live, id: EndpointID, p: Profile)
    requires Joined(caps, live, {id}, id, p)
    ensures id in live && p == live[id]
  {
    var order :| Lists(order, {id}, id) && MergedAlong(caps, live, order, p);
    if |order| > 1 {
      SomeOther(order, id);
    }
  }

  lemma ListsMore(order: seq<EndpointID>, s: set<EndpointID>, k: EndpointID, id: EndpointID)
    requires Lists(order, s, k) && id !in s && id != k
    ensures Lists(order + [id], s + {id}, k)
  {
    assert forall i | 0 <= i < |order| :: order[i] in order;
  }

  /** One more profile merged in. */
  lemma JoinedMore(
    caps: Caps, live: Live, s: set<EndpointID>, k: EndpointID, p: Profile, id: EndpointID, q: Profile)
    requires Joined(caps, live, s, k, p) && id in live && id !in s && id != k && Merged(caps, q, p, live[id])
    ensures Joined(caps, live, s + {id}, k, q)
  {
    hide Merged, Lists;
    var order :| Lists(order, s, k) && MergedAlong(caps, live, order, p);
    var more := order + [id];
    ListsMore(order, s, k, id);
    assert more[..|more| - 1] == order;
    assert MergedAlong(caps, live, more, q);
  }

  /** While every id outside `rest` is a fixed point, nothing has moved. */
  lemma NothingRemade(caps: Caps, infer: Infer, d: Decisions, live: Live, rest: set<EndpointID>)
    requires AllFixed(infer, d, live.Keys, rest)
    ensures Remade(caps, infer, d, live, live, rest)
  {
    hide Retemplated, Joined, Fixed;
    forall k {:trigger RemadeAt(caps, infer, d, live, live, rest, k)}
      ensures RemadeAt(caps, infer, d, live, live, rest, k)
    {
      forall id | id in live && id !in rest
        ensures Retemplated(infer, d, id) == id
      {
        assert Fixed(infer, d, id);
        RetemplatedIsFixed(infer, d, id);
      }
      if k in live {
        assert Origins(infer, d, live.Keys, rest, k) == {k};
        JoinedOne(caps, live, k, k);
      }
    }
  }

  lemma FixedToo(infer: Infer, d: Decisions, id: EndpointID)
    ensures Retemplated(infer, d, Retemplated(infer, d, id)) == Retemplated(infer, d, id)
  {
    hide Retemplated, Fixed;
    RetemplatedIsFixed(infer, d, id);
    RetemplatedIsFixed(infer, d, Retemplated(infer, d, id));
  }

  /** A fixed point looked at stays where it is. */
  lemma RemadeStay(
    caps: Caps, infer: Infer, d: Decisions, live0: Live, live: Live, rest: set<EndpointID>, id: EndpointID)
    requires Remade(caps, infer, d, live0, live, rest) && id in rest && Retemplated(infer, d, id) == id
    ensures Remade(caps, infer, d, live0, live, rest - {id})
  {
    hide Retemplated, Joined;
    forall k {:trigger RemadeAt(caps, infer, d, live0, live, rest - {id}, k)}
      ensures RemadeAt(caps, infer, d, live0, live, rest - {id}, k)
    {
      assert RemadeAt(caps, infer, d, live0, live, rest, k);
      assert Origins(infer, d, live0.Keys, rest - {id}, k) == Origins(infer, d, live0.Keys, rest, k);
    }
  }

  /** Where the ids come from when one more moves: it leaves its own place, which nothing else reaches. */
  lemma OriginsMove(
    infer: Infer, d: Decisions, live: set<EndpointID>, rest: set<EndpointID>, id: EndpointID, k: EndpointID)
    requires id in rest && rest <= live && Retemplated(infer, d, id) != id
    ensures var s, t := Origins(infer, d, live, rest, k), Origins(infer, d, live, rest - {id}, k);
      if k == id then s == {id} && t == {}
      else id !in s && t == if k == Retemplated(infer, d, id) then s + {id} else s
  {
    hide Retemplated;
    forall x | x in live
      ensures Retemplated(infer, d, x) != id
    {
      FixedToo(infer, d, x);
    }
  }

  /** Moving one more id keeps what has been made so far. */
  lemma RemadeMove(
    caps: Caps, infer: Infer, d: Decisions, live0: Live, live: Live, after: Live, rest: set<EndpointID>,
    id: EndpointID, to: EndpointID)
    requires Remade(caps, infer, d, live0, live, rest) && id in rest && rest <= live0.Keys
    requires to == Retemplated(infer, d, id) && Shifted(caps, live, after, id, to)
    ensures Remade(caps, infer, d, live0, after, rest - {id})
  {
    hide Retemplated, Joined, Merged, Origins;
    assert RemadeAt(caps, infer, d, live0, live, rest, id);
    OriginsMove(infer, d, live0.Keys, rest, id, id);
    OnlyOne(caps, live0, id, live[id]);
    forall k {:trigger RemadeAt(caps, infer, d, live0, after, rest - {id}, k)}
      ensures RemadeAt(caps, infer, d, live0, after, rest - {id}, k)
    {
      OriginsMove(infer, d, live0.Keys, rest, id, k);
      assert RemadeAt(caps, infer, d, live0, live, rest, k);
      if k == to {
        var s := Origins(infer, d, live0.Keys, rest, to);
        if to in live {
          JoinedMore(caps, live0, s, to, live[to], id, after[to]);
        } else {
          assert s + {id} == {id};
          JoinedOne(caps, live0, id, to);
        }
      }
    }
  }

  // ---- which ids leave, and what becomes dirty ----

  /** The ids whose templates become others. */
  ghost function Leavers(infer: Infer, d: Decisions, ids: set<EndpointID>): set<EndpointID> {
    set id | id in ids && Retemplated(infer, d, id) != id
  }

  /** What is dirty once the ids in `gone` have moved: what they moved to is, and they no longer are. */
  ghost function Redirtied(
    infer: Infer, d: Decisions, dirty: set<EndpointID>, gone: set<EndpointID>): set<EndpointID>
  {
    dirty - gone + set id | id in gone :: Retemplated(infer, d, id)
  }

  lemma LeaveOne(infer: Infer, d: Decisions, live: set<EndpointID>, rest: set<EndpointID>, id: EndpointID)
    requires id in rest && rest <= live
    ensures Leavers(infer, d, live - (rest - {id}))
         == Leavers(infer, d, live - rest) + if Retemplated(infer, d, id) != id then {id} else {}
  {
    hide Retemplated;
  }

  lemma DirtyOne(infer: Infer, d: Decisions, dirty: set<EndpointID>, gone: set<EndpointID>, id: EndpointID)
    requires Retemplated(infer, d, id) != id && gone == Leavers(infer, d, gone)
    ensures Redirtied(infer, d, dirty, gone + {id})
         == Redirtied(infer, d, dirty, gone) - {id} + {Retemplated(infer, d, id)}
  {
    hide Retemplated;
    FixedToo(infer, d, id);
    forall g | g in gone
      ensures Retemplated(infer, d, g) != id
    {
      FixedToo(infer, d, g);
    }
  }

  /** A whole pass: which profiles there are and what they hold, which ids are gone, and what is dirty. */
  ghost predicate Reordered(
    caps: Caps, infer: Infer, d: Decisions, live0: Live, dirty0: set<EndpointID>, live: Live,
    dirty: set<EndpointID>, gone: set<EndpointID>)
  {
    && Remade(caps, infer, d, live0, live, {})
    && gone == Leavers(infer, d, live0.Keys) && dirty == Redirtied(infer, d, dirty0, gone)
  }

  lemma NothingReordered(caps: Caps, infer: Infer, d: Decisions, live: Live, dirty: set<EndpointID>)
    requires AllFixed(infer, d, live.Keys, {})
    ensures Reordered(caps, infer, d, live, dirty, live, dirty, {})
  {
    hide Retemplated, Fixed, Remade;
    NothingRemade(caps, infer, d, live, {});
    forall id | id in live
      ensures Retemplated(infer, d, id) == id
    {
      assert Fixed(infer, d, id);
      RetemplatedIsFixed(infer, d, id);
    }
  }

  /** An id is live after the pass exactly when some live id has become it. */
  lemma RemadeKeys(caps: Caps, infer: Infer, d: Decisions, live0: Live, live: Live)
    requires Remade(caps, infer, d, live0, live, {})
    ensures live.Keys == set id | id in live0 :: Retemplated(infer, d, id)
  {
    hide Retemplated, Joined;
    forall k
      ensures k in live <==> exists id | id in live0 :: Retemplated(infer, d, id) == k
    {
      assert RemadeAt(caps, infer, d, live0, live, {}, k);
      if id :| id in live0 && Retemplated(infer, d, id) == k {
        assert id in Origins(infer, d, live0.Keys, {}, k);
      }
    }
  }
}
