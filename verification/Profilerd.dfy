/** The worker: it acknowledges messages only when the store covers what they taught. */
module Profilerd {
  import opened Sets
  import opened Templating
  import opened Profiles
  import opened Ledger
  import opened Accounting
  import opened Aggregating

  /** A store call succeeds, or fails after it did some part of its work. */
  datatype Outcome = Done | Failed(part: set<EndpointID>)

  type Rows = map<EndpointID, Profile>

  /** The rows with those of `ids` written as they are live. */
  function Written(rows: Rows, live: Live, ids: set<EndpointID>): Rows
    requires ids <= live.Keys
  {
    map id | id in rows.Keys + ids :: if id in ids then live[id] else rows[id]
  }

  ghost predicate CoveredAt(
    rows: Rows, live: Live, dirty: set<EndpointID>, retired: set<EndpointID>, missing: set<EndpointID>,
    id: EndpointID)
  {
    && (id in live && id !in dirty && id !in missing ==> id in rows && rows[id] == live[id])
    && (id in missing ==> id in live && id !in dirty && id !in rows)
    && (id in rows && id !in live ==> id in retired)
  }

  /** The store differs from memory only where that is still to be written or deleted, and lacks the rows of
      `missing`, which a flush deleted though they are live. */
  ghost predicate Covered(
    rows: Rows, live: Live, dirty: set<EndpointID>, retired: set<EndpointID>, missing: set<EndpointID>)
  {
    forall id {:trigger CoveredAt(rows, live, dirty, retired, missing, id)} ::
      CoveredAt(rows, live, dirty, retired, missing, id)
  }

  /** Observing keeps the store covered; a missing row that is dirty again will be written. */
  lemma ObservingKeepsCover(
    rows: Rows, live0: Live, dirty0: set<EndpointID>, retired0: set<EndpointID>, missing: set<EndpointID>,
    live: Live, dirty: set<EndpointID>, retired: set<EndpointID>)
    requires Covered(rows, live0, dirty0, retired0, missing)
    requires Accounted(live0, dirty0, retired0, live, dirty, retired)
    ensures Covered(rows, live, dirty, retired, missing * live.Keys - dirty)
  {
    var still := missing * live.Keys - dirty;
    forall id {:trigger CoveredAt(rows, live, dirty, retired, still, id)}
      ensures CoveredAt(rows, live, dirty, retired, still, id)
    {
      assert CoveredAt(rows, live0, dirty0, retired0, missing, id);
      assert AccountedAt(live0, dirty0, live, dirty, retired, id);
    }
  }

  lemma FlowKeepsCover(
    rows: Rows, live0: Live, dirty0: set<EndpointID>, retired0: set<EndpointID>, missing: set<EndpointID>,
    live: Live, dirty: set<EndpointID>, retired: set<EndpointID>, gone: set<EndpointID>)
    requires Covered(rows, live0, dirty0, retired0, missing)
    requires Retiring(live0, dirty0, retired0, live, dirty, retired, gone)
    ensures Covered(rows, live, dirty, retired, missing * live.Keys - dirty)
  {
    ObservingKeepsCover(rows, live0, dirty0, retired0, missing, live, dirty, retired);
  }

  /** A failed upsert, whatever part of it was applied, loses nothing once its work is requeued. */
  lemma UpsertFailedCovers(
    rows: Rows, live: Live, dirty: set<EndpointID>, retired: set<EndpointID>, missing: set<EndpointID>,
    part: set<EndpointID>)
    requires Covered(rows, live, dirty, retired, missing) && dirty <= live.Keys && part <= dirty
    ensures Covered(Written(rows, live, part), live, dirty, retired, missing)
  {
    var after := Written(rows, live, part);
    forall id {:trigger CoveredAt(after, live, dirty, retired, missing, id)}
      ensures CoveredAt(after, live, dirty, retired, missing, id)
    {
      assert CoveredAt(rows, live, dirty, retired, missing, id);
    }
  }

  /** After a delete, failed or not, the rows it deleted of live ids are missing, and no others that were not. */
  lemma DeletingCovers(
    rows: Rows, live: Live, dirty: set<EndpointID>, retired: set<EndpointID>, missing: set<EndpointID>,
    part: set<EndpointID>)
    requires Covered(rows, live, dirty, retired, missing) && dirty <= live.Keys && part <= retired
    ensures Covered(Written(rows, live, dirty) - part, live, {}, retired, missing + part * live.Keys)
  {
    var after, more := Written(rows, live, dirty) - part, missing + part * live.Keys;
    forall id {:trigger CoveredAt(after, live, {}, retired, more, id)}
      ensures CoveredAt(after, live, {}, retired, more, id)
    {
      assert CoveredAt(rows, live, dirty, retired, missing, id);
    }
  }

  /** With nothing to write or delete, the store holds what is live but for the missing rows. */
  lemma NothingToStore(rows: Rows, live: Live, missing: set<EndpointID>)
    requires Covered(rows, live, {}, {}, missing)
    ensures rows == live - missing && missing <= live.Keys
  {
    forall id
      ensures id in rows <==> id in live && id !in missing
      ensures id in rows ==> rows[id] == live[id]
      ensures id in missing ==> id in live
    {
      assert CoveredAt(rows, live, {}, {}, missing, id);
    }
  }

  lemma NoneMissing(rows: Rows, live: Live, missing: set<EndpointID>)
    requires missing <= live.Keys && rows == live - missing
    ensures rows == live <==> missing == {}
  {
    if id :| id in missing {
      assert id in live && id !in rows;
    }
  }

  /** After a full flush the store holds what is live but for the rows that were missing and those of deleted ids
      that are live, which the flush wrote first and then deleted: exactly what is live if and only if there are
      none of either. */
  lemma FlushedExactly(
    rows: Rows, live: Live, dirty: set<EndpointID>, retired: set<EndpointID>, missing: set<EndpointID>)
    requires Covered(rows, live, dirty, retired, missing) && dirty <= live.Keys
    ensures Written(rows, live, dirty) - retired == live - (missing + retired * live.Keys)
    ensures Written(rows, live, dirty) - retired == live <==> missing == {} && retired !! live.Keys
    ensures Covered(Written(rows, live, dirty) - retired, live, {}, {}, missing + retired * live.Keys)
  {
    var after, more := Written(rows, live, dirty) - retired, missing + retired * live.Keys;
    forall id {:trigger CoveredAt(after, live, {}, {}, more, id)}
      ensures CoveredAt(after, live, {}, {}, more, id)
    {
      assert CoveredAt(rows, live, dirty, retired, missing, id);
    }
    NothingToStore(after, live, more);
    Apart(retired, live.Keys);
    NoneMissing(after, live, more);
  }

  lemma WrittenMore(rows: Rows, live: Live, done: set<EndpointID>, id: EndpointID)
    requires done <= live.Keys && id in live
    ensures Written(rows, live, done + {id}) == Written(rows, live, done)[id := live[id]]
  {
  }

  lemma MissingIsLive(
    rows: Rows, live: Live, dirty: set<EndpointID>, retired: set<EndpointID>, missing: set<EndpointID>)
    requires Covered(rows, live, dirty, retired, missing)
    ensures missing <= live.Keys
  {
    forall id | id in missing
      ensures id in live
    {
      assert CoveredAt(rows, live, dirty, retired, missing, id);
    }
  }

  /** Of the retired ids, those whose rows a flush with these outcomes deletes though they are live. */
  function Deleted(live: set<EndpointID>, retired: set<EndpointID>, up: Outcome, down: Outcome): set<EndpointID> {
    if up.Failed? then {} else live * if down.Done? then retired else retired * down.part
  }

  class Store {
    var rows: Rows

    constructor ()
      ensures rows == map[]
    {
      rows := map[];
    }

    /** Writes the profiles, or some part of them. */
    method Upsert(
      work: seq<EndpointProfile>, outcome: Outcome, ghost live: Live, ghost ids: set<EndpointID>)
      returns (ok: bool)
      requires forall ep {:trigger ep in work} | ep in work ::
        ep.Shows() && ep.id in ids && ep.id in live && ep.shown == live[ep.id]
      requires ids <= live.Keys && forall id | id in ids :: exists ep | ep in work :: ep.id == id
      modifies this`rows
      ensures ok == outcome.Done?
      ensures rows == Written(old(rows), live, if ok then ids else ids * outcome.part)
    {
      ok := outcome.Done?;
      ghost var before, target, done := rows, if ok then ids else ids * outcome.part, {};
      assert rows == Written(rows, live, {});
      for i := 0 to |work|
        invariant done <= target && rows == Written(before, live, done)
        invariant forall k | 0 <= k < i && work[k].id in target :: work[k].id in done
      {
        var ep := work[i];
        assert ep in work;
        if ok || ep.id in outcome.part {
          WrittenMore(before, live, done, ep.id);
          rows, done := rows[ep.id := ep.Row()], done + {ep.id};
        }
      }
      assert done == target;
    }

    /** Deletes the rows of the ids, or some part of them. */
    method Delete(gone: set<EndpointID>, outcome: Outcome) returns (ok: bool)
      modifies this`rows
      ensures ok == outcome.Done?
      ensures rows == old(rows) - if ok then gone else gone * outcome.part
    {
      ok := outcome.Done?;
      rows := rows - if ok then gone else gone * outcome.part;
    }
  }

  class Worker {
    const agg: Aggregator
    const store: Store
    /** Messages folded in but not acknowledged. */
    var pending: seq<nat>
    var consumed: nat
    var skipped: nat
    /** Messages acknowledged because the store covers them, and all that were folded in. */
    ghost var acked: seq<nat>
    ghost var folded: seq<nat>
    /** The live ids whose rows a flush deleted, until they are dirty again. */
    ghost var missing: set<EndpointID>

    /** Every message folded in is acknowledged or still pending, in order. */
    ghost predicate Queued()
      reads this`pending, this`consumed, this`acked, this`folded
    {
      acked + pending == folded && consumed == |folded|
    }

    ghost predicate Sound()
      reads this`missing, agg, agg.owned, agg.registry, agg.registry.owned, agg.registry.stats, store
    {
      agg.Valid() && Covered(store.rows, agg.live, agg.dirty, agg.retired, missing)
    }

    ghost predicate Valid()
      reads this, agg, agg.owned, agg.registry, agg.registry.owned, agg.registry.stats, store
    {
      Queued() && Sound()
    }

    // The methods that only put others together hide all function bodies; these lemmas say what they need of them.

    lemma Opens()
      requires Sound()
      ensures agg.Valid() && Covered(store.rows, agg.live, agg.dirty, agg.retired, missing)
    {
    }

    lemma Closes()
      requires agg.Valid() && Covered(store.rows, agg.live, agg.dirty, agg.retired, missing)
      ensures Sound()
    {
    }

    lemma Halves()
      requires Valid()
      ensures Queued() && Sound()
    {
    }

    lemma Whole()
      requires Queued() && Sound()
      ensures Valid()
    {
    }

    constructor (agg: Aggregator, store: Store)
      requires agg.Valid() && agg.live == map[] && store.rows == map[]
      ensures Valid() && missing == {} && pending == [] && this.agg == agg && this.store == store
    {
      this.agg, this.store := agg, store;
      pending, consumed, skipped := [], 0, 0;
      acked, folded, missing := [], [], {};
    }

    method Fold(o: Observation, clock: int) returns (ghost e: Effect)
      requires Sound()
      modifies this`missing, agg, agg.owned, agg.registry, agg.registry.owned, agg.registry.stats
      ensures Sound() && missing == old(missing) * agg.live.Keys - agg.dirty
      ensures forall x {:trigger x in agg.registry.owned} | x in agg.registry.owned ::
        x in old(agg.registry.owned) || fresh(x)
      ensures forall x {:trigger x in agg.registry.stats} | x in agg.registry.stats ::
        x in old(agg.registry.stats) || fresh(x)
      ensures forall ep {:trigger ep in agg.owned} | ep in agg.owned :: ep in old(agg.owned) || fresh(ep)
      ensures Took(agg.rules, Effective(agg.registry.opts), agg.caps, old(agg.Standing()), agg.Standing(), o, clock, e)
    {
      hide *;
      ghost var live0, dirty0, retired0 := agg.live, agg.dirty, agg.retired;
      Opens();
      e := agg.Observe(o, clock);
      FlowKeepsCover(store.rows, live0, dirty0, retired0, missing, agg.live, agg.dirty, agg.retired, e.gone);
      missing := missing * agg.live.Keys - agg.dirty;
      Closes();
    }

    method Enqueue(msg: nat)
      requires Queued()
      modifies this`pending, this`consumed, this`folded
      ensures Queued() && pending == old(pending) + [msg] && folded == old(folded) + [msg]
    {
      pending, consumed, folded := pending + [msg], consumed + 1, folded + [msg];
    }

    /** Folds one message in, or acknowledges it at once when policy does not want it. */
    method Observe(msg: nat, wanted: bool, o: Observation, clock: int) returns (ghost e: Effect)
      requires Valid()
      modifies this`pending, this`consumed, this`skipped, this`folded, this`missing
      modifies agg, agg.owned, agg.registry, agg.registry.owned, agg.registry.stats
      ensures Valid()
      ensures forall x {:trigger x in agg.registry.owned} | x in agg.registry.owned ::
        x in old(agg.registry.owned) || fresh(x)
      ensures forall x {:trigger x in agg.registry.stats} | x in agg.registry.stats ::
        x in old(agg.registry.stats) || fresh(x)
      ensures forall ep {:trigger ep in agg.owned} | ep in agg.owned :: ep in old(agg.owned) || fresh(ep)
      ensures pending == old(pending) + if wanted then [msg] else []
      ensures folded == old(folded) + if wanted then [msg] else []
      ensures skipped == old(skipped) + if wanted then 0 else 1
      ensures !wanted ==> agg.Standing() == old(agg.Standing()) && missing == old(missing)
      ensures wanted ==>
        && Took(agg.rules, Effective(agg.registry.opts), agg.caps, old(agg.Standing()), agg.Standing(), o, clock, e)
        && missing == old(missing) * agg.live.Keys - agg.dirty
    {
      hide *;
      Halves();
      if !wanted {
        skipped := skipped + 1;
        e := Effect(false, {}, map[], EndpointID("", "", "", ""), o.sample, false);
      } else {
        e := Fold(o, clock);
        Enqueue(msg);
      }
      Whole();
    }

    method AckPending()
      requires Queued()
      modifies this`pending, this`acked
      ensures Queued() && pending == [] && acked == old(acked) + old(pending)
    {
      acked, pending := acked + pending, [];
    }

    /** The profiles are those of the ids, as they are live. */
    ghost predicate Carries(work: seq<EndpointProfile>, ids: set<EndpointID>)
      reads agg`live, work
    {
      && ids <= agg.live.Keys
      && (forall ep {:trigger ep in work} | ep in work ::
            ep.Shows() && ep.id in ids && ep.id in agg.live && ep.shown == agg.live[ep.id])
      && forall id {:trigger id in ids} | id in ids :: exists ep | ep in work :: ep.id == id
    }

    method Collect() returns (work: seq<EndpointProfile>, gone: set<EndpointID>)
      requires agg.Valid()
      modifies agg`dirty, agg`retired
      ensures agg.Valid() && agg.dirty == {} && agg.retired == {}
      ensures Carries(work, old(agg.dirty)) && gone == old(agg.retired) && (work == [] <==> old(agg.dirty) == {})
    {
      ghost var dirty := agg.dirty;
      work, gone := agg.Collect();
      forall id {:trigger id in dirty} | id in dirty
        ensures exists ep | ep in work :: ep.id == id
      {
        assert agg.endpoints[id] in work;
      }
    }

    /** Taking back what was collected restores the dirty set. */
    lemma CarriesExactly(work: seq<EndpointProfile>, ids: set<EndpointID>, now: set<EndpointID>)
      requires Carries(work, ids)
      requires forall id :: id in now <==> id in agg.live && exists ep | ep in work :: ep.id == id
      ensures now == ids
    {
      forall id
        ensures id in now <==> id in ids
      {
        if ep :| ep in work && ep.id == id {
        }
      }
    }

    method GiveBack(work: seq<EndpointProfile>, gone: set<EndpointID>, ghost dirty: set<EndpointID>)
      requires agg.Valid() && agg.dirty == {} && agg.retired == {} && Carries(work, dirty)
      modifies agg`dirty, agg`retired
      ensures agg.Valid() && agg.dirty == dirty && agg.retired == gone
    {
      hide *;
      agg.Requeue(work, gone);
      CarriesExactly(work, dirty, agg.dirty);
      assert {} + gone == gone;
    }

    method GiveBackRetired(gone: set<EndpointID>)
      requires agg.Valid() && agg.dirty == {} && agg.retired == {}
      modifies agg`dirty, agg`retired
      ensures agg.Valid() && agg.dirty == {} && agg.retired == gone
    {
      GiveBack([], gone, {});
    }

    method Erase(gone: set<EndpointID>, down: Outcome, ghost rows: Rows, ghost dirty: set<EndpointID>)
      returns (acks: bool)
      requires agg.Valid() && agg.dirty == {} && agg.retired == {} && dirty <= agg.live.Keys
      requires store.rows == Written(rows, agg.live, dirty) && Covered(rows, agg.live, dirty, gone, missing)
      modifies this`missing, store`rows, agg`dirty, agg`retired
      ensures Sound() && (acks <==> down.Done?)
      ensures missing == old(missing) + agg.live.Keys * if acks then gone else gone * down.part
      ensures acks ==> store.rows == agg.live - missing
    {
      hide *;
      ghost var part := if down.Done? then gone else gone * down.part;
      DeletingCovers(rows, agg.live, dirty, gone, missing, part);
      FlushedExactly(rows, agg.live, dirty, gone, missing);
      missing := missing + agg.live.Keys * part;
      assert part * agg.live.Keys == agg.live.Keys * part;
      acks := store.Delete(gone, down);
      if !acks {
        GiveBackRetired(gone);
      }
      Closes();
    }

    /** Writes, then deletes; what fails is requeued. */
    method Commit(work: seq<EndpointProfile>, gone: set<EndpointID>, up: Outcome, down: Outcome,
                  ghost dirty: set<EndpointID>)
      returns (acks: bool)
      requires agg.Valid() && agg.dirty == {} && agg.retired == {} && Carries(work, dirty)
      requires Covered(store.rows, agg.live, dirty, gone, missing)
      modifies this`missing, store`rows, agg`dirty, agg`retired
      ensures Sound() && missing == old(missing) + Deleted(agg.live.Keys, gone, up, down)
      ensures acks ==> store.rows == agg.live - missing
      ensures acks <==> up.Done? && down.Done?
    {
      hide Covered, Written, Aggregator.Valid;
      ghost var rows := store.rows;
      acks := store.Upsert(work, up, agg.live, dirty);
      if !acks {
        UpsertFailedCovers(rows, agg.live, dirty, gone, missing, dirty * up.part);
        GiveBack(work, gone, dirty);
        assert missing + {} == missing;
        return;
      }
      acks := Erase(gone, down, rows, dirty);
    }

    /** The store calls of a flush. */
    method StoreAll(up: Outcome, down: Outcome) returns (acks: bool)
      requires Sound()
      modifies this`missing, store`rows, agg`dirty, agg`retired
      ensures Sound() && missing == old(missing) + Deleted(agg.live.Keys, old(agg.retired), up, down)
      ensures acks ==> store.rows == agg.live - missing
      ensures acks <==> (up.Done? && down.Done?) || (old(agg.dirty) == {} && old(agg.retired) == {})
    {
      hide *;
      ghost var dirty, retired := agg.dirty, agg.retired;
      Opens();
      var work, gone := Collect();
      if |work| == 0 && |gone| == 0 {
        NothingToStore(store.rows, agg.live, missing);
        NothingDeleted(up, down);
        Closes();
        return true;
      }
      acks := Commit(work, gone, up, down, dirty);
    }

    lemma NothingDeleted(up: Outcome, down: Outcome)
      ensures missing == missing + Deleted(agg.live.Keys, {}, up, down)
    {
      assert agg.live.Keys * {} == {};
    }

    lemma MissingRows()
      requires Sound()
      ensures missing <= agg.live.Keys
      ensures store.rows == agg.live - missing ==> (store.rows == agg.live <==> missing == {})
    {
      MissingIsLive(store.rows, agg.live, agg.dirty, agg.retired, missing);
      if store.rows == agg.live - missing {
        NoneMissing(store.rows, agg.live, missing);
      }
    }

    /** Commits what was learned, then acknowledges everything it covers; after a failed store call
        nothing is acknowledged and the work is requeued. When messages are acknowledged, the store holds what is
        live but for the missing rows. */
    method Flush(up: Outcome, down: Outcome) returns (acks: bool)
      requires Valid()
      modifies this`pending, this`acked, this`missing, store`rows, agg`dirty, agg`retired
      ensures Valid()
      ensures acked == old(acked) + (if acks then old(pending) else []) && pending == if acks then [] else old(pending)
      ensures missing == old(missing) + Deleted(agg.live.Keys, old(agg.retired), up, down)
      ensures acks ==> store.rows == agg.live - missing && (store.rows == agg.live <==> missing == {})
      ensures acks <==> (up.Done? && down.Done?) || (old(agg.dirty) == {} && old(agg.retired) == {})
    {
      hide *;
      Halves();
      acks := StoreAll(up, down);
      MissingRows();
      if acks {
        AckPending();
      }
      Whole();
    }
  }
}
