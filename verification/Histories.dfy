/** The aggregator's runs: over every run each live endpoint's profile is exactly that of the flows told to it, to it
    directly or to the endpoints merged into it, and every flow that found room was told to one live endpoint. */
module Histories {
  import opened Paths
  import opened Evidences
  import opened Sorting
  import opened Collapsing
  import opened Scopes
  import opened Parameters
  import opened Profiles
  import opened Ledger
  import opened Remaking
  import opened Accounting
  import Truncation
  import opened Summaries
  import opened Tallies

  // ---- a pass over a scope ----

  /** The flows each live endpoint was told. */
  type Record = map<EndpointID, set<Flow>>

  /** What was told to any of these endpoints. */
  ghost function Gathered(told: Record, ids: set<EndpointID>): set<Flow> {
    set id, f | id in ids && id in told && f in told[id] :: f
  }

  /** No flow was told to two endpoints. */
  ghost predicate Separate(told: Record) {
    forall x, y | x in told && y in told && x != y :: told[x] !! told[y]
  }

  /** Every live endpoint was told something, and its profile is that of what it was told. */
  ghost predicate AllTallied(r: Rules, caps: Caps, live: Live, told: Record) {
    && told.Keys == live.Keys && Separate(told)
    && forall id {:trigger live[id]} {:trigger told[id]} | id in live ::
         told[id] != {} && Tallied(r, caps, live[id], told[id])
  }

  lemma GatheredMore(told: Record, ids: set<EndpointID>, id: EndpointID)
    requires id in told
    ensures Gathered(told, ids + {id}) == Gathered(told, ids) + told[id]
    ensures Separate(told) && id !in ids ==> Gathered(told, ids) !! told[id]
  {
    assert id in ids + {id};
    forall f
      ensures f in Gathered(told, ids + {id}) <==> f in Gathered(told, ids) + told[id]
    {
      if x :| x in ids && x in told && f in told[x] {
        assert x in ids + {id};
      }
    }
  }

  lemma GatheredOne(told: Record, id: EndpointID)
    requires id in told
    ensures Gathered(told, {id}) == told[id]
  {
    assert {} + {id} == {id};
    GatheredMore(told, {}, id);
    assert Gathered(told, {}) == {};
  }

  ghost function Elements(order: seq<EndpointID>): set<EndpointID> {
    set id | id in order
  }

  lemma ElementsSnoc(order: seq<EndpointID>)
    requires order != []
    ensures Elements(order) == Elements(order[..|order| - 1]) + {order[|order| - 1]}
    ensures Distinct(order) ==>
      order[|order| - 1] !in Elements(order[..|order| - 1]) && Distinct(order[..|order| - 1])
  {
    assert order == order[..|order| - 1] + [order[|order| - 1]];
  }

  lemma NoElements()
    ensures Elements([]) == {}
  {
  }

  lemma {:induction false} AlongTallied(
    r: Rules, caps: Caps, live: Live, told: Record, order: seq<EndpointID>, p: Profile)
    requires AllTallied(r, caps, live, told) && Distinct(order) && MergedAlong(caps, live, order, p)
    ensures Tallied(r, caps, p, Gathered(told, Elements(order))) && Gathered(told, Elements(order)) != {}
  {
    hide Tallied, Merged, Gathered, Elements, Separate, Distinct;
    var n := |order| - 1;
    var last := order[n];
    ElementsSnoc(order);
    if n == 0 {
      NoElements();
      assert order[..0] == [] && {} + {last} == {last};
      GatheredOne(told, last);
    } else {
      var m :| MergedAlong(caps, live, order[..n], m) && Merged(caps, p, m, live[last]);
      AlongTallied(r, caps, live, told, order[..n], m);
      GatheredMore(told, Elements(order[..n]), last);
      MergedTallied(r, caps, p, m, live[last], Gathered(told, Elements(order[..n])), told[last]);
    }
  }

  /** What each endpoint of the pass's outcome was told, itself or through those merged into it. */
  ghost function Regathered(infer: Infer, d: Decisions, told: Record, keys: set<EndpointID>): Record {
    map k | k in keys :: Gathered(told, Origins(infer, d, told.Keys, {}, k))
  }

  lemma RegatheredApart(infer: Infer, d: Decisions, told: Record, keys: set<EndpointID>)
    requires Separate(told)
    ensures Separate(Regathered(infer, d, told, keys))
  {
    hide Retemplated;
    var after := Regathered(infer, d, told, keys);
    forall x, y | x in after && y in after && x != y
      ensures after[x] !! after[y]
    {
    }
  }

  /** A pass loses nothing that was told, and adds nothing. */
  lemma RegatheredAll(caps: Caps, infer: Infer, d: Decisions, live: Live, mid: Live, told: Record)
    requires Remade(caps, infer, d, live, mid, {}) && told.Keys == live.Keys
    ensures var after := Regathered(infer, d, told, mid.Keys);
      Gathered(after, after.Keys) == Gathered(told, told.Keys)
  {
    hide Retemplated, Remade;
    var after := Regathered(infer, d, told, mid.Keys);
    RemadeKeys(caps, infer, d, live, mid);
    forall f | f in Gathered(told, told.Keys)
      ensures f in Gathered(after, after.Keys)
    {
      var id :| id in told && f in told[id];
      assert id in Origins(infer, d, told.Keys, {}, Retemplated(infer, d, id));
      assert f in after[Retemplated(infer, d, id)];
    }
    forall f | f in Gathered(after, after.Keys)
      ensures f in Gathered(told, told.Keys)
    {
      var k :| k in after && f in after[k];
    }
  }

  lemma RemadeTallied(
    r: Rules, caps: Caps, d: Decisions, live: Live, mid: Live, told: Record)
    requires Remade(caps, r.infer, d, live, mid, {}) && AllTallied(r, caps, live, told)
    ensures AllTallied(r, caps, mid, Regathered(r.infer, d, told, mid.Keys))
  {
    hide Tallied, Merged, MergedAlong, Gathered, Origins, Separate, Distinct;
    var after := Regathered(r.infer, d, told, mid.Keys);
    RegatheredApart(r.infer, d, told, mid.Keys);
    forall k {:trigger mid[k]} {:trigger after[k]} | k in mid
      ensures after[k] != {} && Tallied(r, caps, mid[k], after[k])
    {
      assert RemadeAt(caps, r.infer, d, live, mid, {}, k);
      var s := Origins(r.infer, d, live.Keys, {}, k);
      var order :| Lists(order, s, k) && MergedAlong(caps, live, order, mid[k]);
      assert Elements(order) == s;
      AlongTallied(r, caps, live, told, order, mid[k]);
    }
  }

  // ---- a run ----

  /** A flow is folded in, or the dirty and retired ids are handed over or given back. */
  datatype Turn =
    | Folding(o: Observation, clock: int, e: Effect, after: Books)
    | Handing(after: Books)

  ghost function BooksAfter(turns: seq<Turn>): Books {
    if turns == [] then NEW_BOOKS else turns[|turns| - 1].after
  }

  ghost predicate IsRun(r: Rules, opts: TemplateOptions, caps: Caps, turns: seq<Turn>) {
    turns != [] ==>
      var before := turns[..|turns| - 1];
      IsRun(r, opts, caps, before)
      && match turns[|turns| - 1]
         case Folding(o, clock, e, after) => Took(r, opts, caps, BooksAfter(before), after, o, clock, e)
         case Handing(after) =>
           after == BooksAfter(before).(dirty := after.dirty, retired := after.retired)
  }

  ghost function Telling(told: Record, e: Effect, f: Flow): Record {
    if e.room then told[e.id := (if e.id in told then told[e.id] else {}) + {f}] else told
  }

  /** What each live endpoint was told during the run. */
  ghost function ToldBy(infer: Infer, turns: seq<Turn>): Record {
    if turns == [] then map[]
    else
      var n := |turns| - 1;
      match turns[n]
      case Handing(_) => ToldBy(infer, turns[..n])
      case Folding(o, clock, e, after) =>
        if SeenBefore(BooksAfter(turns[..n]), o) then ToldBy(infer, turns[..n])
        else Telling(Regathered(infer, after.decisions, ToldBy(infer, turns[..n]), e.mid.Keys), e,
                     Flow(n, o, clock, e.q.found))
  }

  /** The flow was folded in at its turn: it had not been seen before, and there was room for it. */
  ghost predicate WasTold(turns: seq<Turn>, f: Flow) {
    && f.turn < |turns| && turns[f.turn].Folding? && turns[f.turn].e.room
    && turns[f.turn].o == f.o && turns[f.turn].clock == f.clock && turns[f.turn].e.q.found == f.found
    && !SeenBefore(BooksAfter(turns[..f.turn]), f.o)
  }

  /** Every such flow was told to a live endpoint, and nothing else was. */
  ghost predicate Complete(turns: seq<Turn>, told: Record) {
    forall f :: f in Gathered(told, told.Keys) <==> WasTold(turns, f)
  }

  lemma DestinedTells(
    infer: Infer, c: map<Prefix, ValueTypes.ValueType>, o: Observation, clock: int, at: EndpointID, q: Sample, n: nat)
    requires Destined(infer, c, o, TimeOf(o, clock), at, q)
    ensures Tells(Flow(n, o, clock, q.found), q)
  {
    hide Templated, PathFound, JoinTemplate, Segments;
    assert IsTemplated(infer, c, o.path, Templated(infer, c, Segments(o.path)));
  }

  lemma TouchedAt(r: Rules, caps: Caps, p: Profile, q: Sample, after: Profile, flows: set<Flow>, f: Flow)
    requires Told(r, caps, p, q, after) && Tallied(r, caps, p, flows) && f !in flows && Tells(f, q)
    requires flows == {} ==> p.first == p.last == q.at
    ensures Tallied(r, caps, after, flows + {f})
  {
    hide *;
    ToldIsTouched(r, caps, p, q, after);
    TouchedTallied(r, caps, p, q, flows, f);
  }

  lemma TellingApart(told: Record, e: Effect, f: Flow)
    requires Separate(told) && f !in Gathered(told, told.Keys)
    ensures Separate(Telling(told, e, f))
  {
    forall id | id in told
      ensures f !in told[id]
    {
    }
  }

  lemma PlacedTallied(r: Rules, caps: Caps, mid: Live, live: Live, e: Effect, told: Record, f: Flow)
    requires AllTallied(r, caps, mid, told) && Placed(r, caps, mid, live, e.id, e.q, e.room)
    requires Tells(f, e.q) && f !in Gathered(told, told.Keys)
    ensures AllTallied(r, caps, live, Telling(told, e, f))
  {
    hide Tallied, Touched, Told, Tells, Separate;
    TellingApart(told, e, f);
    if e.room {
      BlankTallied(r, caps, e.q.at);
      TouchedAt(r, caps, if e.id in mid then mid[e.id] else Blank(e.q.at), e.q, live[e.id],
                if e.id in mid then told[e.id] else {}, f);
    }
  }

  lemma TalliedKeys(r: Rules, caps: Caps, live: Live, told: Record)
    requires AllTallied(r, caps, live, told)
    ensures told.Keys == live.Keys
  {
  }

  lemma TurnTallied(
    r: Rules, opts: TemplateOptions, caps: Caps, b: Books, a: Books, o: Observation, clock: int, e: Effect,
    told: Record, n: nat)
    requires Took(r, opts, caps, b, a, o, clock, e) && !SeenBefore(b, o) && AllTallied(r, caps, b.live, told)
    requires Flow(n, o, clock, e.q.found) !in Gathered(told, told.Keys)
    ensures var mid := Regathered(r.infer, a.decisions, told, e.mid.Keys);
      && AllTallied(r, caps, a.live, Telling(mid, e, Flow(n, o, clock, e.q.found)))
      && Gathered(mid, mid.Keys) == Gathered(told, told.Keys)
  {
    hide *;
    var f := Flow(n, o, clock, e.q.found);
    var mid := Regathered(r.infer, a.decisions, told, e.mid.Keys);
    TookMoves(r, opts, caps, b, a, o, clock, e);
    DestinedTells(r.infer, a.decisions[o.scope], o, clock, e.id, e.q, n);
    RemadeTallied(r, caps, a.decisions, b.live, e.mid, told);
    TalliedKeys(r, caps, b.live, told);
    RegatheredAll(caps, r.infer, a.decisions, b.live, e.mid, told);
    PlacedTallied(r, caps, e.mid, a.live, e, mid, f);
  }

  lemma TellingAll(told: Record, e: Effect, f: Flow)
    ensures var after := Telling(told, e, f);
      Gathered(after, after.Keys) == Gathered(told, told.Keys) + if e.room then {f} else {}
  {
    var after := Telling(told, e, f);
    forall g
      ensures g in Gathered(after, after.Keys) <==> g in Gathered(told, told.Keys) || (e.room && g == f)
    {
      if e.room {
        assert f in after[e.id];
      }
      if id :| id in told && g in told[id] {
        assert g in after[id];
      }
      if id :| id in after && g in after[id] {
        assert g == f || g in told[id];
      }
    }
  }

  lemma ToldEarlier(turns: seq<Turn>, f: Flow)
    requires turns != []
    ensures var n := |turns| - 1;
      && (WasTold(turns[..n], f) ==> f.turn < n)
      && (WasTold(turns, f) <==> if f.turn < n then WasTold(turns[..n], f) else
            && f.turn == n && turns[n].Folding? && turns[n].e.room && !SeenBefore(BooksAfter(turns[..n]), f.o)
            && f == Flow(n, turns[n].o, turns[n].clock, turns[n].e.q.found))
  {
    hide SeenBefore, BooksAfter;
    var n := |turns| - 1;
    if f.turn < n {
      assert turns[..n][..f.turn] == turns[..f.turn];
    }
  }

  lemma Nothing(r: Rules, caps: Caps)
    ensures AllTallied(r, caps, map[], map[]) && Complete([], map[])
  {
  }

  lemma SameTold(turns: seq<Turn>, told: Record)
    requires turns != [] && Complete(turns[..|turns| - 1], told)
    requires var n := |turns| - 1;
      turns[n].Folding? ==> SeenBefore(BooksAfter(turns[..n]), turns[n].o)
    ensures Complete(turns, told)
  {
    hide SeenBefore, BooksAfter, Gathered;
    forall f
      ensures f in Gathered(told, told.Keys) <==> WasTold(turns, f)
    {
      ToldEarlier(turns, f);
    }
  }

  lemma MoreTold(turns: seq<Turn>, told: Record, mid: Record)
    requires turns != [] && Complete(turns[..|turns| - 1], told)
    requires Gathered(mid, mid.Keys) == Gathered(told, told.Keys)
    requires var n := |turns| - 1;
      turns[n].Folding? && !SeenBefore(BooksAfter(turns[..n]), turns[n].o)
    ensures var t := turns[|turns| - 1];
      Complete(turns, Telling(mid, t.e, Flow(|turns| - 1, t.o, t.clock, t.e.q.found)))
  {
    hide SeenBefore, BooksAfter, Gathered, Telling;
    var n := |turns| - 1;
    var t := turns[n];
    var one := Flow(n, t.o, t.clock, t.e.q.found);
    TellingAll(mid, t.e, one);
    forall f
      ensures f in Gathered(told, told.Keys) + (if t.e.room then {one} else {}) <==> WasTold(turns, f)
    {
      ToldEarlier(turns, f);
    }
  }

  lemma NotToldYet(turns: seq<Turn>, told: Record, f: Flow)
    requires Complete(turns, told) && f.turn >= |turns|
    ensures f !in Gathered(told, told.Keys)
  {
  }

  lemma TookSeen(
    r: Rules, opts: TemplateOptions, caps: Caps, b: Books, a: Books, o: Observation, clock: int, e: Effect)
    requires Took(r, opts, caps, b, a, o, clock, e) && SeenBefore(b, o)
    ensures a.live == b.live
  {
  }

  /** Over every run: each live endpoint's profile is that of the flows told to it, itself or through the endpoints
      merged into it, and each flow that found room was told to exactly one live endpoint. */
  lemma {:induction false} ProfilesAreTheirHistories(
    r: Rules, opts: TemplateOptions, caps: Caps, turns: seq<Turn>)
    requires IsRun(r, opts, caps, turns)
    ensures var told := ToldBy(r.infer, turns);
      && AllTallied(r, caps, BooksAfter(turns).live, told) && Complete(turns, told)
  {
    hide Took, AllTallied, Regathered, Telling, SeenBefore, Complete, Gathered;
    if turns == [] {
      Nothing(r, caps);
    } else {
      var n := |turns| - 1;
      var told := ToldBy(r.infer, turns[..n]);
      ProfilesAreTheirHistories(r, opts, caps, turns[..n]);
      match turns[n]
      case Handing(_) => SameTold(turns, told);
      case Folding(o, clock, e, after) =>
        if SeenBefore(BooksAfter(turns[..n]), o) {
          TookSeen(r, opts, caps, BooksAfter(turns[..n]), after, o, clock, e);
          SameTold(turns, told);
        } else {
          NotToldYet(turns[..n], told, Flow(n, o, clock, e.q.found));
          TurnTallied(r, opts, caps, BooksAfter(turns[..n]), after, o, clock, e, told, n);
          MoreTold(turns, told, Regathered(r.infer, after.decisions, told, e.mid.Keys));
        }
    }
  }

  // ---- no scope learns from another ----

  /** Each endpoint was told flows of its own tenant, host and method only. */
  ghost predicate InScope(told: Record) {
    forall id, f: Flow {:trigger f in told[id]} | id in told && f in told[id] :: ScopeOf(id) == f.o.scope
  }

  lemma RegatheredInScope(infer: Infer, d: Decisions, told: Record, keys: set<EndpointID>)
    requires InScope(told)
    ensures InScope(Regathered(infer, d, told, keys))
  {
    var after := Regathered(infer, d, told, keys);
    forall k, f: Flow {:trigger f in after[k]} | k in after && f in after[k]
      ensures ScopeOf(k) == f.o.scope
    {
      var id :| id in Origins(infer, d, told.Keys, {}, k) && id in told && f in told[id];
      assert Retemplated(infer, d, id) == k;
    }
  }

  lemma DestinedInScope(
    infer: Infer, c: map<Prefix, ValueTypes.ValueType>, o: Observation, now: int, at: EndpointID, q: Sample)
    requires Destined(infer, c, o, now, at, q)
    ensures ScopeOf(at) == o.scope
  {
    hide Templated, PathFound, JoinTemplate, Segments;
    assert IsTemplated(infer, c, o.path, Templated(infer, c, Segments(o.path)));
  }

  lemma TellingInScope(told: Record, e: Effect, f: Flow)
    requires InScope(told) && ScopeOf(e.id) == f.o.scope
    ensures InScope(Telling(told, e, f))
  {
  }

  lemma TurnInScope(
    r: Rules, opts: TemplateOptions, caps: Caps, b: Books, a: Books, o: Observation, clock: int, e: Effect,
    told: Record, f: Flow)
    requires Took(r, opts, caps, b, a, o, clock, e) && !SeenBefore(b, o) && InScope(told) && f.o == o
    ensures InScope(Telling(Regathered(r.infer, a.decisions, told, e.mid.Keys), e, f))
  {
    hide *;
    TookMoves(r, opts, caps, b, a, o, clock, e);
    DestinedInScope(r.infer, a.decisions[o.scope], o, TimeOf(o, clock), e.id, e.q);
    RegatheredInScope(r.infer, a.decisions, told, e.mid.Keys);
    TellingInScope(Regathered(r.infer, a.decisions, told, e.mid.Keys), e, f);
  }

  lemma NothingInScope()
    ensures InScope(map[])
  {
  }

  /** Over every run no endpoint learns from another tenant, host or method. */
  lemma {:induction false} NeverCrossesScopes(r: Rules, opts: TemplateOptions, caps: Caps, turns: seq<Turn>)
    requires IsRun(r, opts, caps, turns)
    ensures InScope(ToldBy(r.infer, turns))
  {
    hide Took, Regathered, Telling, SeenBefore, InScope;
    if turns == [] {
      NothingInScope();
    } else {
      var n := |turns| - 1;
      NeverCrossesScopes(r, opts, caps, turns[..n]);
      match turns[n]
      case Handing(_) =>
      case Folding(o, clock, e, after) =>
        if !SeenBefore(BooksAfter(turns[..n]), o) {
          TurnInScope(r, opts, caps, BooksAfter(turns[..n]), after, o, clock, e, ToldBy(r.infer, turns[..n]),
                      Flow(n, o, clock, e.q.found));
        }
    }
  }

  /** Over every run: no live endpoint holds more than its caps allow or anything it was not told, and one that is
      not marked truncated holds everything it was told, itself or through the endpoints merged into it. */
  lemma NeverReadsComplete(r: Rules, opts: TemplateOptions, caps: Caps, turns: seq<Turn>, id: EndpointID)
    requires IsRun(r, opts, caps, turns) && id in BooksAfter(turns).live
    ensures var told := ToldBy(r.infer, turns);
      id in told && Truncation.Holds(caps, BooksAfter(turns).live[id], HeardOver(told[id]))
  {
    hide IsRun, Truncation.Holds, HeardOver, Separate, ToldBy, BooksAfter;
    ProfilesAreTheirHistories(r, opts, caps, turns);
    var told := ToldBy(r.infer, turns);
    assert Tallied(r, caps, BooksAfter(turns).live[id], told[id]);
  }
}
