/** What each step of the aggregator does to its books, as values. */
module Accounting {
  import opened Paths
  import opened ValueTypes
  import opened Evidences
  import opened Collapsing
  import opened Templating
  import opened Scopes
  import opened Parameters
  import opened Profiles
  import opened Ledger
  import opened Remaking

  /** One completed flow: its scope, its path and what its endpoint will be told. */
  datatype Observation = Observation(flowID: string, scope: Scope, path: string, seen: int, sample: Sample)

  // ---- moving a profile ----

  lemma MergedCounts(caps: Caps, m: Profile, a: Profile, b: Profile)
    requires Merged(caps, m, a, b)
    ensures m.observations == a.observations + b.observations
  {
  }

  lemma MovedTotal(before: Live, id: EndpointID, to: EndpointID)
    requires id in before && to !in before
    ensures Total((before - {id})[to := before[id]]) == Total(before)
  {
    TotalRemove(before, id);
    TotalPut(before - {id}, to, before[id]);
    assert before - {id} - {to} == before - {id};
  }

  lemma MergedTotal(before: Live, id: EndpointID, to: EndpointID, p: Profile)
    requires id in before && to in before && id != to
    requires p.observations == before[to].observations + before[id].observations
    ensures Total((before - {id})[to := p]) == Total(before)
  {
    TotalRemove(before, id);
    TotalRemove(before - {id}, to);
    TotalPut(before - {id}, to, p);
  }

  lemma MovedBooks(
    caps: Caps, before: Live, after: Live, byScope: map<Scope, set<EndpointID>>,
    tenants: map<string, nat>, hosts: map<(string, string), nat>, id: EndpointID, to: EndpointID)
    requires Shifted(caps, before, after, id, to) && to !in before && ScopeOf(to) == ScopeOf(id)
    requires Counted(before.Keys, tenants, hosts, caps) && Indexed(before.Keys, byScope)
    ensures Total(after) == Total(before) && Counted(after.Keys, tenants, hosts, caps)
    ensures Indexed(after.Keys, Including(Excluding(byScope, ScopeOf(id), id), ScopeOf(id), to))
    ensures after.Keys == before.Keys - {id} + {to}
  {
    hide Counted, Indexed, Total, Merged;
    MovedTotal(before, id, to);
    assert after.Keys == before.Keys - {id} + {to};
    CountMoved(before.Keys, tenants, hosts, caps, id, to);
    IndexGone(before.Keys, byScope, id);
    IndexNew(before.Keys - {id}, Excluding(byScope, ScopeOf(id), id), to);
  }

  lemma MergedBooks(
    caps: Caps, before: Live, after: Live, byScope: map<Scope, set<EndpointID>>,
    tenants: map<string, nat>, hosts: map<(string, string), nat>, id: EndpointID, to: EndpointID)
    requires Shifted(caps, before, after, id, to) && to in before && ScopeOf(to) == ScopeOf(id)
    requires Counted(before.Keys, tenants, hosts, caps) && Indexed(before.Keys, byScope)
    ensures Get(tenants, id.tenant) > 0 && Get(hosts, HostOf(id)) > 0
    ensures Total(after) == Total(before)
    ensures Counted(after.Keys, OneFewer(tenants, id.tenant), OneFewer(hosts, HostOf(id)), caps)
    ensures Indexed(after.Keys, Excluding(byScope, ScopeOf(id), id))
    ensures after.Keys == before.Keys - {id} && to in after
  {
    hide Counted, Indexed, Total, Merged;
    MergedCounts(caps, after[to], before[to], before[id]);
    MergedTotal(before, id, to, after[to]);
    assert after.Keys == before.Keys - {id};
    CountGone(before.Keys, tenants, hosts, caps, id);
    IndexGone(before.Keys, byScope, id);
  }

  // ---- a request put into a profile ----

  /** The request is at its endpoint, which is new unless it was live; or nothing changed. */
  ghost predicate Placed(
    r: Rules, caps: Caps, before: Live, after: Live, id: EndpointID, q: Sample, room: bool)
  {
    if room then
      && id in after && after == before[id := after[id]]
      && Told(r, caps, if id in before then before[id] else Blank(q.at), q, after[id])
    else after == before
  }

  lemma PlacedThere(r: Rules, caps: Caps, before: Live, after: Live, id: EndpointID, q: Sample)
    requires id in after && after == before[id := after[id]]
    requires Told(r, caps, if id in before then before[id] else Blank(q.at), q, after[id])
    ensures Placed(r, caps, before, after, id, q, true)
  {
  }

  lemma PlacedNowhere(r: Rules, caps: Caps, live: Live, id: EndpointID, q: Sample)
    ensures Placed(r, caps, live, live, id, q, false)
  {
  }

  lemma EnterBooks(
    live: Live, byScope: map<Scope, set<EndpointID>>, tenants: map<string, nat>,
    hosts: map<(string, string), nat>, caps: Caps, id: EndpointID, at: int)
    requires id !in live && Room(tenants, hosts, caps, id)
    requires Counted(live.Keys, tenants, hosts, caps) && Indexed(live.Keys, byScope)
    ensures var after := live[id := Blank(at)];
      && Counted(after.Keys, Bump(tenants, id.tenant, 1), Bump(hosts, HostOf(id), 1), caps)
      && Indexed(after.Keys, Including(byScope, ScopeOf(id), id))
      && Total(after) == Total(live)
  {
    var after := live[id := Blank(at)];
    assert after.Keys == live.Keys + {id};
    CountNew(live.Keys, tenants, hosts, caps, id);
    IndexNew(live.Keys, byScope, id);
    TotalPut(live, id, Blank(at));
    assert live - {id} == live;
  }

  lemma TakeBooks(live: Live, id: EndpointID, p: Profile)
    requires id in live && p.observations == live[id].observations + 1
    ensures Total(live[id := p]) == Total(live) + 1 && live[id := p].Keys == live.Keys
  {
    TotalPut(live, id, p);
    TotalRemove(live, id);
  }

  // ---- what the next collect has to hand over ----

  ghost predicate AccountedAt(
    live0: Live, dirty0: set<EndpointID>, live: Live, dirty: set<EndpointID>, retired: set<EndpointID>, id: EndpointID)
  {
    && (id in live && id !in dirty ==> id in live0 && id !in dirty0 && live[id] == live0[id])
    && (id in live0 && id !in live ==> id in retired)
  }

  /** Whatever changed between two collects is dirty if it is live and retired if it is not. */
  ghost predicate Accounted(
    live0: Live, dirty0: set<EndpointID>, retired0: set<EndpointID>,
    live: Live, dirty: set<EndpointID>, retired: set<EndpointID>)
  {
    && retired0 <= retired
    && forall id {:trigger AccountedAt(live0, dirty0, live, dirty, retired, id)} ::
         AccountedAt(live0, dirty0, live, dirty, retired, id)
  }

  lemma AccountedFrom(live: Live, dirty: set<EndpointID>, retired: set<EndpointID>)
    ensures Accounted(live, dirty, retired, live, dirty, retired)
  {
  }

  lemma AccountedShift(
    caps: Caps, live0: Live, dirty0: set<EndpointID>, retired0: set<EndpointID>,
    live: Live, dirty: set<EndpointID>, retired: set<EndpointID>, after: Live, id: EndpointID, to: EndpointID)
    requires Accounted(live0, dirty0, retired0, live, dirty, retired) && Shifted(caps, live, after, id, to)
    ensures Accounted(live0, dirty0, retired0, after, dirty - {id} + {to}, retired + {id})
  {
    hide Merged;
    forall x {:trigger AccountedAt(live0, dirty0, after, dirty - {id} + {to}, retired + {id}, x)}
      ensures AccountedAt(live0, dirty0, after, dirty - {id} + {to}, retired + {id}, x)
    {
      assert AccountedAt(live0, dirty0, live, dirty, retired, x);
    }
  }

  lemma AccountedPut(
    live0: Live, dirty0: set<EndpointID>, retired0: set<EndpointID>,
    live: Live, dirty: set<EndpointID>, retired: set<EndpointID>, id: EndpointID, p: Profile)
    requires Accounted(live0, dirty0, retired0, live, dirty, retired)
    ensures Accounted(live0, dirty0, retired0, live[id := p], dirty + {id}, retired)
  {
    forall x {:trigger AccountedAt(live0, dirty0, live[id := p], dirty + {id}, retired, x)}
      ensures AccountedAt(live0, dirty0, live[id := p], dirty + {id}, retired, x)
    {
      assert AccountedAt(live0, dirty0, live, dirty, retired, x);
    }
  }

  // ---- where a flow belongs ----

  /** The path parameters: positions the template turned into tokens, with the values they had. */
  function PathFound(norm: Prefix, raw: Prefix): seq<Found> {
    if norm == [] then []
    else
      var n := |norm| - 1;
      PathFound(norm[..n], raw)
      + if IsToken(norm[n]) && n < |raw| then [Found(PathPosition(n + 1), raw[n])] else []
  }

  /** The parameter of one position. */
  predicate FoundAt(norm: Prefix, raw: Prefix, f: Found, i: nat) {
    i < |norm| && i < |raw| && IsToken(norm[i]) && f == Found(PathPosition(i + 1), raw[i])
  }

  lemma FoundBefore(norm: Prefix, raw: Prefix, f: Found, n: nat, i: nat)
    requires n + 1 == |norm|
    ensures FoundAt(norm[..n], raw, f, i) <==> FoundAt(norm, raw, f, i) && i < n
  {
    if i < n {
      assert norm[..n][i] == norm[i];
    }
  }

  /** One parameter for each position whose segment is spelled like a token, and for no other; a segment the path
      itself spells that way counts as well. */
  lemma {:induction false} PathFoundExactly(norm: Prefix, raw: Prefix, f: Found)
    ensures f in PathFound(norm, raw) <==> exists i: nat :: FoundAt(norm, raw, f, i)
  {
    if norm != [] {
      var n := |norm| - 1;
      PathFoundExactly(norm[..n], raw, f);
      forall i: nat
        ensures FoundAt(norm[..n], raw, f, i) <==> FoundAt(norm, raw, f, i) && i < n
      {
        FoundBefore(norm, raw, f, n, i);
      }
      hide IsToken;
      var last := if IsToken(norm[n]) && n < |raw| then [Found(PathPosition(n + 1), raw[n])] else [];
      assert f in last <==> FoundAt(norm, raw, f, n);
      assert f in PathFound(norm, raw) <==> f in PathFound(norm[..n], raw) || f in last;
    }
  }

  ghost predicate IsTemplated(infer: Infer, c: map<Prefix, ValueType>, path: string, norm: Prefix) {
    norm == Templated(infer, c, Segments(path))
  }

  /** Under the decisions c the path is mapped to norm: `IsTemplated(infer, c, path, norm)`, written as a
      quantifier so that the verifier does not unfold the path functions wherever norm is passed on. */
  ghost predicate MapsTo(infer: Infer, c: map<Prefix, ValueType>, path: string, norm: Prefix) {
    forall n {:trigger IsTemplated(infer, c, path, n)} | IsTemplated(infer, c, path, n) :: n == norm
  }

  lemma TemplatedMaps(infer: Infer, c: map<Prefix, ValueType>, path: string)
    ensures MapsTo(infer, c, path, Templated(infer, c, Segments(path)))
  {
  }

  /** The endpoint a flow belongs to, and what that endpoint is told: its path parameters, then those of its
      query and body. A quantifier over the one template there is, for the same reason. */
  ghost predicate Destined(
    infer: Infer, c: map<Prefix, ValueType>, o: Observation, now: int, at: EndpointID, q: Sample)
  {
    forall n {:trigger IsTemplated(infer, c, o.path, n)} | IsTemplated(infer, c, o.path, n) ::
      && at == EndpointID(o.scope.tenant, o.scope.host, o.scope.verb, JoinTemplate(n))
      && q == o.sample.(at := now, found := PathFound(n, Segments(o.path)) + o.sample.found)
  }

  /** What an endpoint is told of a flow: when, the flow's own facts, the parameters of its path by position, and
      then those of its query and body as given. */
  lemma DestinedExactly(infer: Infer, c: map<Prefix, ValueType>, o: Observation, now: int, at: EndpointID, q: Sample)
    requires Destined(infer, c, o, now, at, q)
    ensures var raw := Segments(o.path); var norm := Templated(infer, c, raw); var n := |q.found| - |o.sample.found|;
      && at == EndpointID(o.scope.tenant, o.scope.host, o.scope.verb, JoinTemplate(norm))
      && q == o.sample.(at := now, found := q.found) && 0 <= n && q.found[n..] == o.sample.found
      && forall f :: f in q.found[..n] <==>
           exists i: nat :: i < |norm| && i < |raw| && IsToken(norm[i]) && f == Found(PathPosition(i + 1), raw[i])
  {
    hide Templated, PathFound, JoinTemplate, Segments, IsToken;
    var raw := Segments(o.path);
    var norm := Templated(infer, c, raw);
    assert IsTemplated(infer, c, o.path, norm);
    var n := |PathFound(norm, raw)|;
    assert q.found[..n] == PathFound(norm, raw);
    forall f
      ensures f in PathFound(norm, raw) <==>
        exists i: nat :: i < |norm| && i < |raw| && IsToken(norm[i]) && f == Found(PathPosition(i + 1), raw[i])
    {
      PathFoundExactly(norm, raw, f);
      if i: nat :| FoundAt(norm, raw, f, i) {
        assert IsToken(norm[i]) && f == Found(PathPosition(i + 1), raw[i]);
      }
      if i: nat :| i < |norm| && i < |raw| && IsToken(norm[i]) && f == Found(PathPosition(i + 1), raw[i]) {
        assert FoundAt(norm, raw, f, i);
      }
    }
  }

  lemma TemplateFixed(infer: Infer, d: Decisions, o: Observation, now: int, at: EndpointID, q: Sample)
    requires o.scope in d && Destined(infer, d[o.scope], o, now, at, q)
    ensures Fixed(infer, d, at)
  {
    assert IsTemplated(infer, d[o.scope], o.path, Templated(infer, d[o.scope], Segments(o.path)));
    NormalizedIsFixed(infer, d[o.scope], o.path);
    RetemplatedIsFixed(infer, d, at);
  }

  // ---- retired ids ----

  ghost predicate NoneFixed(infer: Infer, d: Decisions, gone: set<EndpointID>) {
    forall id {:trigger Fixed(infer, d, id)} | id in gone :: !Fixed(infer, d, id)
  }

  lemma NoneGone(infer: Infer, d: Decisions)
    ensures NoneFixed(infer, d, {})
  {
  }

  lemma GoneStaysGone(infer: Infer, d: Decisions, gone: set<EndpointID>, live: set<EndpointID>)
    requires NoneFixed(infer, d, gone) && AllFixed(infer, d, live, {})
    ensures gone !! live
  {
    forall id | id in live
      ensures id !in gone
    {
      assert Fixed(infer, d, id);
    }
  }

  // ---- one flow folded in ----

  /** The flow went to its endpoint under what is decided now, if there was room for it: `mid` is what was live
      before that, and the ids its collapses retired before it are not live. */
  ghost predicate Folded(
    r: Rules, caps: Caps, d: Decisions, o: Observation, now: int, id: EndpointID, q: Sample, room: bool,
    gone: set<EndpointID>, mid: Live, live: Live)
  {
    && o.scope in d && Destined(r.infer, d[o.scope], o, now, id, q)
    && Placed(r, caps, mid, live, id, q, room) && gone !! live.Keys
  }

  /** The ids in `gone` were retired, and what else changed is dirty. */
  ghost predicate Retiring(
    live0: Live, dirty0: set<EndpointID>, retired0: set<EndpointID>,
    live: Live, dirty: set<EndpointID>, retired: set<EndpointID>, gone: set<EndpointID>)
  {
    Accounted(live0, dirty0, retired0, live, dirty, retired) && retired == retired0 + gone
  }

  lemma RetiringNone(live: Live, dirty: set<EndpointID>, retired: set<EndpointID>)
    ensures Retiring(live, dirty, retired, live, dirty, retired, {})
  {
    assert retired + {} == retired;
  }

  lemma FoldedAccounts(
    live0: Live, dirty0: set<EndpointID>, retired0: set<EndpointID>, mid: Live, dirty: set<EndpointID>,
    retired: set<EndpointID>, gone: set<EndpointID>, r: Rules, caps: Caps, d: Decisions, live: Live,
    o: Observation, now: int, id: EndpointID, q: Sample, room: bool)
    requires Retiring(live0, dirty0, retired0, mid, dirty, retired, gone)
    requires AllFixed(r.infer, d, mid.Keys, {}) && NoneFixed(r.infer, d, gone)
    requires o.scope in d && Destined(r.infer, d[o.scope], o, now, id, q) && Fixed(r.infer, d, id)
    requires Placed(r, caps, mid, live, id, q, room)
    ensures Retiring(live0, dirty0, retired0, live, if room then dirty + {id} else dirty, retired, gone)
    ensures AllFixed(r.infer, d, live.Keys, {}) && Folded(r, caps, d, o, now, id, q, room, gone, mid, live)
  {
    assert live.Keys <= mid.Keys + {id};
    GoneStaysGone(r.infer, d, gone, live.Keys);
    if room {
      AccountedPut(live0, dirty0, retired0, mid, dirty, retired, id, live[id]);
    }
  }

  lemma FoldedApart(
    r: Rules, caps: Caps, d: Decisions, o: Observation, now: int, id: EndpointID, q: Sample, room: bool,
    gone: set<EndpointID>, mid: Live, live: Live)
    requires Folded(r, caps, d, o, now, id, q, room, gone, mid, live)
    ensures gone !! live.Keys
  {
  }

  lemma RetiringRetires(
    live0: Live, dirty0: set<EndpointID>, retired0: set<EndpointID>,
    live: Live, dirty: set<EndpointID>, retired: set<EndpointID>, gone: set<EndpointID>)
    requires Retiring(live0, dirty0, retired0, live, dirty, retired, gone)
    ensures retired == retired0 + gone
  {
  }

  // ---- a pass over a scope ----

  /** What one pass over a scope has done so far: `gone` are the ids it retired, `rest` those it has not looked
      at. */
  ghost predicate Passing(
    caps: Caps, infer: Infer, d: Decisions, sk: Scope, live0: Live, dirty0: set<EndpointID>,
    retired0: set<EndpointID>, live: Live, dirty: set<EndpointID>, retired: set<EndpointID>, gone: set<EndpointID>,
    rest: set<EndpointID>)
  {
    && Retiring(live0, dirty0, retired0, live, dirty, retired, gone)
    && AllFixed(infer, d, live.Keys, rest) && rest <= live.Keys && rest <= live0.Keys
    && (forall id {:trigger id in rest} | id in rest :: ScopeOf(id) == sk)
    && NoneFixed(infer, d, gone)
    && Remade(caps, infer, d, live0, live, rest)
    && gone == Leavers(infer, d, live0.Keys - rest) && dirty == Redirtied(infer, d, dirty0, gone)
  }

  lemma NoneLeave(infer: Infer, d: Decisions, live: Live, dirty: set<EndpointID>, rest: set<EndpointID>)
    requires AllFixed(infer, d, live.Keys, rest)
    ensures Leavers(infer, d, live.Keys - rest) == {} && Redirtied(infer, d, dirty, {}) == dirty
  {
    hide Retemplated, Fixed;
    forall id | id in live && id !in rest
      ensures Retemplated(infer, d, id) == id
    {
      assert Fixed(infer, d, id);
      RetemplatedIsFixed(infer, d, id);
    }
  }

  lemma PassBegins(
    caps: Caps, infer: Infer, d: Decisions, sk: Scope, live: Live, byScope: map<Scope, set<EndpointID>>,
    dirty: set<EndpointID>, retired: set<EndpointID>, rest: set<EndpointID>)
    requires Indexed(live.Keys, byScope) && rest == if sk in byScope then byScope[sk] else {}
    requires AllFixed(infer, d, live.Keys, set id | id in live && ScopeOf(id) == sk)
    ensures Passing(caps, infer, d, sk, live, dirty, retired, live, dirty, retired, {}, rest)
  {
    hide Retemplated, Fixed, Remade;
    AccountedFrom(live, dirty, retired);
    forall id
      ensures id in rest <==> id in live && ScopeOf(id) == sk
    {
      assert Ledger.Listed(byScope, sk, id) <==> id in rest;
    }
    assert rest == set id | id in live && ScopeOf(id) == sk;
    assert retired == retired + {};
    NothingRemade(caps, infer, d, live, rest);
    NoneLeave(infer, d, live, dirty, rest);
  }

  /** Looking at an id that is a fixed point. */
  lemma PassStay(
    caps: Caps, infer: Infer, d: Decisions, sk: Scope, live0: Live, dirty0: set<EndpointID>,
    retired0: set<EndpointID>, live: Live, dirty: set<EndpointID>, retired: set<EndpointID>, gone: set<EndpointID>,
    rest: set<EndpointID>, id: EndpointID)
    requires Passing(caps, infer, d, sk, live0, dirty0, retired0, live, dirty, retired, gone, rest) && id in rest
    requires Retemplated(infer, d, id) == id
    ensures Passing(caps, infer, d, sk, live0, dirty0, retired0, live, dirty, retired, gone, rest - {id})
  {
    hide Retemplated, Fixed, Remade, Leavers, Redirtied, Retiring;
    RetemplatedIsFixed(infer, d, id);
    RemadeStay(caps, infer, d, live0, live, rest, id);
    LeaveOne(infer, d, live0.Keys, rest, id);
  }

  lemma LeaversLeave(infer: Infer, d: Decisions, ids: set<EndpointID>)
    ensures Leavers(infer, d, Leavers(infer, d, ids)) == Leavers(infer, d, ids)
  {
    hide Retemplated;
  }

  /** An id that is no fixed point moves. */
  lemma PassMove(
    caps: Caps, infer: Infer, d: Decisions, sk: Scope, live0: Live, dirty0: set<EndpointID>,
    retired0: set<EndpointID>, live: Live, dirty: set<EndpointID>, retired: set<EndpointID>, gone: set<EndpointID>,
    rest: set<EndpointID>, id: EndpointID, to: EndpointID, after: Live)
    requires Passing(caps, infer, d, sk, live0, dirty0, retired0, live, dirty, retired, gone, rest) && id in rest
    requires to == Retemplated(infer, d, id) && Shifted(caps, live, after, id, to)
    ensures Passing(caps, infer, d, sk, live0, dirty0, retired0, after, dirty - {id} + {to}, retired + {id},
                    gone + {id}, rest - {id})
  {
    hide Retemplated, Fixed, Remade, Leavers, Redirtied, Accounted, Merged;
    RetemplatedIsFixed(infer, d, id);
    RetemplatedIsFixed(infer, d, to);
    RemadeMove(caps, infer, d, live0, live, after, rest, id, to);
    LeaveOne(infer, d, live0.Keys, rest, id);
    LeaversLeave(infer, d, live0.Keys - rest);
    DirtyOne(infer, d, dirty0, gone, id);
    AccountedShift(caps, live0, dirty0, retired0, live, dirty, retired, after, id, to);
    assert after.Keys == live.Keys - {id} + {to};
    assert retired0 + gone + {id} == retired0 + (gone + {id});
  }

  /** Looking at one more id: either it is a fixed point, or its evidence moves to one that is. */
  lemma PassStep(
    caps: Caps, infer: Infer, d: Decisions, sk: Scope, live0: Live, dirty0: set<EndpointID>,
    retired0: set<EndpointID>, live: Live, dirty: set<EndpointID>, retired: set<EndpointID>, gone: set<EndpointID>,
    rest: set<EndpointID>, id: EndpointID)
    requires Passing(caps, infer, d, sk, live0, dirty0, retired0, live, dirty, retired, gone, rest) && id in rest
    ensures var to := Retemplated(infer, d, id);
      && id in live && ScopeOf(id) == sk == ScopeOf(to)
      && (to == id ==> Passing(caps, infer, d, sk, live0, dirty0, retired0, live, dirty, retired, gone, rest - {id}))
      && (to != id ==>
            forall after {:trigger Shifted(caps, live, after, id, to)} | Shifted(caps, live, after, id, to) ::
            Passing(caps, infer, d, sk, live0, dirty0, retired0,
                    after, dirty - {id} + {to}, retired + {id}, gone + {id}, rest - {id}))
  {
    hide Retemplated, Fixed, Shifted;
    var to := Retemplated(infer, d, id);
    RetemplatedIsFixed(infer, d, id);
    if to == id {
      PassStay(caps, infer, d, sk, live0, dirty0, retired0, live, dirty, retired, gone, rest, id);
    } else {
      forall after {:trigger Shifted(caps, live, after, id, to)} | Shifted(caps, live, after, id, to)
        ensures Passing(caps, infer, d, sk, live0, dirty0, retired0,
                        after, dirty - {id} + {to}, retired + {id}, gone + {id}, rest - {id})
      {
        PassMove(caps, infer, d, sk, live0, dirty0, retired0, live, dirty, retired, gone, rest, id, to, after);
      }
    }
  }

  lemma PassEnds(
    caps: Caps, infer: Infer, d: Decisions, sk: Scope, live0: Live, dirty0: set<EndpointID>,
    retired0: set<EndpointID>, live: Live, dirty: set<EndpointID>, retired: set<EndpointID>, gone: set<EndpointID>)
    requires Passing(caps, infer, d, sk, live0, dirty0, retired0, live, dirty, retired, gone, {})
    ensures gone !! live.Keys && NoneFixed(infer, d, gone) && AllFixed(infer, d, live.Keys, {})
    ensures Retiring(live0, dirty0, retired0, live, dirty, retired, gone)
    ensures Reordered(caps, infer, d, live0, dirty0, live, dirty, gone)
  {
    hide Retemplated, Fixed, Remade, Redirtied, Leavers, Retiring;
    GoneStaysGone(infer, d, gone, live.Keys);
    assert live0.Keys - {} == live0.Keys;
  }

  // ---- flows seen before ----

  /** How long a flow id is remembered, in nanoseconds. */
  const SEEN_TTL := 7_200_000_000_000

  /** The flow ids still remembered, and when they were last looked through: only every quarter of the time to
      live, and then those older than it are forgotten. */
  function Pruned(seen: map<string, int>, last: int, now: int): (map<string, int>, int) {
    if now - last < SEEN_TTL / 4 then (seen, last)
    else (map id | id in seen && now - seen[id] <= SEEN_TTL :: seen[id], now)
  }

  /** A flow without an id is not remembered. */
  function Remembered(seen: map<string, int>, last: int, flowID: string, now: int): (map<string, int>, int) {
    if flowID == "" then (seen, last) else Pruned(seen[flowID := now], last, now)
  }

  /** No flow id younger than the time to live is forgotten, and none is added but the one at hand. */
  lemma RememberedKeeps(seen: map<string, int>, last: int, flowID: string, now: int)
    ensures var after := Remembered(seen, last, flowID, now).0;
      && after.Keys <= seen.Keys + {flowID} && (flowID != "" ==> flowID in after)
      && forall id | id in seen && id != flowID && now - seen[id] <= SEEN_TTL :: id in after
  {
    assert SEEN_TTL >= 0;
  }

  /** No remembered flow is older than the time to live was when they were last looked through. */
  ghost predicate Young(seen: map<string, int>, last: int) {
    forall id | id in seen :: last - seen[id] <= SEEN_TTL
  }

  /** While the clock does not run backwards this stays so, and after a flow with an id none is older than the time to
      live and a quarter. */
  lemma RememberedForgets(seen: map<string, int>, last: int, flowID: string, now: int)
    requires Young(seen, last) && last <= now
    ensures var (after, looked) := Remembered(seen, last, flowID, now);
      && Young(after, looked) && looked <= now
      && (flowID != "" ==> forall id | id in after :: now - after[id] <= SEEN_TTL + SEEN_TTL / 4)
      && forall id | id in after && id != flowID :: id in seen && after[id] == seen[id]
  {
  }

  // ---- one flow as a step of the books ----

  /** All the aggregator knows, as one value. */
  datatype Books = Books(
    live: Live, dirty: set<EndpointID>, retired: set<EndpointID>, seen: map<string, int>, lastPrune: int,
    decisions: Decisions, views: Views, observed: nat, deduplicated: nat, capHits: nat, collapses: nat)

  const NEW_BOOKS := Books(map[], {}, {}, map[], 0, map[], map[], 0, 0, 0, 0)

  /** What a flow sets off: whether its path decided a position, the ids that retires, what is live then, and the
      endpoint and the request the flow stands for, if there is room for it. */
  datatype Effect = Effect(
    collapsed: bool, gone: set<EndpointID>, mid: Live, id: EndpointID, q: Sample, room: bool)

  function TimeOf(o: Observation, clock: int): int {
    if o.seen == 0 then clock else o.seen
  }

  predicate SeenBefore(b: Books, o: Observation) {
    o.flowID != "" && o.flowID in b.seen
  }

  /** Folding a flow in: one seen before only counts; the path of any other is shown to its scope's engine, the
      live profiles move where the decisions send them now, and its endpoint is told, if it is live or the caps
      leave room for it. */
  ghost predicate Took(
    r: Rules, opts: TemplateOptions, caps: Caps, b: Books, a: Books, o: Observation, clock: int, e: Effect)
  {
    if SeenBefore(b, o) then a == b.(deduplicated := b.deduplicated + 1)
    else
      && Taught(r.infer, opts, b.decisions, b.views, a.decisions, a.views, o.scope, o.path, e.collapsed)
      && Remade(caps, r.infer, a.decisions, b.live, e.mid, {})
      && (!e.collapsed ==> e.mid == b.live && e.gone == {})
      && e.gone == Leavers(r.infer, a.decisions, b.live.Keys) && a.retired == b.retired + e.gone
      && Destined(r.infer, a.decisions[o.scope], o, TimeOf(o, clock), e.id, e.q)
      && e.room == (e.id in e.mid || HasRoom(caps, e.mid.Keys, e.id))
      && Placed(r, caps, e.mid, a.live, e.id, e.q, e.room)
      && a.dirty == Redirtied(r.infer, a.decisions, b.dirty, e.gone) + (if e.room then {e.id} else {})
      && (a.seen, a.lastPrune) == Remembered(b.seen, b.lastPrune, o.flowID, TimeOf(o, clock))
      && a.observed == b.observed + 1 && a.deduplicated == b.deduplicated
      && a.capHits == b.capHits + (if e.room then 0 else 1)
      && a.collapses == b.collapses + (if e.collapsed then 1 else 0)
  }

  lemma TookAgain(
    r: Rules, opts: TemplateOptions, caps: Caps, b: Books, a: Books, o: Observation, clock: int, e: Effect)
    requires SeenBefore(b, o) && a == b.(deduplicated := b.deduplicated + 1)
    ensures Took(r, opts, caps, b, a, o, clock, e)
  {
  }

  lemma TookNew(
    r: Rules, opts: TemplateOptions, caps: Caps, b: Books, a: Books, o: Observation, clock: int, e: Effect,
    marked: set<EndpointID>)
    requires !SeenBefore(b, o)
    requires Taught(r.infer, opts, b.decisions, b.views, a.decisions, a.views, o.scope, o.path, e.collapsed)
    requires Reordered(caps, r.infer, a.decisions, b.live, b.dirty, e.mid, marked, e.gone)
    requires !e.collapsed ==> e.mid == b.live && e.gone == {}
    requires a.retired == b.retired + e.gone && a.dirty == if e.room then marked + {e.id} else marked
    requires o.scope in a.decisions
    requires Folded(r, caps, a.decisions, o, TimeOf(o, clock), e.id, e.q, e.room, e.gone, e.mid, a.live)
    requires e.room == (e.id in e.mid || HasRoom(caps, e.mid.Keys, e.id))
    requires (a.seen, a.lastPrune) == Remembered(b.seen, b.lastPrune, o.flowID, TimeOf(o, clock))
    requires a.observed == b.observed + 1 && a.deduplicated == b.deduplicated
    requires a.capHits == b.capHits + if e.room then 0 else 1
    requires a.collapses == b.collapses + if e.collapsed then 1 else 0
    ensures Took(r, opts, caps, b, a, o, clock, e)
  {
    hide Remade, Leavers, Redirtied, Destined, Placed, HasRoom, Remembered, Learned;
  }

  /** What a flow not seen before does to the profiles and the engines. */
  lemma TookMoves(
    r: Rules, opts: TemplateOptions, caps: Caps, b: Books, a: Books, o: Observation, clock: int, e: Effect)
    requires Took(r, opts, caps, b, a, o, clock, e) && !SeenBefore(b, o)
    ensures Taught(r.infer, opts, b.decisions, b.views, a.decisions, a.views, o.scope, o.path, e.collapsed)
    ensures o.scope in a.decisions
    ensures Remade(caps, r.infer, a.decisions, b.live, e.mid, {}) && (!e.collapsed ==> e.mid == b.live)
    ensures e.gone == Leavers(r.infer, a.decisions, b.live.Keys) && a.retired == b.retired + e.gone
    ensures Destined(r.infer, a.decisions[o.scope], o, TimeOf(o, clock), e.id, e.q)
    ensures e.room == (e.id in e.mid || HasRoom(caps, e.mid.Keys, e.id))
    ensures Placed(r, caps, e.mid, a.live, e.id, e.q, e.room)
    ensures a.seen.Keys <= b.seen.Keys + {o.flowID}
  {
    hide Learned, Remade, Leavers, Redirtied, Destined, Placed, HasRoom, Remembered;
    RememberedKeeps(b.seen, b.lastPrune, o.flowID, TimeOf(o, clock));
  }

  /** A flow not seen before is refused exactly when its endpoint is new and its tenant or its host already has as many
      live endpoints as its cap allows. */
  lemma RefusedExactly(
    r: Rules, opts: TemplateOptions, caps: Caps, b: Books, a: Books, o: Observation, clock: int, e: Effect)
    requires Took(r, opts, caps, b, a, o, clock, e) && !SeenBefore(b, o)
    ensures a.capHits == b.capHits + 1 <==>
      && e.id !in e.mid
      && (|set id | id in e.mid && id.tenant == o.scope.tenant| >= caps.perTenant
          || |set id | id in e.mid && id.tenant == o.scope.tenant && id.host == o.scope.host| >= caps.perHost)
    ensures a.capHits == b.capHits + 1 ==> a.live == e.mid
  {
    hide Learned, Remade, Leavers, Redirtied, Remembered, Retemplated, Told, Templated, JoinTemplate, Segments;
    hide PathFound;
    TookMoves(r, opts, caps, b, a, o, clock, e);
    DestinedExactly(r.infer, a.decisions[o.scope], o, TimeOf(o, clock), e.id, e.q);
    assert OfTenant(e.mid.Keys, e.id.tenant) == set id | id in e.mid && id.tenant == o.scope.tenant;
    assert OfHost(e.mid.Keys, HostOf(e.id))
        == set id | id in e.mid && id.tenant == o.scope.tenant && id.host == o.scope.host;
  }
}
