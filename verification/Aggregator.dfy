/** Folding observations into endpoint profiles, and re-keying them when a template collapses. */
module Aggregating {
  import opened Paths
  import opened ValueTypes
  import opened Evidences
  import opened Collapsing
  import opened Templating
  import opened Scopes
  import opened Parameters
  import opened Profiles
  import opened Ledger
  import opened Remaking
  import opened Accounting

  method PathParams(norm: Prefix, raw: Prefix) returns (found: seq<Found>)
    ensures found == PathFound(norm, raw)
  {
    found := [];
    for i := 0 to |norm|
      invariant found == PathFound(norm[..i], raw)
    {
      assert norm[..i + 1][..i] == norm[..i];
      if !IsToken(norm[i]) || i >= |raw| {
        continue;
      }
      found := found + [Found(PathPosition(i + 1), raw[i])];
    }
    assert norm[..|norm|] == norm;
  }

  lemma PutAgain(live: Live, id: EndpointID, p: Profile, q: Profile)
    ensures live[id := p][id := q] == live[id := q]
  {
  }

  class Aggregator {
    const caps: Caps
    const rules: Rules
    const registry: Registry
    var endpoints: map<EndpointID, EndpointProfile>
    var byScope: map<Scope, set<EndpointID>>
    var tenantCount: map<string, nat>
    var hostCount: map<(string, string), nat>
    var dirty: set<EndpointID>
    var retired: set<EndpointID>
    var seen: map<string, int>
    var lastPrune: int
    var observed: nat
    var deduplicated: nat
    var capHits: nat
    var collapses: nat
    var retiredMerged: nat
    /** The live endpoints' profiles, and every profile object ever made. */
    ghost var live: Live
    ghost var owned: set<EndpointProfile>

    ghost predicate Tied()
      reads this`endpoints, this`live, this`owned, owned
    {
      && rules.cap == caps.enumValues && endpoints.Keys == live.Keys
      && forall id {:trigger endpoints[id]} | id in endpoints ::
           && endpoints[id] in owned && endpoints[id].id == id
           && endpoints[id].Valid(caps) && endpoints[id].shown == live[id]
    }

    /** The books: with `pending` observations not yet put anywhere, every one made is in a live
        profile or was refused by a cap; the counters and the index agree with what is live. */
    ghost predicate Booked(live: Live, pending: nat)
      reads this`tenantCount, this`hostCount, this`byScope, this`dirty, this`observed, this`capHits
    {
      && Total(live) + capHits + pending == observed
      && Counted(live.Keys, tenantCount, hostCount, caps)
      && Indexed(live.Keys, byScope)
      && dirty <= live.Keys
    }

    /** The live templates but those in `rest` are fixed points of what the engines have decided. */
    ghost predicate Fitting(rest: set<EndpointID>)
      reads this`live, registry, registry.owned, registry.stats
    {
      registry.Valid() && registry.infer == rules.infer && AllFixed(rules.infer, registry.decisions, live.Keys, rest)
    }

    ghost predicate Valid()
      reads this`endpoints, this`live, this`owned, owned, registry, registry.owned, registry.stats
      reads this`tenantCount, this`hostCount, this`byScope, this`dirty, this`observed, this`capHits
    {
      Tied() && Booked(live, 0) && Fitting({})
    }

    /** One observation is under way: all holds but that it is not yet in any profile. */
    ghost predicate Learning()
      reads this`endpoints, this`live, this`owned, owned, registry, registry.owned, registry.stats
      reads this`tenantCount, this`hostCount, this`byScope, this`dirty, this`observed, this`capHits
    {
      Tied() && Booked(live, 1) && Fitting({})
    }

    /** All it knows. */
    ghost function Standing(): Books
      reads this`live, this`dirty, this`retired, this`seen, this`lastPrune, this`observed, this`deduplicated
      reads this`capHits, this`collapses, registry`decisions, registry`views
    {
      Books(live, dirty, retired, seen, lastPrune, registry.decisions, registry.views, observed, deduplicated,
            capHits, collapses)
    }

    constructor (caps: Caps, topts: TemplateOptions, infer: Infer, secret: string -> bool)
      ensures Valid() && Standing() == NEW_BOOKS && owned == {}
      ensures fresh(registry) && fresh(registry.owned) && fresh(registry.stats)
      ensures this.caps == if caps.perTenant == 0 then DEFAULT_CAPS else caps
      ensures rules == Rules(infer, secret, this.caps.enumValues)
      ensures registry.opts == if topts.minSamples == 0 then DEFAULTS else topts
    {
      var chosen := if caps.perTenant == 0 then DEFAULT_CAPS else caps;
      this.caps, rules := chosen, Rules(infer, secret, chosen.enumValues);
      registry := new Registry(if topts.minSamples == 0 then DEFAULTS else topts, infer);
      endpoints, byScope, tenantCount, hostCount := map[], map[], map[], map[];
      dirty, retired, seen, lastPrune := {}, {}, map[], 0;
      observed, deduplicated, capHits, collapses, retiredMerged := 0, 0, 0, 0, 0;
      live, owned := map[], {};
    }

    // The methods that only put others together hide all function bodies; these lemmas say what they need of them.

    lemma Known(id: EndpointID)
      requires Tied()
      ensures id in live <==> id in endpoints
      ensures id in endpoints ==> endpoints[id] in owned
    {
    }

    lemma WasTied()
      requires Tied()
      ensures rules.cap == caps.enumValues && endpoints.Keys == live.Keys
      ensures forall id {:trigger endpoints[id]} | id in endpoints ::
        && endpoints[id] in owned && endpoints[id].id == id
        && endpoints[id].Valid(caps) && endpoints[id].shown == live[id]
    {
    }

    lemma IsTied()
      requires rules.cap == caps.enumValues && endpoints.Keys == live.Keys
      requires forall id {:trigger endpoints[id]} | id in endpoints ::
        && endpoints[id] in owned && endpoints[id].id == id
        && endpoints[id].Valid(caps) && endpoints[id].shown == live[id]
      ensures Tied()
    {
    }

    lemma Opens()
      requires Learning()
      ensures Tied() && Booked(live, 1) && registry.Valid() && registry.infer == rules.infer
      ensures AllFixed(rules.infer, registry.decisions, live.Keys, {})
    {
    }

    lemma AllFitting()
      requires Fitting({})
      ensures AllFixed(rules.infer, registry.decisions, live.Keys, {})
    {
    }

    lemma Opened()
      requires Tied() && Booked(live, 1) && Fitting({})
      ensures Learning()
    {
    }

    lemma Closes()
      requires Tied() && Booked(live, 0) && registry.Valid() && registry.infer == rules.infer
      requires AllFixed(rules.infer, registry.decisions, live.Keys, {})
      ensures Valid()
    {
    }

    /** Every live parameter's enumeration is one observing and merging can have built. */
    lemma LiveAreSound(id: EndpointID)
      requires Valid() && id in live
      ensures Sound(caps.enumValues, live[id].params)
    {
      assert endpoints[id].Valid(caps);
    }

    lemma RoomTells(id: EndpointID)
      requires Booked(live, 1)
      ensures Room(tenantCount, hostCount, caps, id) == HasRoom(caps, live.Keys, id)
    {
      CountersTell(live.Keys, tenantCount, hostCount, caps, id);
    }

    // ---- profiles ----

    /** Adds an empty profile. */
    method Create(id: EndpointID, at: int)
      requires Tied() && id !in endpoints
      modifies this`endpoints, this`live, this`owned
      ensures Tied() && live == old(live)[id := Blank(at)] && fresh(endpoints[id])
      ensures forall ep {:trigger ep in owned} | ep in owned :: ep in old(owned) || fresh(ep)
    {
      var ep := new EndpointProfile(id, at);
      owned := owned + {ep};
      endpoints, live := endpoints[id := ep], live[id := Blank(at)];
    }

    method Record(id: EndpointID, q: Sample)
      requires Tied() && id in endpoints
      modifies this`live, endpoints[id]
      ensures Tied() && id in live && live == old(live)[id := live[id]] && Told(rules, caps, old(live)[id], q, live[id])
    {
      hide *;
      WasTied();
      endpoints[id].Observe(rules, caps, q);
      live := live[id := endpoints[id].shown];
      IsTied();
      ToldIsTouched(rules, caps, old(live)[id], q, live[id]);
    }

    method Detach(id: EndpointID) returns (ep: EndpointProfile)
      requires Tied() && id in endpoints
      modifies this`endpoints, this`live
      ensures Tied() && live == old(live) - {id} && ep.Valid(caps) && ep.shown == old(live)[id] && ep in owned
      ensures forall x {:trigger endpoints[x]} | x in endpoints :: endpoints[x] != ep
    {
      hide Sound;
      ep := endpoints[id];
      endpoints, live := endpoints - {id}, live - {id};
    }

    method Rehome(ep: EndpointProfile, to: EndpointID)
      requires Tied() && to !in endpoints && ep in owned && ep.Valid(caps)
      requires forall x {:trigger endpoints[x]} | x in endpoints :: endpoints[x] != ep
      modifies this`endpoints, this`live, ep`id
      ensures Tied() && live == old(live)[to := ep.shown]
    {
      hide Sound;
      ep.id := to;
      endpoints, live := endpoints[to := ep], live[to := ep.shown];
    }

    method Rename(id: EndpointID, to: EndpointID)
      requires Tied() && id in endpoints && to !in endpoints
      modifies this`endpoints, this`live, owned`id
      ensures Tied() && Shifted(caps, old(live), live, id, to)
    {
      var ep := Detach(id);
      Rehome(ep, to);
    }

    method Absorb(ep: EndpointProfile, to: EndpointID)
      requires Tied() && to in endpoints && ep.Valid(caps) && endpoints[to] != ep
      modifies this`live, endpoints[to]
      ensures Tied() && to in live && live == old(live)[to := live[to]]
      ensures Merged(caps, live[to], old(live)[to], old(ep.shown))
    {
      hide *;
      WasTied();
      endpoints[to].MergeWith(ep, caps);
      live := live[to := endpoints[to].shown];
      IsTied();
    }

    method Fold(id: EndpointID, to: EndpointID)
      requires Tied() && id in endpoints && to in endpoints && id != to
      modifies this`endpoints, this`live, owned
      ensures Tied() && Shifted(caps, old(live), live, id, to)
    {
      var ep := Detach(id);
      Absorb(ep, to);
    }

    // ---- profiles and books ----

    method RebookMoved(id: EndpointID, to: EndpointID, ghost before: Live, ghost pending: nat)
      requires Booked(before, pending) && Shifted(caps, before, live, id, to) && ScopeOf(to) == ScopeOf(id)
      requires to !in before
      modifies this`byScope, this`dirty
      ensures Booked(live, pending) && dirty == old(dirty) - {id} + {to}
    {
      hide Shifted, Merged, Counted, Indexed, Total, Excluding, Including;
      MovedBooks(caps, before, live, byScope, tenantCount, hostCount, id, to);
      byScope := Including(Excluding(byScope, ScopeOf(id), id), ScopeOf(id), to);
      dirty := dirty - {id} + {to};
    }

    method RebookMerged(id: EndpointID, to: EndpointID, ghost before: Live, ghost pending: nat)
      requires Booked(before, pending) && Shifted(caps, before, live, id, to) && ScopeOf(to) == ScopeOf(id)
      requires to in before
      modifies this`byScope, this`tenantCount, this`hostCount, this`dirty
      ensures Booked(live, pending) && dirty == old(dirty) - {id} + {to}
    {
      hide Shifted, Merged, Counted, Indexed, Total, Excluding, OneFewer;
      MergedBooks(caps, before, live, byScope, tenantCount, hostCount, id, to);
      byScope := Excluding(byScope, ScopeOf(id), id);
      dirty := dirty - {id} + {to};
      tenantCount, hostCount := OneFewer(tenantCount, id.tenant), OneFewer(hostCount, HostOf(id));
    }

    method ShiftMerged(id: EndpointID, to: EndpointID, ghost pending: nat)
      requires Tied() && Booked(live, pending)
      requires id in endpoints && to in endpoints && id != to && ScopeOf(to) == ScopeOf(id)
      modifies this`endpoints, this`live, this`byScope, this`tenantCount, this`hostCount, this`dirty, owned
      ensures Tied() && Booked(live, pending) && Shifted(caps, old(live), live, id, to)
      ensures dirty == old(dirty) - {id} + {to}
    {
      hide *;
      ghost var before := live;
      Known(to);
      Fold(id, to);
      RebookMerged(id, to, before, pending);
    }

    method ShiftMoved(id: EndpointID, to: EndpointID, ghost pending: nat)
      requires Tied() && Booked(live, pending) && id in endpoints && to !in endpoints && ScopeOf(to) == ScopeOf(id)
      modifies this`endpoints, this`live, this`byScope, this`dirty, owned`id
      ensures Tied() && Booked(live, pending) && Shifted(caps, old(live), live, id, to)
      ensures dirty == old(dirty) - {id} + {to}
    {
      hide *;
      ghost var before := live;
      Known(to);
      Rename(id, to);
      RebookMoved(id, to, before, pending);
    }

    /** Retires an id in favour of the one its template has become: its profile goes there, in the same scope, and
        the books follow. */
    method Retire(id: EndpointID, to: EndpointID, ghost pending: nat)
      requires Tied() && Booked(live, pending) && id in endpoints && id != to && ScopeOf(to) == ScopeOf(id)
      modifies this`endpoints, this`live, this`byScope, this`tenantCount, this`hostCount, this`dirty, owned
      modifies this`retired, this`retiredMerged
      ensures Tied() && Booked(live, pending) && Shifted(caps, old(live), live, id, to)
      ensures dirty == old(dirty) - {id} + {to} && retired == old(retired) + {id}
    {
      hide *;
      retired, retiredMerged := retired + {id}, retiredMerged + 1;
      if to in endpoints {
        ShiftMerged(id, to, pending);
      } else {
        ShiftMoved(id, to, pending);
      }
    }

    // ---- after a collapse ----

    /** What an endpoint's template is under its scope's decisions now. */
    method Current(id: EndpointID) returns (to: EndpointID)
      requires registry.Valid() && registry.infer == rules.infer && ScopeOf(id) in registry.decisions
      ensures to == Retemplated(rules.infer, registry.decisions, id)
    {
      var template := registry.Renormalize(ScopeOf(id), id.template);
      to := id.(template := template);
    }

    method PassOne(
      sk: Scope, ghost pending: nat, ghost live0: Live, ghost dirty0: set<EndpointID>, ghost retired0: set<EndpointID>,
      ghost gone0: set<EndpointID>, rest0: set<EndpointID>)
      returns (rest: set<EndpointID>, ghost gone: set<EndpointID>)
      requires Tied() && Booked(live, pending)
      requires registry.Valid() && registry.infer == rules.infer && sk in registry.decisions && rest0 != {}
      requires Passing(caps, rules.infer, registry.decisions, sk, live0, dirty0, retired0,
                       live, dirty, retired, gone0, rest0)
      modifies this`endpoints, this`live, this`byScope, this`tenantCount, this`hostCount, this`dirty, owned
      modifies this`retired, this`retiredMerged
      ensures Tied() && Booked(live, pending) && rest < rest0
      ensures Passing(caps, rules.infer, registry.decisions, sk, live0, dirty0, retired0,
                      live, dirty, retired, gone, rest)
    {
      hide *;
      var id :| id in rest0;
      rest, gone := rest0 - {id}, gone0;
      PassStep(caps, rules.infer, registry.decisions, sk, live0, dirty0, retired0,
               live, dirty, retired, gone, rest0, id);
      Known(id);
      var to := Current(id);
      if to != id {
        gone := gone0 + {id};
        Retire(id, to, pending);
      }
    }

    method PassAll(
      sk: Scope, ghost pending: nat, ghost live0: Live, ghost dirty0: set<EndpointID>, ghost retired0: set<EndpointID>,
      ids: set<EndpointID>)
      returns (ghost gone: set<EndpointID>)
      requires Tied() && Booked(live, pending)
      requires registry.Valid() && registry.infer == rules.infer && sk in registry.decisions
      requires Passing(caps, rules.infer, registry.decisions, sk, live0, dirty0, retired0,
                       live, dirty, retired, {}, ids)
      modifies this`endpoints, this`live, this`byScope, this`tenantCount, this`hostCount, this`dirty, owned
      modifies this`retired, this`retiredMerged
      ensures Tied() && Booked(live, pending) && registry.Valid()
      ensures Passing(caps, rules.infer, registry.decisions, sk, live0, dirty0, retired0,
                      live, dirty, retired, gone, {})
    {
      hide *;
      var rest := ids;
      gone := {};
      while rest != {}
        invariant Tied() && Booked(live, pending)
        invariant Passing(caps, rules.infer, registry.decisions, sk, live0, dirty0, retired0,
                          live, dirty, retired, gone, rest)
      {
        rest, gone := PassOne(sk, pending, live0, dirty0, retired0, gone, rest);
      }
    }

    /** Replays every endpoint of a scope through its decisions, in any order, merging it into the
        template it falls under. `gone` are the ids this pass retires: none of them is live after it. What each
        template is left with is the merge of exactly the profiles whose templates became it. */
    method RenormalizeScope(sk: Scope, ghost pending: nat) returns (ghost gone: set<EndpointID>)
      requires Tied() && Booked(live, pending) && sk in registry.decisions
      requires Fitting(set id | id in live && ScopeOf(id) == sk)
      modifies this`endpoints, this`live, this`byScope, this`tenantCount, this`hostCount, this`dirty, owned
      modifies this`retired, this`retiredMerged
      ensures Tied() && Booked(live, pending) && Fitting({})
      ensures Retiring(old(live), old(dirty), old(retired), live, dirty, retired, gone)
      ensures NoneFixed(rules.infer, registry.decisions, gone) && gone !! live.Keys
      ensures Reordered(caps, rules.infer, registry.decisions, old(live), old(dirty), live, dirty, gone)
    {
      ghost var live0, dirty0, retired0 := live, dirty, retired;
      var ids := if sk in byScope then byScope[sk] else {};
      PassBegins(caps, rules.infer, registry.decisions, sk, live, byScope, dirty, retired, ids);
      gone := PassAll(sk, pending, live0, dirty0, retired0, ids);
      PassEnds(caps, rules.infer, registry.decisions, sk, live0, dirty0, retired0, live, dirty, retired, gone);
    }

    // ---- a request to its endpoint ----

    method EnterBook(id: EndpointID, at: int, ghost before: Live, ghost pending: nat)
      requires Booked(before, pending) && id !in before && live == before[id := Blank(at)]
      requires Room(tenantCount, hostCount, caps, id)
      modifies this`byScope, this`tenantCount, this`hostCount
      ensures Booked(live, pending)
    {
      EnterBooks(before, byScope, tenantCount, hostCount, caps, id, at);
      byScope := Including(byScope, ScopeOf(id), id);
      tenantCount := Bump(tenantCount, id.tenant, 1);
      hostCount := Bump(hostCount, HostOf(id), 1);
    }

    /** Adds a new endpoint where the caps leave room. */
    method Enter(id: EndpointID, at: int, ghost pending: nat)
      requires Tied() && Booked(live, pending) && id !in endpoints && Room(tenantCount, hostCount, caps, id)
      modifies this`endpoints, this`live, this`owned, this`byScope, this`tenantCount, this`hostCount
      ensures Tied() && Booked(live, pending) && live == old(live)[id := Blank(at)] && fresh(endpoints[id])
      ensures forall ep {:trigger ep in owned} | ep in owned :: ep in old(owned) || fresh(ep)
    {
      hide *;
      ghost var before := live;
      Known(id);
      Create(id, at);
      EnterBook(id, at, before, pending);
    }

    method TakeBook(id: EndpointID, ghost p: Profile, ghost before: Live, ghost pending: nat)
      requires Booked(before, pending + 1) && id in before
      requires live == before[id := p] && p.observations == before[id].observations + 1
      modifies this`dirty
      ensures Booked(live, pending) && dirty == old(dirty) + {id}
    {
      TakeBooks(before, id, p);
      dirty := dirty + {id};
    }

    /** Tells an endpoint of one request. */
    method Take(id: EndpointID, q: Sample, ghost pending: nat)
      requires Tied() && Booked(live, pending + 1) && id in endpoints
      modifies this`live, this`dirty, endpoints[id]
      ensures Tied() && Booked(live, pending) && dirty == old(dirty) + {id}
      ensures id in live && live == old(live)[id := live[id]] && Told(rules, caps, old(live)[id], q, live[id])
    {
      hide *;
      ghost var before := live;
      Known(id);
      Record(id, q);
      ToldCounts(rules, caps, before[id], q, live[id]);
      TakeBook(id, live[id], before, pending);
    }

    method PlaceNew(id: EndpointID, q: Sample)
      requires Tied() && Booked(live, 1) && id !in endpoints && Room(tenantCount, hostCount, caps, id)
      modifies this`endpoints, this`live, this`owned, this`byScope, this`tenantCount, this`hostCount, this`dirty
      ensures Tied() && Booked(live, 0) && dirty == old(dirty) + {id}
      ensures forall ep {:trigger ep in owned} | ep in owned :: ep in old(owned) || fresh(ep)
      ensures id in live && live == old(live)[id := live[id]] && Told(rules, caps, Blank(q.at), q, live[id])
    {
      hide *;
      ghost var before := live;
      Known(id);
      Enter(id, q.at, 1);
      Known(id);
      Take(id, q, 0);
      PutAgain(before, id, Blank(q.at), live[id]);
    }

    method Refuse()
      requires Booked(live, 1)
      modifies this`capHits
      ensures Booked(live, 0) && capHits == old(capHits) + 1
    {
      capHits := capHits + 1;
    }

    /** Gives a request to its endpoint, new or not, or counts it as refused. */
    method Place(id: EndpointID, q: Sample) returns (ghost room: bool)
      requires Tied() && Booked(live, 1)
      modifies this`endpoints, this`live, this`owned, this`byScope, this`tenantCount, this`hostCount, this`dirty
      modifies this`capHits, owned
      ensures Tied() && Booked(live, 0) && Placed(rules, caps, old(live), live, id, q, room)
      ensures forall ep {:trigger ep in owned} | ep in owned :: ep in old(owned) || fresh(ep)
      ensures room == (id in old(live) || HasRoom(caps, old(live).Keys, id))
      ensures dirty == if room then old(dirty) + {id} else old(dirty)
      ensures capHits == old(capHits) + if room then 0 else 1
    {
      hide *;
      ghost var before := live;
      Known(id);
      RoomTells(id);
      room := true;
      if id in endpoints {
        Take(id, q, 0);
        PlacedThere(rules, caps, before, live, id, q);
      } else if Room(tenantCount, hostCount, caps, id) {
        PlaceNew(id, q);
        PlacedThere(rules, caps, before, live, id, q);
      } else {
        Refuse();
        room := false;
        PlacedNowhere(rules, caps, live, id, q);
      }
    }

    // ---- one flow ----

    /** Shows a path to its scope's engine. */
    method Consult(sk: Scope, path: string) returns (norm: Prefix, collapsed: bool)
      requires Fitting({})
      modifies registry, registry.owned, registry.stats
      ensures Fitting(set id | id in live && ScopeOf(id) == sk) && (!collapsed ==> Fitting({}))
      ensures forall x {:trigger x in registry.owned} | x in registry.owned :: x in old(registry.owned) || fresh(x)
      ensures forall x {:trigger x in registry.stats} | x in registry.stats :: x in old(registry.stats) || fresh(x)
      ensures sk in registry.decisions && MapsTo(rules.infer, registry.decisions[sk], path, norm)
      ensures Taught(rules.infer, Effective(registry.opts), old(registry.decisions), old(registry.views),
                     registry.decisions, registry.views, sk, path, collapsed)
    {
      ghost var d := registry.decisions;
      norm, collapsed := registry.Normalize(sk, path);
      TemplatedMaps(rules.infer, registry.decisions[sk], path);
      OtherScopesFixed(rules.infer, d, registry.decisions, sk, live.Keys);
    }

    /** After a collapse, merges the scope's endpoints into the new template. */
    method MergeScope(sk: Scope, collapsed: bool) returns (ghost gone: set<EndpointID>)
      requires Tied() && Booked(live, 1) && sk in registry.decisions
      requires Fitting(set id | id in live && ScopeOf(id) == sk) && (!collapsed ==> Fitting({}))
      modifies this`endpoints, this`live, this`byScope, this`tenantCount, this`hostCount, this`dirty, owned
      modifies this`retired, this`retiredMerged, this`collapses
      ensures Learning() && Retiring(old(live), old(dirty), old(retired), live, dirty, retired, gone)
      ensures NoneFixed(rules.infer, registry.decisions, gone)
      ensures Reordered(caps, rules.infer, registry.decisions, old(live), old(dirty), live, dirty, gone)
      ensures collapses == old(collapses) + if collapsed then 1 else 0
      ensures !collapsed ==> live == old(live) && gone == {}
    {
      hide *;
      gone := {};
      RetiringNone(live, dirty, retired);
      NoneGone(rules.infer, registry.decisions);
      if !collapsed {
        AllFitting();
        NothingReordered(caps, rules.infer, registry.decisions, live, dirty);
      } else {
        collapses := collapses + 1;
        gone := RenormalizeScope(sk, 1);
      }
      Opened();
    }

    /** Shows a path to its scope's engine; when that collapses a position, the scope's endpoints
        are merged into the new template. */
    method Learn(sk: Scope, path: string)
      returns (norm: Prefix, ghost gone: set<EndpointID>, ghost collapsed: bool)
      requires Learning()
      modifies this`endpoints, this`live, this`byScope, this`tenantCount, this`hostCount, this`dirty, owned
      modifies this`retired, this`retiredMerged, this`collapses, registry, registry.owned, registry.stats
      ensures Learning()
      ensures forall x {:trigger x in registry.owned} | x in registry.owned :: x in old(registry.owned) || fresh(x)
      ensures forall x {:trigger x in registry.stats} | x in registry.stats :: x in old(registry.stats) || fresh(x)
      ensures sk in registry.decisions && MapsTo(rules.infer, registry.decisions[sk], path, norm)
      ensures Retiring(old(live), old(dirty), old(retired), live, dirty, retired, gone)
      ensures NoneFixed(rules.infer, registry.decisions, gone)
      ensures Taught(rules.infer, Effective(registry.opts), old(registry.decisions), old(registry.views),
                     registry.decisions, registry.views, sk, path, collapsed)
      ensures Reordered(caps, rules.infer, registry.decisions, old(live), old(dirty), live, dirty, gone)
      ensures collapses == old(collapses) + if collapsed then 1 else 0
      ensures !collapsed ==> live == old(live) && gone == {}
    {
      hide *;
      Opens();
      var did;
      norm, did := Consult(sk, path);
      collapsed := did;
      gone := MergeScope(sk, did);
    }

    /** The endpoint and the sample a normalized path stands for; its template is a fixed point. */
    method Address(o: Observation, now: int, norm: Prefix) returns (at: EndpointID, q: Sample)
      requires o.scope in registry.decisions && MapsTo(rules.infer, registry.decisions[o.scope], o.path, norm)
      ensures Destined(rules.infer, registry.decisions[o.scope], o, now, at, q)
      ensures Fixed(rules.infer, registry.decisions, at)
    {
      var raw := SplitPath(o.path);
      var found := PathParams(norm, raw);
      at := EndpointID(o.scope.tenant, o.scope.host, o.scope.verb, JoinTemplate(norm));
      q := o.sample.(at := now, found := found + o.sample.found);
      TemplateFixed(rules.infer, registry.decisions, o, now, at, q);
    }

    /** Gives the flow to its endpoint. */
    method Deliver(
      o: Observation, now: int, at: EndpointID, q: Sample, ghost live0: Live, ghost dirty0: set<EndpointID>,
      ghost retired0: set<EndpointID>, ghost gone: set<EndpointID>)
      returns (ghost room: bool)
      requires Learning() && o.scope in registry.decisions
      requires Destined(rules.infer, registry.decisions[o.scope], o, now, at, q)
      requires Fixed(rules.infer, registry.decisions, at)
      requires Retiring(live0, dirty0, retired0, live, dirty, retired, gone)
      requires NoneFixed(rules.infer, registry.decisions, gone)
      modifies this`endpoints, this`live, this`owned, this`byScope, this`tenantCount, this`hostCount, this`dirty
      modifies this`capHits, owned
      ensures Valid() && forall ep {:trigger ep in owned} | ep in owned :: ep in old(owned) || fresh(ep)
      ensures Folded(rules, caps, registry.decisions, o, now, at, q, room, gone, old(live), live)
      ensures Retiring(live0, dirty0, retired0, live, dirty, retired, gone)
      ensures room == (at in old(live) || HasRoom(caps, old(live).Keys, at))
      ensures dirty == if room then old(dirty) + {at} else old(dirty)
      ensures capHits == old(capHits) + if room then 0 else 1
    {
      hide *;
      ghost var mid, marked := live, dirty;
      Opens();
      room := Place(at, q);
      FoldedAccounts(live0, dirty0, retired0, mid, marked, retired, gone, rules, caps, registry.decisions, live,
                     o, now, at, q, room);
      Closes();
    }

    /** Gives the flow to the endpoint its path is mapped to, with its path parameters. */
    method Conclude(
      o: Observation, now: int, norm: Prefix, ghost live0: Live, ghost dirty0: set<EndpointID>,
      ghost retired0: set<EndpointID>, ghost gone: set<EndpointID>)
      returns (ghost id: EndpointID, ghost room: bool, ghost q: Sample)
      requires Learning() && o.scope in registry.decisions
      requires MapsTo(rules.infer, registry.decisions[o.scope], o.path, norm)
      requires Retiring(live0, dirty0, retired0, live, dirty, retired, gone)
      requires NoneFixed(rules.infer, registry.decisions, gone)
      modifies this`endpoints, this`live, this`owned, this`byScope, this`tenantCount, this`hostCount, this`dirty
      modifies this`capHits, owned
      ensures Valid() && forall ep {:trigger ep in owned} | ep in owned :: ep in old(owned) || fresh(ep)
      ensures Folded(rules, caps, registry.decisions, o, now, id, q, room, gone, old(live), live)
      ensures Retiring(live0, dirty0, retired0, live, dirty, retired, gone)
      ensures room == (id in old(live) || HasRoom(caps, old(live).Keys, id))
      ensures dirty == if room then old(dirty) + {id} else old(dirty)
      ensures capHits == old(capHits) + if room then 0 else 1
    {
      hide *;
      var at, sample := Address(o, now, norm);
      id, q := at, sample;
      room := Deliver(o, now, at, sample, live0, dirty0, retired0, gone);
    }

    /** Folds in a flow that was not seen before; `marked` is what was dirty before its endpoint was told. */
    method FoldIn(o: Observation, now: int) returns (ghost e: Effect, ghost marked: set<EndpointID>)
      requires Learning()
      modifies this`endpoints, this`live, this`owned, this`byScope, this`tenantCount, this`hostCount, this`dirty
      modifies this`retired, this`retiredMerged, this`collapses, this`capHits
      modifies owned, registry, registry.owned, registry.stats
      ensures Valid()
      ensures forall x {:trigger x in registry.owned} | x in registry.owned :: x in old(registry.owned) || fresh(x)
      ensures forall x {:trigger x in registry.stats} | x in registry.stats :: x in old(registry.stats) || fresh(x)
      ensures forall ep {:trigger ep in owned} | ep in owned :: ep in old(owned) || fresh(ep)
      ensures Taught(rules.infer, Effective(registry.opts), old(registry.decisions), old(registry.views),
                     registry.decisions, registry.views, o.scope, o.path, e.collapsed)
      ensures Reordered(caps, rules.infer, registry.decisions, old(live), old(dirty), e.mid, marked, e.gone)
      ensures o.scope in registry.decisions
      ensures Folded(rules, caps, registry.decisions, o, now, e.id, e.q, e.room, e.gone, e.mid, live)
      ensures Retiring(old(live), old(dirty), old(retired), live, dirty, retired, e.gone)
      ensures e.room == (e.id in e.mid || HasRoom(caps, e.mid.Keys, e.id))
      ensures dirty == if e.room then marked + {e.id} else marked
      ensures capHits == old(capHits) + if e.room then 0 else 1
      ensures collapses == old(collapses) + if e.collapsed then 1 else 0
      ensures !e.collapsed ==> e.mid == old(live) && e.gone == {}
    {
      hide *;
      var norm;
      ghost var gone, collapsed, id, room, q;
      norm, gone, collapsed := Learn(o.scope, o.path);
      ghost var mid := live;
      marked := dirty;
      id, room, q := Conclude(o, now, norm, old(live), old(dirty), old(retired), gone);
      e := Effect(collapsed, gone, mid, id, q, room);
    }

    // ---- flows seen before ----

    /** Forgets flow ids older than the time to live; looks only every quarter of it. */
    method PruneSeen(now: int)
      modifies this`seen, this`lastPrune
      ensures (seen, lastPrune) == Pruned(old(seen), old(lastPrune), now)
    {
      if now - lastPrune < SEEN_TTL / 4 {
        return;
      }
      lastPrune := now;
      var kept := seen;
      var rest := seen.Keys;
      while rest != {}
        invariant rest <= kept.Keys <= seen.Keys
        invariant forall id {:trigger kept[id]} | id in kept :: kept[id] == seen[id]
        invariant forall id {:trigger id in seen} | id in seen && now - seen[id] <= SEEN_TTL :: id in kept
        invariant forall id {:trigger kept[id]} | id in kept && id !in rest :: now - kept[id] <= SEEN_TTL
      {
        var id :| id in rest;
        rest := rest - {id};
        if now - seen[id] > SEEN_TTL {
          kept := kept - {id};
        }
      }
      assert kept == map id | id in seen && now - seen[id] <= SEEN_TTL :: seen[id];
      seen := kept;
    }

    method Count()
      requires Valid()
      modifies this`observed
      ensures Learning() && observed == old(observed) + 1
    {
      hide Tied, Fitting, Counted, Indexed, Total;
      observed := observed + 1;
    }

    lemma RemembersNew(seen: map<string, int>, last: int, flowID: string, now: int)
      ensures Remembered(seen, last, flowID, now)
           == if flowID == "" then (seen, last) else Pruned(seen[flowID := now], last, now)
    {
    }

    /** Remembers a flow id, if it has one, and counts the flow. */
    method Begin(flowID: string, now: int)
      requires Valid()
      modifies this`seen, this`lastPrune, this`observed
      ensures Learning() && observed == old(observed) + 1
      ensures (seen, lastPrune) == Remembered(old(seen), old(lastPrune), flowID, now)
    {
      hide *;
      RemembersNew(seen, lastPrune, flowID, now);
      if flowID != "" {
        seen := seen[flowID := now];
        PruneSeen(now);
      }
      Count();
    }

    lemma Stands()
      ensures Standing() == Books(live, dirty, retired, seen, lastPrune, registry.decisions, registry.views, observed,
                                  deduplicated, capHits, collapses)
    {
    }

    lemma SeenTells(o: Observation, clock: int)
      ensures SeenBefore(Standing(), o) == (o.flowID != "" && o.flowID in seen)
      ensures TimeOf(o, clock) == if o.seen == 0 then clock else o.seen
    {
    }

    /** Folds one flow in, unless it was before. */
    method Observe(o: Observation, clock: int) returns (ghost e: Effect)
      requires Valid()
      modifies this, owned, registry, registry.owned, registry.stats
      ensures Valid()
      ensures forall x {:trigger x in registry.owned} | x in registry.owned :: x in old(registry.owned) || fresh(x)
      ensures forall x {:trigger x in registry.stats} | x in registry.stats :: x in old(registry.stats) || fresh(x)
      ensures forall ep {:trigger ep in owned} | ep in owned :: ep in old(owned) || fresh(ep)
      ensures Took(rules, Effective(registry.opts), caps, old(Standing()), Standing(), o, clock, e)
      ensures Retiring(old(live), old(dirty), old(retired), live, dirty, retired, e.gone) && e.gone !! live.Keys
    {
      hide *;
      ghost var before := Standing();
      Stands();
      SeenTells(o, clock);
      var now := if o.seen == 0 then clock else o.seen;
      if o.flowID != "" && o.flowID in seen {
        RetiringNone(live, dirty, retired);
        assert {} !! live.Keys;
        e := Effect(false, {}, live, EndpointID("", "", "", ""), o.sample, false);
        deduplicated := deduplicated + 1;
        Stands();
        TookAgain(rules, Effective(registry.opts), caps, before, Standing(), o, clock, e);
      } else {
        Begin(o.flowID, now);
        ghost var marked;
        e, marked := FoldIn(o, now);
        Stands();
        FoldedApart(rules, caps, registry.decisions, o, now, e.id, e.q, e.room, e.gone, e.mid, live);
        RetiringRetires(old(live), old(dirty), old(retired), live, dirty, retired, e.gone);
        TookNew(rules, Effective(registry.opts), caps, before, Standing(), o, clock, e, marked);
      }
    }

    // ---- flushing ----

    lemma DirtyIsLive()
      requires Valid()
      ensures dirty <= live.Keys
    {
    }

    method Mark(dirty: set<EndpointID>, retired: set<EndpointID>)
      requires Valid() && dirty <= live.Keys
      modifies this`dirty, this`retired
      ensures Valid() && this.dirty == dirty && this.retired == retired
    {
      hide Tied, Fitting, Counted, Indexed, Total;
      this.dirty, this.retired := dirty, retired;
    }

    /** The dirty profiles. */
    method Pending() returns (work: seq<EndpointProfile>)
      requires Valid()
      ensures forall ep {:trigger ep in work} | ep in work ::
        ep.id in dirty && ep.id in endpoints && endpoints[ep.id] == ep && ep.shown == live[ep.id] && ep.Shows()
      ensures forall id {:trigger id in dirty} | id in dirty :: endpoints[id] in work
      ensures work == [] <==> dirty == {}
    {
      work := [];
      var rest := dirty;
      while rest != {}
        invariant rest <= dirty && (work == [] <==> rest == dirty)
        invariant forall ep {:trigger ep in work} | ep in work ::
          ep.id in dirty && ep.id in endpoints && endpoints[ep.id] == ep
        invariant forall id {:trigger id in dirty} | id in dirty && id !in rest :: endpoints[id] in work
      {
        var id :| id in rest;
        rest, work := rest - {id}, work + [endpoints[id]];
      }
    }

    /** Hands over everything dirty, and the retired ids; both sets start anew. */
    method Collect() returns (work: seq<EndpointProfile>, gone: set<EndpointID>)
      requires Valid()
      modifies this`dirty, this`retired
      ensures Valid() && dirty == {} && retired == {} && gone == old(retired)
      ensures forall ep {:trigger ep in work} | ep in work ::
        ep.id in old(dirty) && ep.id in endpoints && endpoints[ep.id] == ep && ep.shown == live[ep.id] && ep.Shows()
      ensures forall id {:trigger id in old(dirty)} | id in old(dirty) :: endpoints[id] in work
      ensures work == [] <==> old(dirty) == {}
    {
      hide *;
      work := Pending();
      gone := retired;
      Mark({}, {});
    }

    /** The ids among the work's that are live. */
    method StillLive(work: seq<EndpointProfile>) returns (ids: set<EndpointID>)
      requires Valid()
      ensures forall id :: id in ids <==> id in live && exists ep | ep in work :: ep.id == id
    {
      ids := {};
      for i := 0 to |work|
        invariant forall id :: id in ids <==> id in live && exists k | 0 <= k < i :: work[k].id == id
      {
        if work[i].id in endpoints {
          ids := ids + {work[i].id};
        }
      }
    }

    /** Takes back what a failed flush could not store. */
    method Requeue(work: seq<EndpointProfile>, gone: set<EndpointID>)
      requires Valid()
      modifies this`dirty, this`retired
      ensures Valid() && retired == old(retired) + gone
      ensures forall id :: id in dirty <==> id in old(dirty) || (id in live && exists ep | ep in work :: ep.id == id)
    {
      hide *;
      var more := StillLive(work);
      DirtyIsLive();
      Mark(dirty + more, retired + gone);
    }
  }
}
