/** The aggregator's books as values: what must balance, and what each step does to it. */
module Ledger {
  import opened Sets
  import opened Evidences
  import opened Parameters
  import opened Profiles
  import opened Templating
  import opened Scopes
  import opened Collapsing

  type Live = map<EndpointID, Profile>

  function ScopeOf(id: EndpointID): Scope {
    Scope(id.tenant, id.host, id.verb)
  }

  // ---- observations ----

  function Counts(live: Live): map<EndpointID, nat> {
    map id | id in live :: live[id].observations
  }

  ghost function Total(live: Live): nat {
    Sum(Counts(live))
  }

  lemma TotalRemove(live: Live, id: EndpointID)
    requires id in live
    ensures Total(live) == live[id].observations + Total(live - {id})
  {
    SumRemove(Counts(live), id);
    assert Counts(live) - {id} == Counts(live - {id});
  }

  lemma TotalPut(live: Live, id: EndpointID, p: Profile)
    ensures Total(live[id := p]) == p.observations + Total(live - {id})
  {
    TotalRemove(live[id := p], id);
    assert live[id := p] - {id} == live - {id};
  }

  // ---- how many live endpoints a tenant or a host has ----

  function OfTenant(live: set<EndpointID>, t: string): set<EndpointID> {
    set id | id in live && id.tenant == t
  }

  function OfHost(live: set<EndpointID>, h: (string, string)): set<EndpointID> {
    set id | id in live && (id.tenant, id.host) == h
  }

  ghost predicate TenantAt(live: set<EndpointID>, tenants: map<string, nat>, cap: int, t: string) {
    Get(tenants, t) == |OfTenant(live, t)| <= Cap(cap)
  }

  ghost predicate HostAt(live: set<EndpointID>, hosts: map<(string, string), nat>, cap: int, h: (string, string)) {
    Get(hosts, h) == |OfHost(live, h)| <= Cap(cap)
  }

  /** The counters are the numbers of live endpoints, and no cap is exceeded. */
  ghost predicate Counted(
    live: set<EndpointID>, tenants: map<string, nat>, hosts: map<(string, string), nat>, caps: Caps)
  {
    && (forall t {:trigger TenantAt(live, tenants, caps.perTenant, t)} :: TenantAt(live, tenants, caps.perTenant, t))
    && forall h {:trigger HostAt(live, hosts, caps.perHost, h)} :: HostAt(live, hosts, caps.perHost, h)
  }

  function HostOf(id: EndpointID): (string, string) {
    (id.tenant, id.host)
  }

  /** Room for one more under both caps. */
  predicate Room(tenants: map<string, nat>, hosts: map<(string, string), nat>, caps: Caps, id: EndpointID) {
    Get(tenants, id.tenant) < caps.perTenant && Get(hosts, HostOf(id)) < caps.perHost
  }

  /** Fewer live endpoints than either cap allows. */
  predicate HasRoom(caps: Caps, live: set<EndpointID>, id: EndpointID) {
    |OfTenant(live, id.tenant)| < caps.perTenant && |OfHost(live, HostOf(id))| < caps.perHost
  }

  /** Counting live endpoints and looking at the counters is the same. */
  lemma CountersTell(
    live: set<EndpointID>, tenants: map<string, nat>, hosts: map<(string, string), nat>, caps: Caps, id: EndpointID)
    requires Counted(live, tenants, hosts, caps)
    ensures Room(tenants, hosts, caps, id) == HasRoom(caps, live, id)
  {
    assert TenantAt(live, tenants, caps.perTenant, id.tenant) && HostAt(live, hosts, caps.perHost, HostOf(id));
  }

  lemma TenantsWith(live: set<EndpointID>, id: EndpointID, t: string)
    ensures |OfTenant(live + {id}, t)| == |OfTenant(live, t)| + if id !in live && id.tenant == t then 1 else 0
    ensures |OfTenant(live - {id}, t)| == |OfTenant(live, t)| - if id in live && id.tenant == t then 1 else 0
  {
    WithOne(OfTenant(live, t), id);
    assert OfTenant(live + {id}, t) == if id.tenant == t then OfTenant(live, t) + {id} else OfTenant(live, t);
    assert OfTenant(live - {id}, t) == if id.tenant == t then OfTenant(live, t) - {id} else OfTenant(live, t);
  }

  lemma HostsWith(live: set<EndpointID>, id: EndpointID, h: (string, string))
    ensures |OfHost(live + {id}, h)| == |OfHost(live, h)| + if id !in live && HostOf(id) == h then 1 else 0
    ensures |OfHost(live - {id}, h)| == |OfHost(live, h)| - if id in live && HostOf(id) == h then 1 else 0
  {
    WithOne(OfHost(live, h), id);
    assert OfHost(live + {id}, h) == if HostOf(id) == h then OfHost(live, h) + {id} else OfHost(live, h);
    assert OfHost(live - {id}, h) == if HostOf(id) == h then OfHost(live, h) - {id} else OfHost(live, h);
  }

  /** A new endpoint counts one more for its tenant and its host. */
  lemma CountNew(
    live: set<EndpointID>, tenants: map<string, nat>, hosts: map<(string, string), nat>, caps: Caps, id: EndpointID)
    requires Counted(live, tenants, hosts, caps) && id !in live && Room(tenants, hosts, caps, id)
    ensures Counted(live + {id}, Bump(tenants, id.tenant, 1), Bump(hosts, HostOf(id), 1), caps)
  {
    var now, ts, hs := live + {id}, Bump(tenants, id.tenant, 1), Bump(hosts, HostOf(id), 1);
    forall t {:trigger TenantAt(now, ts, caps.perTenant, t)}
      ensures TenantAt(now, ts, caps.perTenant, t)
    {
      assert TenantAt(live, tenants, caps.perTenant, t);
      TenantsWith(live, id, t);
    }
    forall h {:trigger HostAt(now, hs, caps.perHost, h)}
      ensures HostAt(now, hs, caps.perHost, h)
    {
      assert HostAt(live, hosts, caps.perHost, h);
      HostsWith(live, id, h);
    }
  }

  function OneFewer<K>(m: map<K, nat>, k: K): map<K, nat>
    requires Get(m, k) > 0
  {
    m[k := Get(m, k) - 1]
  }

  /** An endpoint merged away counts one less. */
  lemma CountGone(
    live: set<EndpointID>, tenants: map<string, nat>, hosts: map<(string, string), nat>, caps: Caps, id: EndpointID)
    requires Counted(live, tenants, hosts, caps) && id in live
    ensures Get(tenants, id.tenant) > 0 && Get(hosts, HostOf(id)) > 0
    ensures Counted(live - {id}, OneFewer(tenants, id.tenant), OneFewer(hosts, HostOf(id)), caps)
  {
    assert TenantAt(live, tenants, caps.perTenant, id.tenant) && HostAt(live, hosts, caps.perHost, HostOf(id));
    TenantsWith(live, id, id.tenant);
    HostsWith(live, id, HostOf(id));
    var now, ts, hs := live - {id}, OneFewer(tenants, id.tenant), OneFewer(hosts, HostOf(id));
    forall t {:trigger TenantAt(now, ts, caps.perTenant, t)}
      ensures TenantAt(now, ts, caps.perTenant, t)
    {
      assert TenantAt(live, tenants, caps.perTenant, t);
      TenantsWith(live, id, t);
    }
    forall h {:trigger HostAt(now, hs, caps.perHost, h)}
      ensures HostAt(now, hs, caps.perHost, h)
    {
      assert HostAt(live, hosts, caps.perHost, h);
      HostsWith(live, id, h);
    }
  }

  /** An endpoint that only changes its template counts as before. */
  lemma CountMoved(
    live: set<EndpointID>, tenants: map<string, nat>, hosts: map<(string, string), nat>, caps: Caps,
    id: EndpointID, to: EndpointID)
    requires Counted(live, tenants, hosts, caps) && id in live && to !in live
    requires id.tenant == to.tenant && id.host == to.host
    ensures Counted(live - {id} + {to}, tenants, hosts, caps)
  {
    var now := live - {id} + {to};
    forall t {:trigger TenantAt(now, tenants, caps.perTenant, t)}
      ensures TenantAt(now, tenants, caps.perTenant, t)
    {
      assert TenantAt(live, tenants, caps.perTenant, t);
      TenantsWith(live, id, t);
      TenantsWith(live - {id}, to, t);
    }
    forall h {:trigger HostAt(now, hosts, caps.perHost, h)}
      ensures HostAt(now, hosts, caps.perHost, h)
    {
      assert HostAt(live, hosts, caps.perHost, h);
      HostsWith(live, id, h);
      HostsWith(live - {id}, to, h);
    }
  }

  // ---- the index by scope ----

  predicate Listed(byScope: map<Scope, set<EndpointID>>, sk: Scope, id: EndpointID) {
    sk in byScope && id in byScope[sk]
  }

  /** Each scope lists exactly its live endpoints. */
  ghost predicate Indexed(live: set<EndpointID>, byScope: map<Scope, set<EndpointID>>) {
    forall sk, id {:trigger Listed(byScope, sk, id)} :: Listed(byScope, sk, id) <==> id in live && ScopeOf(id) == sk
  }

  function Including(byScope: map<Scope, set<EndpointID>>, sk: Scope, id: EndpointID): map<Scope, set<EndpointID>> {
    byScope[sk := (if sk in byScope then byScope[sk] else {}) + {id}]
  }

  function Excluding(byScope: map<Scope, set<EndpointID>>, sk: Scope, id: EndpointID): map<Scope, set<EndpointID>> {
    if sk in byScope then byScope[sk := byScope[sk] - {id}] else byScope
  }

  lemma IndexNew(live: set<EndpointID>, byScope: map<Scope, set<EndpointID>>, id: EndpointID)
    requires Indexed(live, byScope)
    ensures Indexed(live + {id}, Including(byScope, ScopeOf(id), id))
  {
    var now := Including(byScope, ScopeOf(id), id);
    forall sk, x {:trigger Listed(now, sk, x)}
      ensures Listed(now, sk, x) <==> x in live + {id} && ScopeOf(x) == sk
    {
      assert Listed(byScope, sk, x) <==> x in live && ScopeOf(x) == sk;
    }
  }

  lemma IndexGone(live: set<EndpointID>, byScope: map<Scope, set<EndpointID>>, id: EndpointID)
    requires Indexed(live, byScope)
    ensures Indexed(live - {id}, Excluding(byScope, ScopeOf(id), id))
  {
    var now := Excluding(byScope, ScopeOf(id), id);
    forall sk, x {:trigger Listed(now, sk, x)}
      ensures Listed(now, sk, x) <==> x in live - {id} && ScopeOf(x) == sk
    {
      assert Listed(byScope, sk, x) <==> x in live && ScopeOf(x) == sk;
    }
  }

  // ---- templates ----

  function Retemplated(infer: Infer, d: Decisions, id: EndpointID): EndpointID {
    id.(template := RenormalizedTemplate(infer, DecisionsOf(d, ScopeOf(id)), id.template))
  }

  ghost predicate Becomes(infer: Infer, d: Decisions, id: EndpointID, to: EndpointID) {
    to == Retemplated(infer, d, id)
  }

  /** Whatever id becomes under its scope's decisions is id itself: `Retemplated(infer, d, id) == id`, written as
      a quantifier so that the verifier does not unfold the path functions wherever an id is passed on. */
  ghost predicate Fixed(infer: Infer, d: Decisions, id: EndpointID) {
    forall to {:trigger Becomes(infer, d, id, to)} | Becomes(infer, d, id, to) :: to == id
  }

  /** Every live template is a fixed point of what its scope has decided, but for those in `rest`. */
  ghost predicate AllFixed(infer: Infer, d: Decisions, live: set<EndpointID>, rest: set<EndpointID>) {
    forall id {:trigger Fixed(infer, d, id)} | id in live && id !in rest :: Fixed(infer, d, id)
  }

  lemma RetemplatedIsFixed(infer: Infer, d: Decisions, id: EndpointID)
    ensures ScopeOf(Retemplated(infer, d, id)) == ScopeOf(id) && Fixed(infer, d, Retemplated(infer, d, id))
    ensures Fixed(infer, d, id) <==> Retemplated(infer, d, id) == id
  {
    RenormalizeTwice(infer, DecisionsOf(d, ScopeOf(id)), id.template);
    assert Becomes(infer, d, id, Retemplated(infer, d, id));
  }

  lemma FixedWithin(infer: Infer, d: Decisions, e: Decisions, id: EndpointID)
    requires Fixed(infer, d, id) && DecisionsOf(d, ScopeOf(id)) == DecisionsOf(e, ScopeOf(id))
    ensures Fixed(infer, e, id)
  {
    assert Becomes(infer, d, id, Retemplated(infer, d, id));
  }

  /** What one scope decides touches only the fixed points of that scope. */
  lemma OtherScopesFixed(infer: Infer, d: Decisions, e: Decisions, sk: Scope, live: set<EndpointID>)
    requires AllFixed(infer, d, live, {}) && sk in e && e == d[sk := e[sk]]
    ensures AllFixed(infer, e, live, set id | id in live && ScopeOf(id) == sk)
    ensures e[sk] == DecisionsOf(d, sk) ==> AllFixed(infer, e, live, {})
  {
    forall id {:trigger Fixed(infer, e, id)} | id in live && (ScopeOf(id) != sk || e[sk] == DecisionsOf(d, sk))
      ensures Fixed(infer, e, id)
    {
      assert Fixed(infer, d, id);
      FixedWithin(infer, d, e, id);
    }
  }
}
