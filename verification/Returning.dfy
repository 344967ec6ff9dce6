/** A run of the worker after which messages are acknowledged though the store lacks a live endpoint. */
module Returning {
  import opened Events
  import opened Paths
  import opened ValueTypes
  import opened Sets
  import opened Evidences
  import opened Collapsing
  import opened Deciding
  import opened Templating
  import opened Scopes
  import opened Parameters
  import opened Profiles
  import opened Ledger
  import opened Remaking
  import opened Accounting
  import opened Aggregating
  import opened Forgetting
  import opened Profilerd

  /** Two values decide a position; the profiler itself runs with DEFAULTS. */
  const BRISK := TemplateOptions(2, 8, 1, 0.9, 0.85, 4)

  /** The endpoint of a path or template of one segment. */
  function At(seg: string): EndpointID {
    EndpointID(SITE.tenant, SITE.host, SITE.verb, JoinTemplate([seg]))
  }

  /** A flow to a path of one segment. */
  function To(seg: string, flowID: string, q: Sample): Observation {
    Observation(flowID, SITE, JoinTemplate([seg]), 0, q)
  }

  predicate Literal(seg: string) {
    IsSegment(seg) && !IsToken(seg)
  }

  lemma AtDiffers(a: string, b: string)
    requires IsSegment(a) && IsSegment(b) && a != b
    ensures At(a) != At(b)
  {
    hide JoinTemplate;
    if JoinTemplate([a]) == JoinTemplate([b]) {
      SameTemplate([a], [b]);
    }
  }

  lemma TokenIsSegment(t: ValueType)
    ensures IsSegment(Token(t)) && IsToken(Token(t))
  {
    TokenThenParse(t);
  }

  // ---- one segment under one decision ----

  /** Where the root alone is decided. */
  function Only(t: ValueType): map<Prefix, ValueType> {
    map[ROOT := t]
  }

  /** A token stays and a literal becomes the token it matches. */
  lemma BecomesUnder(infer: Infer, d: Scopes.Decisions, t: ValueType, seg: string)
    requires DecisionsOf(d, SITE) == Only(t) && IsSegment(seg)
    ensures Retemplated(infer, d, At(seg))
         == At(if !IsToken(seg) && Matches(infer, seg, t) then Token(t) else seg)
  {
    hide JoinTemplate, Segments, Matches, IsToken;
    JoinThenSplit([seg]);
    assert [seg][..0] == [];
    assert Renormalized(infer, Only(t), []) == [];
    assert Renormalized(infer, Only(t), [seg])
        == [] + [if IsToken(seg) then seg else Step(infer, Only(t), [], seg)]
        == [if IsToken(seg) then seg else Step(infer, Only(t), [], seg)];
    assert ScopeOf(At(seg)) == SITE;
  }

  lemma MappedTo(infer: Infer, c: map<Prefix, ValueType>, o: Observation, now: int, at: EndpointID, q: Sample,
                 seg: string)
    requires Destined(infer, c, o, now, at, q) && o.scope == SITE && o.path == JoinTemplate([seg]) && IsSegment(seg)
    ensures at == At(Step(infer, c, ROOT, seg))
  {
    hide JoinTemplate, Segments, Step;
    JoinThenSplit([seg]);
    assert [seg][..0] == [] && Templated(infer, c, []) == [];
    assert Templated(infer, c, [seg]) == [] + [Step(infer, c, [], seg)] == [Step(infer, c, [], seg)];
    assert IsTemplated(infer, c, o.path, Templated(infer, c, Segments(o.path)));
  }

  // ---- what the engine learns ----

  lemma OneStays(infer: Infer, c: map<Prefix, ValueType>, seg: string, r: Option<ValueType>, t: Stage)
    requires Stepped(infer, BRISK, Stage(c, map[]), t, ROOT, seg, r)
    requires ROOT in c ==> !Matches(infer, seg, c[ROOT])
    ensures r == None && t == Stage(c, AtRoot(Seen(NOTHING, seg, infer(seg), 8)))
  {
    assert EvidenceAt(map[], ROOT) == NOTHING;
    assert Seen(NOTHING, seg, infer(seg), 8).count == 1;
  }

  lemma TwoDominate(x: string, y: string, t: ValueType)
    requires Promotable(t)
    ensures var ev := Seen(Seen(NOTHING, x, t, 8), y, t, 8);
      && ev.count == 2 && !ev.overflow && |ev.values| >= 1
      && forall u :: Dominates(ev, u, BRISK) <==> u == t
  {
    var one := Seen(NOTHING, x, t, 8);
    assert one == Evidence(1, map[x := 1], map[t := 1], false);
    assert |one.values| == 1;
    var ev := Seen(one, y, t, 8);
    assert ev.types == map[t := 2];
    assert y in ev.values;
  }

  lemma TwoDecide(x: string, y: string, t: ValueType, r: Option<ValueType>)
    requires Promotable(t) && IsDecision(Seen(Seen(NOTHING, x, t, 8), y, t, 8), BRISK, r)
    ensures r == Some(t)
  {
    hide Seen, Dominates;
    TwoDominate(x, y, t);
    var ev := Seen(Seen(NOTHING, x, t, 8), y, t, 8);
    assert Dominates(ev, t, BRISK);
  }

  lemma SecondDecides(
    infer: Infer, c: map<Prefix, ValueType>, x: string, y: string, t: ValueType, r: Option<ValueType>, next: Stage)
    requires Stepped(infer, BRISK, Stage(c, AtRoot(Seen(NOTHING, x, t, 8))), next, ROOT, y, r)
    requires infer(y) == t && Promotable(t) && c.Keys <= {ROOT}
    requires ROOT in c ==> !Matches(infer, y, c[ROOT])
    ensures r == Some(t) && next == Stage(Only(t), map[])
  {
    hide Seen, IsDecision, Rekeyed, Decided, Matches;
    var one := Seen(NOTHING, x, t, 8);
    var ev := Seen(one, y, t, 8);
    assert EvidenceAt(AtRoot(one), ROOT) == one;
    TwoDecide(x, y, t, r);
    assert AtRoot(one)[ROOT := ev] == AtRoot(ev);
    NothingBelowRoot(infer, c, t, next.decided);
    NothingLeft(infer, ev, t, next.view);
  }

  // ---- the books along the run ----

  /** What the run knows of the books: what the one scope has decided and is watching, which endpoints are live,
      and some of those that were retired and of the flows that were seen. */
  ghost predicate Stand(
    b: Books, c: map<Prefix, ValueType>, view: map<Prefix, Evidence>, keys: set<EndpointID>,
    gone: set<EndpointID>, seen: set<string>)
  {
    && DecisionsOf(b.decisions, SITE) == c && ViewOf(b.views, SITE) == view
    && b.live.Keys == keys && gone <= b.retired && b.seen.Keys <= seen
  }

  lemma FewHaveRoom(caps: Caps, live: set<EndpointID>, id: EndpointID)
    requires |live| < caps.perTenant && |live| < caps.perHost
    ensures HasRoom(caps, live, id)
  {
    Larger(OfTenant(live, id.tenant), live);
    Larger(OfHost(live, HostOf(id)), live);
  }

  lemma FirstLearns(
    infer: Infer, d0: Scopes.Decisions, v0: Views, d: Scopes.Decisions, v: Views, o: Observation, now: int, e: Effect,
    seg: string, c: map<Prefix, ValueType>)
    requires Taught(infer, BRISK, d0, v0, d, v, SITE, JoinTemplate([seg]), e.collapsed) && Literal(seg)
    requires Destined(infer, d[SITE], o, now, e.id, e.q) && o.scope == SITE && o.path == JoinTemplate([seg])
    requires DecisionsOf(d0, SITE) == c && ViewOf(v0, SITE) == map[]
    requires ROOT in c ==> !Matches(infer, seg, c[ROOT])
    ensures DecisionsOf(d, SITE) == c && ViewOf(v, SITE) == AtRoot(Seen(NOTHING, seg, infer(seg), 8))
    ensures !e.collapsed && e.id == At(seg)
  {
    hide Learned, Destined, JoinTemplate, Stepped, Matches, Seen, AtRoot;
    var q := LearnedOne(infer, BRISK, StageOf(d0, v0, SITE), seg, StageOf(d, v, SITE), e.collapsed);
    OneStays(infer, c, seg, q, StageOf(d, v, SITE));
    MappedTo(infer, d[SITE], o, now, e.id, e.q, seg);
  }

  lemma PlacedKeys(r: Rules, caps: Caps, before: Live, after: Live, id: EndpointID, q: Sample)
    requires Placed(r, caps, before, after, id, q, true)
    ensures after.Keys == before.Keys + {id}
  {
    hide Told;
  }

  /** The value is recorded and decides nothing: its path is a literal, whose endpoint is live then. */
  lemma FirstValue(
    r: Rules, caps: Caps, b: Books, a: Books, o: Observation, clock: int, e: Effect, seg: string,
    c: map<Prefix, ValueType>, keys: set<EndpointID>, gone: set<EndpointID>, seen: set<string>)
    requires Took(r, BRISK, caps, b, a, o, clock, e) && Stand(b, c, map[], keys, gone, seen)
    requires o == To(seg, o.flowID, o.sample) && Literal(seg) && o.flowID !in seen
    requires ROOT in c ==> !Matches(r.infer, seg, c[ROOT])
    requires |keys| < caps.perTenant && |keys| < caps.perHost
    ensures Stand(a, c, AtRoot(Seen(NOTHING, seg, r.infer(seg), 8)), keys + {At(seg)}, gone, seen + {o.flowID})
  {
    hide Took, Taught, Remade, Leavers, Destined, HasRoom, Placed, JoinTemplate, Matches, Literal, Seen, AtRoot;
    TookMoves(r, BRISK, caps, b, a, o, clock, e);
    FirstLearns(r.infer, b.decisions, b.views, a.decisions, a.views, o, TimeOf(o, clock), e, seg, c);
    FewHaveRoom(caps, e.mid.Keys, e.id);
    PlacedKeys(r, caps, e.mid, a.live, e.id, e.q);
  }

  /** Endpoints of tokens. */
  ghost predicate Tokens(ids: set<EndpointID>) {
    forall id {:trigger id in ids} | id in ids :: exists s | IsSegment(s) && IsToken(s) :: id == At(s)
  }

  /** What the pass leaves live when the root is decided. */
  lemma PassUnder(
    caps: Caps, infer: Infer, d: Scopes.Decisions, live0: Live, mid: Live, t: ValueType, seg: string,
    others: set<EndpointID>)
    requires Remade(caps, infer, d, live0, mid, {}) && DecisionsOf(d, SITE) == Only(t)
    requires live0.Keys == others + {At(seg)} && Literal(seg) && Matches(infer, seg, t)
    requires Tokens(others)
    ensures mid.Keys == others + {At(Token(t))}
    ensures Retemplated(infer, d, At(seg)) != At(seg)
  {
    hide Remade, Matches, IsToken, IsSegment, Retemplated, JoinTemplate;
    RemadeKeys(caps, infer, d, live0, mid);
    TokenIsSegment(t);
    BecomesUnder(infer, d, t, seg);
    AtDiffers(seg, Token(t));
    forall id | id in others
      ensures Retemplated(infer, d, id) == id
    {
      var s :| IsSegment(s) && IsToken(s) && id == At(s);
      BecomesUnder(infer, d, t, s);
    }
  }

  lemma MatchesOwn(infer: Infer, seg: string, t: ValueType)
    requires infer(seg) == t
    ensures Matches(infer, seg, t)
  {
  }

  /** The second value of its type decides the root: the first one's endpoint is retired, and the flow goes to the
      endpoint of the token. */
  lemma SecondValue(
    r: Rules, caps: Caps, b: Books, a: Books, o: Observation, clock: int, e: Effect, x: string, y: string,
    t: ValueType, c: map<Prefix, ValueType>, others: set<EndpointID>, gone: set<EndpointID>, seen: set<string>)
    requires Took(r, BRISK, caps, b, a, o, clock, e)
    requires Stand(b, c, AtRoot(Seen(NOTHING, x, t, 8)), others + {At(x)}, gone, seen)
    requires o == To(y, o.flowID, o.sample) && Literal(x) && Literal(y) && o.flowID !in seen
    requires r.infer(x) == t == r.infer(y) && Promotable(t) && c.Keys <= {ROOT}
    requires ROOT in c ==> !Matches(r.infer, y, c[ROOT])
    requires Tokens(others)
    ensures Stand(a, Only(t), map[], others + {At(Token(t))}, gone + {At(x)}, seen + {o.flowID})
  {
    hide Took, Learned, Remade, Destined, HasRoom, JoinTemplate, Stepped, Matches, IsToken, Seen, IsSegment, Told,
      Retemplated, Promotable;
    MatchesOwn(r.infer, x, t);
    MatchesOwn(r.infer, y, t);
    TookMoves(r, BRISK, caps, b, a, o, clock, e);
    var q := LearnedOne(r.infer, BRISK, StageOf(b.decisions, b.views, SITE), y,
                        StageOf(a.decisions, a.views, SITE), e.collapsed);
    SecondDecides(r.infer, c, x, y, t, q, StageOf(a.decisions, a.views, SITE));
    MappedTo(r.infer, a.decisions[SITE], o, TimeOf(o, clock), e.id, e.q, y);
    PassUnder(caps, r.infer, a.decisions, b.live, e.mid, t, x, others);
    assert At(x) in e.gone;
    assert e.room;
  }

  // ---- the run ----

  /** A worker over an aggregator with these thresholds, from which no flush has taken a live row. */
  ghost predicate Runs(w: Worker, infer: Infer)
    reads w, w.agg, w.agg.owned, w.agg.registry, w.agg.registry.owned, w.agg.registry.stats, w.store
  {
    && w.Valid() && w.missing == {} && Effective(w.agg.registry.opts) == BRISK
    && w.agg.caps == DEFAULT_CAPS && w.agg.rules.infer == infer
  }

  lemma RunsParts(w: Worker, infer: Infer)
    ensures Runs(w, infer) <==>
      && w.Valid() && w.missing == {} && Effective(w.agg.registry.opts) == BRISK
      && w.agg.caps == DEFAULT_CAPS && w.agg.rules.infer == infer
  {
  }

  lemma SomeRoom()
    ensures DEFAULT_CAPS.perTenant > 5 && DEFAULT_CAPS.perHost > 5
  {
  }

  lemma ToIs(seg: string, flowID: string, q: Sample)
    ensures To(seg, flowID, q).flowID == flowID && To(seg, flowID, q).sample == q
  {
  }

  method SeeFirst(
    w: Worker, infer: Infer, seg: string, flowID: string, q: Sample, clock: int, ghost c: map<Prefix, ValueType>,
    ghost keys: set<EndpointID>, ghost gone: set<EndpointID>, ghost seen: set<string>)
    requires Runs(w, infer) && Stand(w.agg.Standing(), c, map[], keys, gone, seen)
    requires Literal(seg) && flowID !in seen && |keys| <= 5 && (ROOT in c ==> !Matches(infer, seg, c[ROOT]))
    modifies w, w.agg, w.agg.owned, w.agg.registry, w.agg.registry.owned, w.agg.registry.stats
    ensures forall x {:trigger x in w.agg.registry.owned} | x in w.agg.registry.owned ::
      x in old(w.agg.registry.owned) || fresh(x)
    ensures forall x {:trigger x in w.agg.registry.stats} | x in w.agg.registry.stats ::
      x in old(w.agg.registry.stats) || fresh(x)
    ensures forall ep {:trigger ep in w.agg.owned} | ep in w.agg.owned :: ep in old(w.agg.owned) || fresh(ep)
    ensures Runs(w, infer)
    ensures Stand(w.agg.Standing(), c, AtRoot(Seen(NOTHING, seg, infer(seg), 8)), keys + {At(seg)}, gone,
                  seen + {flowID})
  {
    hide *;
    RunsParts(w, infer);
    SomeRoom();
    ToIs(seg, flowID, q);
    ghost var b := w.agg.Standing();
    ghost var e := w.Observe(0, true, To(seg, flowID, q), clock);
    FirstValue(w.agg.rules, w.agg.caps, b, w.agg.Standing(), To(seg, flowID, q), clock, e, seg, c, keys, gone, seen);
    RunsParts(w, infer);
  }

  method SeeSecond(
    w: Worker, infer: Infer, x: string, y: string, t: ValueType, flowID: string, q: Sample, clock: int,
    ghost c: map<Prefix, ValueType>, ghost others: set<EndpointID>, ghost gone: set<EndpointID>,
    ghost seen: set<string>)
    requires Runs(w, infer)
    requires Stand(w.agg.Standing(), c, AtRoot(Seen(NOTHING, x, t, 8)), others + {At(x)}, gone, seen)
    requires Literal(x) && Literal(y) && flowID !in seen && infer(x) == t == infer(y) && Promotable(t)
    requires c.Keys <= {ROOT} && (ROOT in c ==> !Matches(infer, y, c[ROOT]))
    requires Tokens(others)
    modifies w, w.agg, w.agg.owned, w.agg.registry, w.agg.registry.owned, w.agg.registry.stats
    ensures forall x {:trigger x in w.agg.registry.owned} | x in w.agg.registry.owned ::
      x in old(w.agg.registry.owned) || fresh(x)
    ensures forall x {:trigger x in w.agg.registry.stats} | x in w.agg.registry.stats ::
      x in old(w.agg.registry.stats) || fresh(x)
    ensures forall ep {:trigger ep in w.agg.owned} | ep in w.agg.owned :: ep in old(w.agg.owned) || fresh(ep)
    ensures Runs(w, infer)
    ensures Stand(w.agg.Standing(), Only(t), map[], others + {At(Token(t))}, gone + {At(x)}, seen + {flowID})
  {
    hide *;
    RunsParts(w, infer);
    ToIs(y, flowID, q);
    ghost var b := w.agg.Standing();
    ghost var e := w.Observe(0, true, To(y, flowID, q), clock);
    SecondValue(w.agg.rules, w.agg.caps, b, w.agg.Standing(), To(y, flowID, q), clock, e, x, y, t, c, others, gone,
                seen);
    RunsParts(w, infer);
  }

  method Start(infer: Infer, secret: string -> bool) returns (w: Worker)
    ensures fresh(w) && fresh(w.agg) && fresh(w.agg.owned) && fresh(w.store)
    ensures fresh(w.agg.registry) && fresh(w.agg.registry.owned) && fresh(w.agg.registry.stats)
    ensures Runs(w, infer) && Stand(w.agg.Standing(), map[], map[], {}, {}, {})
  {
    var agg := new Aggregator(DEFAULT_CAPS, BRISK, infer, secret);
    assert agg.Standing().live == map[];
    var store := new Store();
    w := new Worker(agg, store);
  }

  /** Five flow ids. */
  const ONE := "1"
  const TWO := "2"
  const THREE := "3"
  const FOUR := "4"
  const FIVE := "5"

  /** Two values of one type, the second of which decides the position and retires the first one's endpoint. */
  method SeeTwo(
    w: Worker, infer: Infer, x: string, y: string, t: ValueType, first: string, second: string, q: Sample,
    clock: int, ghost c: map<Prefix, ValueType>, ghost others: set<EndpointID>, ghost gone: set<EndpointID>,
    ghost seen: set<string>)
    requires Runs(w, infer) && Stand(w.agg.Standing(), c, map[], others, gone, seen)
    requires Literal(x) && Literal(y) && infer(x) == t == infer(y) && Promotable(t)
    requires first !in seen && second !in seen + {first} && |others| <= 5 && Tokens(others)
    requires c.Keys <= {ROOT} && (ROOT in c ==> !Matches(infer, x, c[ROOT]) && !Matches(infer, y, c[ROOT]))
    modifies w, w.agg, w.agg.owned, w.agg.registry, w.agg.registry.owned, w.agg.registry.stats
    ensures forall x {:trigger x in w.agg.registry.owned} | x in w.agg.registry.owned ::
      x in old(w.agg.registry.owned) || fresh(x)
    ensures forall x {:trigger x in w.agg.registry.stats} | x in w.agg.registry.stats ::
      x in old(w.agg.registry.stats) || fresh(x)
    ensures forall ep {:trigger ep in w.agg.owned} | ep in w.agg.owned :: ep in old(w.agg.owned) || fresh(ep)
    ensures Runs(w, infer)
    ensures Stand(w.agg.Standing(), Only(t), map[], others + {At(Token(t))}, gone + {At(x)}, seen + {first} + {second})
  {
    hide *;
    SeeFirst(w, infer, x, first, q, clock, c, others, gone, seen);
    SeeSecond(w, infer, x, y, t, second, q, clock, c, others, gone, seen + {first});
  }

  lemma RunFacts(infer: Infer, x: string, u: string)
    requires infer(x) == Int && infer(u) == UUID
    ensures Promotable(Int) && Promotable(UUID) && Only(Int).Keys <= {ROOT} && Only(UUID).Keys <= {ROOT}
    ensures Only(Int)[ROOT] == Int && Only(UUID)[ROOT] == UUID
    ensures !Matches(infer, u, Int) && !Matches(infer, x, UUID)
  {
  }

  lemma StandsThere(
    agg: Aggregator, c: map<Prefix, ValueType>, view: map<Prefix, Evidence>, keys: set<EndpointID>,
    gone: set<EndpointID>, seen: set<string>, id: EndpointID)
    requires Stand(agg.Standing(), c, view, keys, gone, seen) && id in keys && id in gone
    ensures id in agg.live && id in agg.retired
  {
  }

  /** The endpoints live after none, two and four flows, those retired by then, and the ids of these flows. */
  ghost function Keys(n: nat): set<EndpointID> {
    if n == 0 then {} else if n == 2 then {At(Token(Int))} else {At(Token(Int)), At(Token(UUID))}
  }

  ghost function Gone(n: nat, x: string, u: string): set<EndpointID> {
    if n == 0 then {} else if n == 2 then {At(x)} else {At(x), At(u)}
  }

  ghost function Flows(n: nat): set<string> {
    if n == 0 then {} else if n == 2 then {ONE, TWO} else {ONE, TWO, THREE, FOUR}
  }

  lemma KeysFacts()
    ensures Keys(2) == Keys(0) + {At(Token(Int))} && Keys(4) == Keys(2) + {At(Token(UUID))}
    ensures Tokens(Keys(0)) && Tokens(Keys(2)) && |Keys(0)| <= 5 && |Keys(2)| <= 5 && |Keys(4)| <= 5
  {
    hide Token, IsToken, IsSegment, JoinTemplate;
    TokenIsSegment(Int);
    assert |Keys(2)| == 1 && |Keys(4)| <= 2;
  }

  lemma GoneFacts(x: string, u: string)
    ensures Gone(2, x, u) == Gone(0, x, u) + {At(x)} && Gone(4, x, u) == Gone(2, x, u) + {At(u)}
    ensures At(x) in Gone(4, x, u)
  {
  }

  lemma FlowFacts()
    ensures Flows(2) == Flows(0) + {ONE} + {TWO} && Flows(4) == Flows(2) + {THREE} + {FOUR}
    ensures ONE !in Flows(0) && TWO !in Flows(0) + {ONE} && THREE !in Flows(2) && FOUR !in Flows(2) + {THREE}
    ensures FIVE !in Flows(4)
  {
  }

  /** The scope has decided nothing. */
  function Nothing(): map<Prefix, ValueType> {
    map[]
  }

  lemma NothingIs()
    ensures Nothing() == map[] && Nothing().Keys <= {ROOT} && ROOT !in Nothing() && Promotable(Int)
    ensures Keys(0) == {} && Flows(0) == {} && forall x, u :: Gone(0, x, u) == {}
  {
  }

  method Begin(infer: Infer, secret: string -> bool, ghost x: string, ghost u: string) returns (w: Worker)
    ensures fresh(w) && fresh(w.agg) && fresh(w.agg.owned) && fresh(w.store)
    ensures fresh(w.agg.registry) && fresh(w.agg.registry.owned) && fresh(w.agg.registry.stats)
    ensures Runs(w, infer) && Stand(w.agg.Standing(), Nothing(), map[], Keys(0), Gone(0, x, u), Flows(0))
  {
    hide *;
    NothingIs();
    w := Start(infer, secret);
  }

  method TwoFlows(infer: Infer, secret: string -> bool, x: string, y: string, q: Sample, clock: int, ghost u: string)
    returns (w: Worker)
    requires Literal(x) && Literal(y) && infer(x) == Int == infer(y)
    ensures fresh(w) && fresh(w.agg) && fresh(w.agg.owned) && fresh(w.store)
    ensures fresh(w.agg.registry) && fresh(w.agg.registry.owned) && fresh(w.agg.registry.stats)
    ensures Runs(w, infer) && Stand(w.agg.Standing(), Only(Int), map[], Keys(2), Gone(2, x, u), Flows(2))
  {
    hide *;
    NothingIs();
    KeysFacts();
    GoneFacts(x, u);
    FlowFacts();
    w := Begin(infer, secret, x, u);
    SeeTwo(w, infer, x, y, Int, ONE, TWO, q, clock, Nothing(), Keys(0), Gone(0, x, u), Flows(0));
  }

  /** Two flows to integers, the second of which retires the first one's endpoint, and two to UUIDs, the second of
      which decides the position anew. */
  method FourFlows(
    infer: Infer, secret: string -> bool, x: string, y: string, u: string, v: string, q: Sample, clock: int)
    returns (w: Worker)
    requires Literal(x) && Literal(y) && Literal(u) && Literal(v)
    requires infer(x) == Int == infer(y) && infer(u) == UUID == infer(v)
    ensures fresh(w) && fresh(w.agg) && fresh(w.agg.owned) && fresh(w.store)
    ensures fresh(w.agg.registry) && fresh(w.agg.registry.owned) && fresh(w.agg.registry.stats)
    ensures Runs(w, infer) && Stand(w.agg.Standing(), Only(UUID), map[], Keys(4), Gone(4, x, u), Flows(4))
  {
    hide *;
    RunFacts(infer, x, u);
    RunFacts(infer, y, v);
    KeysFacts();
    GoneFacts(x, u);
    FlowFacts();
    w := TwoFlows(infer, secret, x, y, q, clock, u);
    SeeTwo(w, infer, u, v, UUID, THREE, FOUR, q, clock, Only(Int), Keys(2), Gone(2, x, u), Flows(2));
  }

  /** After them one to the first integer again: its endpoint is live, and still to be deleted. */
  method FiveFlows(
    infer: Infer, secret: string -> bool, x: string, y: string, u: string, v: string, q: Sample, clock: int)
    returns (w: Worker)
    requires Literal(x) && Literal(y) && Literal(u) && Literal(v)
    requires infer(x) == Int == infer(y) && infer(u) == UUID == infer(v)
    ensures fresh(w) && fresh(w.agg) && fresh(w.store)
    ensures Runs(w, infer) && At(x) in w.agg.live && At(x) in w.agg.retired
  {
    hide *;
    RunFacts(infer, x, u);
    KeysFacts();
    GoneFacts(x, u);
    FlowFacts();
    w := FourFlows(infer, secret, x, y, u, v, q, clock);
    SeeFirst(w, infer, x, FIVE, q, clock, Only(UUID), Keys(4), Gone(4, x, u), Flows(4));
    StandsThere(w.agg, Only(UUID), AtRoot(Seen(NOTHING, x, infer(x), 8)), Keys(4) + {At(x)}, Gone(4, x, u),
                Flows(4) + {FIVE}, At(x));
  }

  lemma LiveRowDeleted(live: Live, retired: set<EndpointID>, id: EndpointID)
    requires id in live && id in retired
    ensures id in Deleted(live.Keys, retired, Done, Done)
    ensures id !in live - ({} + Deleted(live.Keys, retired, Done, Done))
  {
  }

  /** The flush after them acknowledges all five, and deletes the row of a live endpoint it has just written. */
  method ReturningRun(
    infer: Infer, secret: string -> bool, x: string, y: string, u: string, v: string, q: Sample, clock: int)
    returns (w: Worker, acks: bool, ghost before: Books)
    requires Literal(x) && Literal(y) && Literal(u) && Literal(v)
    requires infer(x) == Int == infer(y) && infer(u) == UUID == infer(v)
    ensures fresh(w) && w.Valid() && At(x) in before.live && At(x) in before.retired
    ensures acks && w.pending == []
    ensures w.agg.live == before.live && At(x) !in w.store.rows && w.store.rows != w.agg.live
  {
    hide *;
    w := FiveFlows(infer, secret, x, y, u, v, q, clock);
    RunsParts(w, infer);
    w.agg.Stands();
    before := w.agg.Standing();
    LiveRowDeleted(w.agg.live, w.agg.retired, At(x));
    acks := w.Flush(Done, Done);
  }
}
