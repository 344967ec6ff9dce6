/** Runs of one engine in which a collapse loses a decision, and in which a decided position is decided anew. */
module Forgetting {
  import opened Events
  import opened Text
  import opened Sorting
  import opened Paths
  import opened ValueTypes
  import opened Evidences
  import opened Collapsing
  import opened Deciding
  import opened Templating

  /** Small thresholds, so that the runs are short. */
  const EAGER := TemplateOptions(1, 1, 1, 0.9, 0.85, 4)

  const ROOT: Prefix := []
  const SITE: Scope := Scope("t", "h", "GET")
  const SOME_UUID := "3f2504e0-4f89-41d3-9a0c-0305e82c3301"

  /** The inference the run relies on. */
  predicate Infers(infer: Infer) {
    && infer("in") == Alnum && infer("jobs") == Alnum && infer("news") == Alnum
    && infer("{var}") == Freetext && infer("7") == Int && infer(SOME_UUID) == UUID
  }

  ghost function AtRoot(ev: Evidence): map<Prefix, Evidence> {
    map[ROOT := ev]
  }

  lemma SomeElement(order: seq<Prefix>)
    ensures order == [] || exists k :: k in order
  {
    if order != [] {
      assert order[0] in order;
    }
  }

  lemma NothingBelow(infer: Infer, before: Decisions, now: Decisions, prefix: Prefix, t: ValueType)
    requires Decided(infer, before, now, prefix, t) && forall k | k in before :: !(prefix < k)
    ensures now == before
  {
    var order :| InOrder(infer, before, prefix, t, order) && now == MovedAlong(before, prefix, t, order);
    assert forall k :: k !in order;
    SomeElement(order);
  }

  /** Collapsing a position of depth one leaves the root's evidence as it was. */
  lemma RootStays(infer: Infer, root: Evidence, child: string, ev: Evidence, after: map<Prefix, Evidence>, t: ValueType)
    requires Rekeyed(infer, AtRoot(root)[[child] := ev], after, [child], t)
    ensures after == AtRoot(root)
  {
    var kept := AtRoot(root)[[child] := ev] - {[child]};
    assert kept == AtRoot(root);
    var where := Targets(infer, kept, [child], t);
    assert where == map[ROOT := ROOT];
    forall k
      ensures k in after <==> k == ROOT
    {
      assert Sources(where, k) == if k == ROOT then {ROOT} else {};
    }
    assert Sources(where, ROOT) == {ROOT};
    assert Holds(kept, after, where, ROOT) && kept[ROOT] == root;
  }

  lemma OneDominates(ev: Evidence, value: string, t: ValueType)
    requires ev == Evidence(1, map[value := 1], map[t := 1], false) && Promotable(t)
    ensures forall u :: Dominates(ev, u, EAGER) <==> u == t
    ensures DistinctSeen(ev, EAGER) == 1
  {
    assert |ev.values| == 1;
  }

  lemma OnlyDominant(ev: Evidence, t: ValueType, r: Option<ValueType>)
    requires (forall u :: Dominates(ev, u, EAGER) <==> u == t) && IsDominant(ev, EAGER, r)
    ensures r == Some(t)
  {
    assert Dominates(ev, t, EAGER);
  }

  lemma OneDecides(value: string, t: ValueType, r: Option<ValueType>)
    requires Promotable(t) && IsDecision(Seen(NOTHING, value, t, 1), EAGER, r)
    ensures r == Some(t)
  {
    var ev := Seen(NOTHING, value, t, 1);
    OneDominates(ev, value, t);
    assert Dominates(ev, t, EAGER);
    assert IsDominant(ev, EAGER, r);
    OnlyDominant(ev, t, r);
  }

  lemma NothingBelowChild(infer: Infer, c: Decisions, child: string, t: ValueType, now: Decisions)
    requires Decided(infer, c[[child] := t], now, [child], t) && forall k | k in c :: !([child] < k)
    ensures now == c[[child] := t]
  {
    NothingBelow(infer, c[[child] := t], now, [child], t);
  }

  /** One value of a promotable type decides its position at once. */
  lemma TypedAtOnce(
    infer: Infer, c: Decisions, root: Evidence, child: string, value: string, t: ValueType,
    r: Option<ValueType>, now: Decisions, after: map<Prefix, Evidence>)
    requires Observed(infer, EAGER, c, AtRoot(root), [child], value, r, now, after)
    requires infer(value) == t && Promotable(t) && forall k | k in c :: !([child] < k)
    ensures now == c[[child] := t] && after == AtRoot(root)
  {
    assert EvidenceAt(AtRoot(root), [child]) == NOTHING;
    OneDecides(value, t, r);
    NothingBelowChild(infer, c, child, t, now);
    RootStays(infer, root, child, Seen(NOTHING, value, t, 1), after, t);
  }

  /** No promotable type was seen. */
  ghost predicate Untyped(ev: Evidence) {
    forall t | t in ev.types :: !Promotable(t)
  }

  /** The root keeps its literals while it has seen fewer than four values. */
  lemma StaysLiteral(
    infer: Infer, c: Decisions, view: map<Prefix, Evidence>, value: string,
    r: Option<ValueType>, now: Decisions, after: map<Prefix, Evidence>)
    requires Observed(infer, EAGER, c, view, ROOT, value, r, now, after)
    requires Untyped(EvidenceAt(view, ROOT)) && EvidenceAt(view, ROOT).count < 3 && !Promotable(infer(value))
    requires view.Keys <= {ROOT}
    ensures now == c && after == AtRoot(Seen(EvidenceAt(view, ROOT), value, infer(value), 1))
  {
    var ev := Seen(EvidenceAt(view, ROOT), value, infer(value), 1);
    assert forall t :: !Dominates(ev, t, EAGER);
    assert r == None;
  }

  /** The root after "in", after "{var}", after "jobs" and after "news". */
  function AfterOne(): Evidence {
    Seen(NOTHING, "in", Alnum, 1)
  }

  function AfterTwo(): Evidence {
    Seen(AfterOne(), "{var}", Freetext, 1)
  }

  function AfterThree(): Evidence {
    Seen(AfterTwo(), "jobs", Alnum, 1)
  }

  function AfterFour(): Evidence {
    Seen(AfterThree(), "news", Alnum, 1)
  }

  lemma WordsDiffer()
    ensures "in" != "{var}" && "jobs" != "in" && "jobs" != "{var}" && "news" != "in" && "news" != "{var}"
  {
    assert "in"[0] != "{var}"[0] && "jobs"[0] != "in"[0] && "news"[0] != "in"[0];
    assert "jobs"[0] != "{var}"[0] && "news"[0] != "{var}"[0];
  }

  lemma TwoWords()
    ensures |map["in" := 1, "{var}" := 1]| == 2
  {
    WordsDiffer();
  }

  lemma TwoSeen()
    ensures AfterTwo() == Evidence(2, map["in" := 1, "{var}" := 1], map[Alnum := 1, Freetext := 1], false)
  {
    var one := AfterOne();
    assert one == Evidence(1, map["in" := 1], map[Alnum := 1], false);
    WordsDiffer();
    assert |one.values| == 1;
  }

  lemma ThreeSeen()
    ensures AfterThree() == Evidence(3, map["in" := 1, "{var}" := 1], map[Alnum := 2, Freetext := 1], true)
  {
    hide AfterTwo;
    TwoSeen();
    WordsDiffer();
    TwoWords();
  }

  lemma FourthSeen()
    ensures AfterThree().count == 3 && Untyped(AfterThree())
    ensures AfterFour() == Evidence(4, map["in" := 1, "{var}" := 1], map[Alnum := 3, Freetext := 1], true)
  {
    hide AfterThree;
    ThreeSeen();
    WordsDiffer();
    TwoWords();
  }

  lemma FourDecide(ev: Evidence, r: Option<ValueType>)
    requires ev == Evidence(4, map["in" := 1, "{var}" := 1], map[Alnum := 3, Freetext := 1], true)
    requires IsDecision(ev, EAGER, r)
    ensures r == Some(Var)
  {
    assert forall t :: !Dominates(ev, t, EAGER);
    assert Singletons(ev.values) == {"in", "{var}"} == ev.values.Keys;
    assert |Singletons(ev.values)| == |ev.values|;
    WordsDiffer();
    assert |ev.values| == 2;
  }

  /** The fourth value makes the root fall to {var}. */
  lemma FallsAtFour(infer: Infer, c: Decisions, r: Option<ValueType>, now: Decisions, after: map<Prefix, Evidence>)
    requires infer("news") == Alnum
    requires Observed(infer, EAGER, c, AtRoot(AfterThree()), ROOT, "news", r, now, after)
    ensures Decided(infer, c[ROOT := Var], now, ROOT, Var)
  {
    FourthSeen();
    FourDecide(AfterFour(), r);
  }

  /** What the engine has decided when the root falls, the fall included. */
  function Before(): Decisions {
    map[["in"] := Int, ["{var}"] := UUID, ROOT := Var]
  }

  lemma TokenIs()
    ensures Token(Var) == "{var}"
  {
  }

  /** "in" moves onto "{var}", which moves onto itself: Int does not widen to UUID. */
  lemma IntIsForgotten(infer: Infer)
    ensures Forgets(infer, Before(), ROOT, Var, ["in"], ["{var}"])
    ensures MovesOntoItself(infer, ROOT, Var, ["{var}"]) && Rekey(ROOT, Var, ["in"]) == ["{var}"]
    ensures Kept(infer, Before(), ROOT, Var, ["{var}"]) == {["{var}"]}
    ensures IsLub(Before(), {["{var}"]}, UUID)
  {
    TokenIs();
    assert ["in"][|ROOT| + 1..] == [] && ["{var}"][|ROOT| + 1..] == [];
    assert Less("in", "{var}");
    assert MovesOntoItself(infer, ROOT, Var, ["{var}"]);
    var kept := Kept(infer, Before(), ROOT, Var, ["{var}"]);
    forall k | k in kept
      ensures k == ["{var}"]
    {
      if k == ["in"] {
        AtMostOrders("in", "{var}", "in");
      }
    }
    assert kept == {["{var}"]};
    LubOne(Before(), ["{var}"]);
    LastKeepsItsOwn(infer, Before(), ROOT, Var, ["{var}"]);
  }

  lemma MovesBefore(infer: Infer, order: seq<Prefix>) returns (m: nat)
    requires InOrder(infer, Before(), ROOT, Var, order)
    ensures m < |order| && order[m] == ["{var}"] && ["in"] in order
    ensures Rekey(ROOT, Var, ["in"]) != ["in"] && Moves(infer, ROOT, Var, ["in"])
    ensures AreMoves(infer, Before(), ROOT, Var, order) && Distinct(order)
  {
    IntIsForgotten(infer);
    assert ["{var}"] in order && ["in"] in order;
    m :| 0 <= m < |order| && order[m] == ["{var}"];
  }

  lemma InIsGone(infer: Infer, order: seq<Prefix>)
    requires InOrder(infer, Before(), ROOT, Var, order)
    ensures ["in"] !in MovedAlong(Before(), ROOT, Var, order)
  {
    var m := MovesBefore(infer, order);
    hide Before, Moves, Rekey, InOrder;
    HeldElsewhere(infer, Before(), ROOT, Var, order, ["in"]);
    LeaversReceiveNothing(infer, Before(), ROOT, Var, order, ["in"]);
    HeldIsLub(Before(), ROOT, Var, order, ["in"]);
  }

  lemma VarKeepsItsOwn(infer: Infer, order: seq<Prefix>)
    requires InOrder(infer, Before(), ROOT, Var, order)
    ensures var now := MovedAlong(Before(), ROOT, Var, order); ["{var}"] in now && now[["{var}"]] == UUID
  {
    IntIsForgotten(infer);
    var m := MovesBefore(infer, order);
    assert AllSegments(Before());
    HeldOntoItself(infer, Before(), ROOT, Var, order, m);
    KeptIsFromOn(infer, Before(), ROOT, Var, order, m);
    HeldIsLub(Before(), ROOT, Var, order, ["{var}"]);
    LubUnique(Before(), {["{var}"]}, MovedAlong(Before(), ROOT, Var, order)[["{var}"]], UUID);
  }

  /** The join of Int and UUID is due at "{var}"; UUID is what is there. */
  lemma WhatIsLeft(infer: Infer, now: Decisions)
    requires Decided(infer, Before(), now, ROOT, Var)
    ensures !Redecided(Before(), now, Sent(infer, Before(), ROOT, Var))
    ensures ["{var}"] in now && now[["{var}"]] == UUID && ["in"] !in now
  {
    IntIsForgotten(infer);
    assert AllSegments(Before());
    DecisionsLostExactly(infer, Before(), now, ROOT, Var);
    var order :| InOrder(infer, Before(), ROOT, Var, order) && now == MovedAlong(Before(), ROOT, Var, order);
    InIsGone(infer, order);
    VarKeepsItsOwn(infer, order);
  }

  ghost predicate IsEager(e: Engine, infer: Infer)
    reads e, e.owned
  {
    e.Valid() && e.opts == EAGER && e.infer == infer
  }

  lemma RootLearns(infer: Infer, c: Decisions, view: map<Prefix, Evidence>, value: string, t: Stage, collapsed: bool)
    requires Learned(infer, EAGER, Stage(c, view), JoinTemplate([value]), t, collapsed) && IsSegment(value)
    requires ROOT !in c && view.Keys <= {ROOT} && !Promotable(infer(value))
    requires Untyped(EvidenceAt(view, ROOT)) && EvidenceAt(view, ROOT).count < 3
    ensures t == Stage(c, AtRoot(Seen(EvidenceAt(view, ROOT), value, infer(value), 1)))
  {
    hide Observed, Learned, Untyped, Seen, EvidenceAt;
    var r := LearnedOne(infer, EAGER, Stage(c, view), value, t, collapsed);
    StaysLiteral(infer, c, view, value, r, t.decided, t.view);
  }

  lemma PathLearns(
    infer: Infer, c: Decisions, view: map<Prefix, Evidence>, child: string, value: string, t: Stage, collapsed: bool)
    requires Learned(infer, EAGER, Stage(c, view), JoinTemplate([child, value]), t, collapsed)
    requires IsSegment(child) && IsSegment(value) && !Promotable(infer(child)) && Promotable(infer(value))
    requires ROOT !in c && view.Keys <= {ROOT} && forall k | k in c :: !([child] <= k)
    requires Untyped(EvidenceAt(view, ROOT)) && EvidenceAt(view, ROOT).count < 3
    ensures t == Stage(c[[child] := infer(value)], AtRoot(Seen(EvidenceAt(view, ROOT), child, infer(child), 1)))
  {
    hide Observed, Learned, Untyped, Seen, EvidenceAt;
    var m, q, r := LearnedTwo(infer, EAGER, Stage(c, view), child, value, t, collapsed);
    StaysLiteral(infer, c, view, child, q, m.decided, m.view);
    TypedAtOnce(infer, c, Seen(EvidenceAt(view, ROOT), child, infer(child), 1), child, value, infer(value), r,
                t.decided, t.view);
  }

  lemma FourthLearns(infer: Infer, t: Stage, collapsed: bool)
    requires Learned(infer, EAGER, Stage(map[["in"] := Int, ["{var}"] := UUID], AtRoot(AfterThree())),
                     JoinTemplate(["news"]), t, collapsed)
    requires infer("news") == Alnum && IsSegment("news")
    ensures Decided(infer, Before(), t.decided, ROOT, Var)
  {
    hide Observed, Learned, AfterThree, Decided;
    var c: Decisions := map[["in"] := Int, ["{var}"] := UUID];
    var r := LearnedOne(infer, EAGER, Stage(c, AtRoot(AfterThree())), "news", t, collapsed);
    FallsAtFour(infer, c, r, t.decided, t.view);
    assert c[ROOT := Var] == Before();
  }

  /** A path of one segment of no promotable type. */
  method SeeAtRoot(e: Engine, infer: Infer, value: string)
    requires IsEager(e, infer) && e.view.Keys <= {ROOT} && !Promotable(infer(value)) && IsSegment(value)
    requires Untyped(EvidenceAt(e.view, ROOT)) && EvidenceAt(e.view, ROOT).count < 3 && ROOT !in e.collapses
    modifies e, e.owned
    ensures IsEager(e, infer) && fresh(e.owned - old(e.owned)) && e.collapses == old(e.collapses)
    ensures e.view == AtRoot(Seen(EvidenceAt(old(e.view), ROOT), value, infer(value), 1))
  {
    hide Learned, Templated, Segments, JoinTemplate, Untyped, Seen, EvidenceAt;
    var norm, collapsed := e.Normalize(JoinTemplate([value]));
    RootLearns(infer, old(e.collapses), old(e.view), value, Stage(e.collapses, e.view), collapsed);
  }

  /** The path that makes the root fall. */
  method SeeFourth(e: Engine, infer: Infer)
    requires IsEager(e, infer) && e.view == AtRoot(AfterThree()) && infer("news") == Alnum && IsSegment("news")
    requires e.collapses == map[["in"] := Int, ["{var}"] := UUID]
    modifies e, e.owned
    ensures e.Valid() && Decided(infer, Before(), e.collapses, ROOT, Var)
  {
    hide Learned, Templated, Segments, JoinTemplate, AfterThree, Decided;
    var norm, collapsed := e.Normalize(JoinTemplate(["news"]));
    FourthLearns(infer, Stage(e.collapses, e.view), collapsed);
  }

  /** A path of two segments, the first literal, the second of a promotable type. */
  method SeePath(e: Engine, infer: Infer, child: string, value: string)
    requires IsEager(e, infer) && e.view.Keys <= {ROOT} && !Promotable(infer(child)) && Promotable(infer(value))
    requires IsSegment(child) && IsSegment(value) && ROOT !in e.collapses
    requires Untyped(EvidenceAt(e.view, ROOT)) && EvidenceAt(e.view, ROOT).count < 3
    requires forall k | k in e.collapses :: !([child] <= k)
    modifies e, e.owned
    ensures IsEager(e, infer) && fresh(e.owned - old(e.owned))
    ensures e.view == AtRoot(Seen(EvidenceAt(old(e.view), ROOT), child, infer(child), 1))
    ensures e.collapses == old(e.collapses)[[child] := infer(value)]
  {
    hide Learned, Templated, Segments, JoinTemplate, Untyped, Seen, EvidenceAt;
    var norm, collapsed := e.Normalize(JoinTemplate([child, value]));
    PathLearns(infer, old(e.collapses), old(e.view), child, value, Stage(e.collapses, e.view), collapsed);
  }

  lemma UntypedMore(ev: Evidence, value: string, t: ValueType)
    requires Untyped(ev) && !Promotable(t)
    ensures Untyped(Seen(ev, value, t, 1)) && Seen(ev, value, t, 1).count == ev.count + 1
  {
  }

  lemma EvidenceFacts(ev: Evidence)
    ensures EvidenceAt(map[], ROOT) == NOTHING && Untyped(NOTHING) && NOTHING.count == 0
    ensures EvidenceAt(AtRoot(ev), ROOT) == ev && AtRoot(ev).Keys == {ROOT}
  {
  }

  method New(infer: Infer) returns (e: Engine)
    ensures fresh(e) && fresh(e.owned) && IsEager(e, infer) && e.view == map[] && e.collapses == map[]
  {
    e := new Engine(EAGER, infer, SITE);
  }

  /** One decision below another literal leaves the root and the second literal free. */
  lemma StillFree(a: string, b: string, t: ValueType)
    requires a != b
    ensures ROOT !in map[[a] := t] && forall k | k in map[[a] := t] :: !([b] <= k)
  {
    forall k | k in map[[a] := t]
      ensures !([b] <= k)
    {
      assert k == [a] && [a][0] != [b][0];
    }
  }

  /** Two such paths, seen by a new engine. */
  method SeeTwoPaths(infer: Infer, a: string, x: string, b: string, y: string) returns (e: Engine)
    requires !Promotable(infer(a)) && Promotable(infer(x)) && !Promotable(infer(b)) && Promotable(infer(y))
    requires IsSegment(a) && IsSegment(x) && IsSegment(b) && IsSegment(y) && a != b
    ensures fresh(e) && fresh(e.owned) && IsEager(e, infer)
    ensures e.view == AtRoot(Seen(Seen(NOTHING, a, infer(a), 1), b, infer(b), 1))
    ensures e.collapses == map[[a] := infer(x)][[b] := infer(y)]
  {
    hide *;
    EvidenceFacts(Seen(NOTHING, a, infer(a), 1));
    UntypedMore(NOTHING, a, infer(a));
    StillFree(a, b, infer(x));
    e := New(infer);
    SeePath(e, infer, a, x);
    SeePath(e, infer, b, y);
  }

  lemma SegmentFacts()
    ensures IsSegment("in") && IsSegment("{var}") && IsSegment("7") && IsSegment(SOME_UUID)
    ensures IsSegment("jobs") && IsSegment("news")
  {
  }

  lemma InferredFacts(infer: Infer)
    requires Infers(infer)
    ensures !Promotable(infer("in")) && !Promotable(infer("{var}")) && !Promotable(infer("jobs"))
    ensures infer("7") == Int && infer(SOME_UUID) == UUID && infer("jobs") == Alnum && infer("news") == Alnum
    ensures Promotable(Int) && Promotable(UUID)
    ensures AfterTwo() == Seen(Seen(NOTHING, "in", infer("in"), 1), "{var}", infer("{var}"), 1)
    ensures AfterThree() == Seen(AfterTwo(), "jobs", infer("jobs"), 1)
    ensures Untyped(AfterTwo()) && AfterTwo().count == 2
    ensures map[["in"] := Int][["{var}"] := UUID] == map[["in"] := Int, ["{var}"] := UUID]
    ensures ROOT !in map[["in"] := Int, ["{var}"] := UUID] && "in" != "{var}"
  {
    TwoSeen();
    WordsDiffer();
  }

  /** An engine reaches decisions in which a collapse forgets one: four short paths, "/in/7",
      "/{var}/<a uuid>", "/jobs" and "/news". The decision that the position after "in" holds integers is not part
      of any decision at the end. The thresholds of EAGER are a choice that keeps the run short; the profiler itself
      runs with DEFAULTS. */
  method ForgettingRun(infer: Infer) returns (e: Engine)
    requires Infers(infer)
    ensures fresh(e) && e.Valid() && Decided(infer, Before(), e.collapses, ROOT, Var)
    ensures !Redecided(Before(), e.collapses, Sent(infer, Before(), ROOT, Var))
    ensures ["{var}"] in e.collapses && e.collapses[["{var}"]] == UUID && ["in"] !in e.collapses
  {
    hide *;
    InferredFacts(infer);
    SegmentFacts();
    EvidenceFacts(AfterTwo());
    e := SeeTwoPaths(infer, "in", "7", "{var}", SOME_UUID);
    SeeAtRoot(e, infer, "jobs");
    SeeFourth(e, infer);
    WhatIsLeft(infer, e.collapses);
  }

  // ---- a position decided twice ----

  lemma NothingLeft(infer: Infer, ev: Evidence, t: ValueType, after: map<Prefix, Evidence>)
    requires Rekeyed(infer, AtRoot(ev), after, ROOT, t)
    ensures after == map[]
  {
    assert AtRoot(ev) - {ROOT} == map[];
    var where := Targets(infer, map[], ROOT, t);
    assert where == map[];
    forall k
      ensures k !in after
    {
      assert Sources(where, k) == {};
    }
  }

  lemma FirstDecides(
    infer: Infer, c: Decisions, value: string, t: ValueType, r: Option<ValueType>, now: Decisions,
    after: map<Prefix, Evidence>)
    requires Observed(infer, EAGER, c, map[], ROOT, value, r, now, after)
    requires infer(value) == t && Promotable(t)
    ensures Rekeyed(infer, AtRoot(Seen(NOTHING, value, t, 1)), after, ROOT, t)
    ensures Decided(infer, c[ROOT := t], now, ROOT, t)
  {
    hide IsDecision, Rekeyed, Decided, Seen;
    assert EvidenceAt(map[], ROOT) == NOTHING;
    OneDecides(value, t, r);
    assert map[][ROOT := Seen(NOTHING, value, t, 1)] == AtRoot(Seen(NOTHING, value, t, 1));
  }

  lemma NothingBelowRoot(infer: Infer, c: Decisions, t: ValueType, now: Decisions)
    requires Decided(infer, c[ROOT := t], now, ROOT, t) && c.Keys <= {ROOT}
    ensures now == map[ROOT := t]
  {
    NothingBelow(infer, c[ROOT := t], now, ROOT, t);
  }

  /** A value the decision at the root does not match starts the root's evidence anew; when it is of a promotable
      type it decides the root again, and the first decision is replaced. */
  lemma DecidedAnew(
    infer: Infer, c: Decisions, value: string, t: ValueType, r: Option<ValueType>, now: Decisions,
    after: map<Prefix, Evidence>)
    requires Observed(infer, EAGER, c, map[], ROOT, value, r, now, after)
    requires infer(value) == t && Promotable(t) && c.Keys <= {ROOT}
    ensures now == map[ROOT := t] && after == map[]
  {
    FirstDecides(infer, c, value, t, r, now, after);
    hide *;
    NothingBelowRoot(infer, c, t, now);
    NothingLeft(infer, Seen(NOTHING, value, t, 1), t, after);
  }

  lemma RootLearnsAnew(infer: Infer, c: Decisions, value: string, t: Stage, collapsed: bool)
    requires Learned(infer, EAGER, Stage(c, map[]), JoinTemplate([value]), t, collapsed) && IsSegment(value)
    requires c.Keys <= {ROOT} && Promotable(infer(value))
    requires ROOT in c ==> !Matches(infer, value, c[ROOT])
    ensures t == Stage(map[ROOT := infer(value)], map[])
  {
    hide Observed, Learned;
    var r := LearnedOne(infer, EAGER, Stage(c, map[]), value, t, collapsed);
    DecidedAnew(infer, c, value, infer(value), r, t.decided, t.view);
  }

  /** A path of one segment of a promotable type, which the decision at the root does not match. */
  method SeeTypedAtRoot(e: Engine, infer: Infer, value: string)
    requires IsEager(e, infer) && e.view == map[] && e.collapses.Keys <= {ROOT} && Promotable(infer(value))
    requires IsSegment(value) && (ROOT in e.collapses ==> !Matches(infer, value, e.collapses[ROOT]))
    modifies e, e.owned
    ensures IsEager(e, infer) && fresh(e.owned - old(e.owned)) && e.view == map[]
    ensures e.collapses == map[ROOT := infer(value)]
  {
    hide Learned, Templated, Segments, JoinTemplate;
    var norm, collapsed := e.Normalize(JoinTemplate([value]));
    RootLearnsAnew(infer, old(e.collapses), value, Stage(e.collapses, e.view), collapsed);
  }

  lemma SevenFacts(infer: Infer)
    requires Infers(infer)
    ensures AreSegments(ROOT + ["7"]) && JoinTemplate(ROOT + ["7"]) == "/7" && !IsToken("7")
    ensures Renormalized(infer, map[], ROOT) == ROOT
    ensures Widens(infer("7"), Int) && !Widens(infer("7"), UUID) && !Matches(infer, SOME_UUID, Int)
  {
    assert ROOT + ["7"] == ["7"];
  }

  lemma RootAlone(t: ValueType)
    ensures map[ROOT := t].Keys <= {ROOT} && map[ROOT := t][ROOT] == t
  {
  }

  lemma SevenReverts(infer: Infer)
    requires Infers(infer)
    ensures RenormalizedTemplate(infer, map[ROOT := Int], "/7") != "/7"
    ensures RenormalizedTemplate(infer, map[ROOT := UUID], "/7") == "/7"
  {
    hide *;
    SevenFacts(infer);
    assert map[][ROOT := Int][ROOT := UUID] == map[ROOT := UUID];
    RevertsExactly(infer, map[], ROOT, Int, UUID, "7");
  }

  /** "/7" is decided to be "/{int}"; one UUID later it is literal again. */
  method RevertingRun(infer: Infer) returns (e: Engine, ghost first: Decisions)
    requires Infers(infer)
    ensures fresh(e) && IsEager(e, infer) && first == map[ROOT := Int] && e.collapses == map[ROOT := UUID]
    ensures RenormalizedTemplate(infer, first, "/7") != "/7"
    ensures RenormalizedTemplate(infer, e.collapses, "/7") == "/7"
  {
    hide *;
    InferredFacts(infer);
    SegmentFacts();
    RootAlone(Int);
    SevenFacts(infer);
    e := New(infer);
    SeeTypedAtRoot(e, infer, "7");
    first := e.collapses;
    SeeTypedAtRoot(e, infer, SOME_UUID);
    SevenReverts(infer);
  }
}
