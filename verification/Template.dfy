/** Learning path templates for one scope, in place. */
module Templating {
  import opened Events
  import opened Paths
  import opened ValueTypes
  import opened Evidences
  import opened Collapsing
  import opened Deciding

  /** One engine learns for one tenant, host and method. */
  datatype Scope = Scope(tenant: string, host: string, verb: string)

  // ---- one position ----

  class SegStat {
    var count: nat
    var values: map<string, nat>
    var types: map<ValueType, nat>
    var overflow: bool
    /** The position it stands for, and its evidence as one value. */
    ghost var key: Prefix
    ghost var seen: Evidence
    /** The scope it was made for. */
    ghost const scope: Scope

    ghost predicate Shows()
      reads this`count, this`values, this`types, this`overflow, this`seen
    {
      seen == Evidence(count, values, types, overflow)
    }

    constructor (ghost key: Prefix, ghost scope: Scope)
      ensures Shows() && seen == NOTHING && this.key == key && this.scope == scope
    {
      this.scope := scope;
      count, values, types, overflow := 0, map[], map[], false;
      this.key, seen := key, NOTHING;
    }

    method Add(value: string, t: ValueType, cap: int)
      requires Shows()
      modifies this`count, this`values, this`types, this`overflow, this`seen
      ensures Shows() && seen == Seen(old(seen), value, t, cap)
    {
      seen := Seen(seen, value, t, cap);
      count := count + 1;
      types := Bump(types, t, 1);
      if value in values {
        values := Bump(values, value, 1);
      } else if |values| <= cap {
        values := Bump(values, value, 1);
      } else {
        overflow := true;
      }
    }

    /** Adds another position's evidence, its values in any order. */
    method Absorb(from: SegStat, cap: int)
      requires from != this && Shows() && from.Shows()
      modifies this`count, this`values, this`types, this`overflow, this`seen
      ensures Shows() && Merges(seen, old(seen), from.seen, cap)
    {
      count := count + from.count;
      types := AddTypes(types, from.types);
      var dropped;
      ghost var lost;
      values, dropped, lost := AddValues(values, from.values, cap);
      overflow := overflow || from.overflow || dropped;
      seen := Evidence(count, values, types, overflow);
    }
  }

  // ---- the engine ----

  /** Options that ask for no samples mean the defaults. */
  function Effective(opts: TemplateOptions): TemplateOptions {
    if opts.minSamples <= 0 then DEFAULTS else opts
  }

  function EvidenceAt(view: map<Prefix, Evidence>, prefix: Prefix): Evidence {
    if prefix in view then view[prefix] else NOTHING
  }

  /** What recording one more value at a position does: the position's evidence grows by it, and if that
      decides the position, the decision is made and what lies below is re-keyed. */
  ghost predicate Observed(
    infer: Infer, opts: TemplateOptions, was: Decisions, view: map<Prefix, Evidence>, prefix: Prefix, value: string,
    r: Option<ValueType>, now: Decisions, after: map<Prefix, Evidence>)
  {
    var ev := Seen(EvidenceAt(view, prefix), value, infer(value), opts.maxDistinct);
    && IsDecision(ev, opts, r)
    && match r
       case None => now == was && after == view[prefix := ev]
       case Some(t) => Rekeyed(infer, view[prefix := ev], after, prefix, t)
                       && Decided(infer, was[prefix := t], now, prefix, t)
  }

  // ---- one path ----

  /** What an engine has decided and what it has seen of the positions it still watches. */
  datatype Stage = Stage(decided: Decisions, view: map<Prefix, Evidence>)

  /** One segment: nothing changes where its position takes it over, elsewhere its value is recorded. */
  ghost predicate Stepped(
    infer: Infer, opts: TemplateOptions, s: Stage, t: Stage, prefix: Prefix, seg: string, r: Option<ValueType>)
  {
    if prefix in s.decided && Matches(infer, seg, s.decided[prefix]) then t == s && r == None
    else Observed(infer, opts, s.decided, s.view, prefix, seg, r, t.decided, t.view)
  }

  /** The segments one after the other, each below what those before it are mapped to. */
  ghost predicate Walked(
    infer: Infer, opts: TemplateOptions, stages: seq<Stage>, rs: seq<Option<ValueType>>, raw: Prefix)
  {
    && |stages| == |raw| + 1 && |rs| == |raw|
    && forall i {:trigger rs[i]} | 0 <= i < |raw| ::
         Stepped(infer, opts, stages[i], stages[i + 1], Templated(infer, stages[i].decided, raw[..i]), raw[i], rs[i])
  }

  predicate AnyDecided(rs: seq<Option<ValueType>>) {
    exists i | 0 <= i < |rs| :: rs[i].Some?
  }

  /** What showing a path to an engine does, and whether it decided some position. */
  ghost predicate Learned(infer: Infer, opts: TemplateOptions, s: Stage, path: string, t: Stage, collapsed: bool) {
    exists stages, rs {:trigger Walked(infer, opts, stages, rs, Segments(path))} ::
      && Walked(infer, opts, stages, rs, Segments(path))
      && stages[0] == s && stages[|stages| - 1] == t && collapsed == AnyDecided(rs)
  }

  lemma WalkedMore(
    infer: Infer, opts: TemplateOptions, stages: seq<Stage>, rs: seq<Option<ValueType>>, raw: Prefix, i: nat,
    next: Stage, r: Option<ValueType>)
    requires i < |raw| && Walked(infer, opts, stages, rs, raw[..i])
    requires Stepped(infer, opts, stages[i], next, Templated(infer, stages[i].decided, raw[..i]), raw[i], r)
    ensures Walked(infer, opts, stages + [next], rs + [r], raw[..i + 1])
    ensures AnyDecided(rs + [r]) <==> AnyDecided(rs) || r.Some?
  {
    hide Stepped, Templated;
    var more, news := stages + [next], rs + [r];
    forall k {:trigger news[k]} | 0 <= k < i + 1
      ensures Stepped(infer, opts, more[k], more[k + 1], Templated(infer, more[k].decided, raw[..i + 1][..k]),
                      raw[..i + 1][k], news[k])
    {
      assert raw[..i + 1][..k] == raw[..i][..k] == raw[..k];
      assert k < i ==> rs[k] == news[k];
    }
    assert news[i] == r && forall k | 0 <= k < i :: news[k] == rs[k];
  }

  lemma WalkedNone(infer: Infer, opts: TemplateOptions, s: Stage, raw: Prefix)
    ensures Walked(infer, opts, [s], [], raw[..0]) && !AnyDecided([])
  {
  }

  lemma WalkedAll(
    infer: Infer, opts: TemplateOptions, stages: seq<Stage>, rs: seq<Option<ValueType>>, path: string)
    requires Walked(infer, opts, stages, rs, Segments(path)[..|Segments(path)|])
    ensures |stages| == |Segments(path)| + 1
    ensures Learned(infer, opts, stages[0], path, stages[|stages| - 1], AnyDecided(rs))
  {
    hide Stepped, Templated, Segments;
    assert Segments(path)[..|Segments(path)|] == Segments(path);
  }

  /** A path of one segment. */
  lemma LearnedOne(infer: Infer, opts: TemplateOptions, s: Stage, seg: string, t: Stage, collapsed: bool)
    returns (r: Option<ValueType>)
    requires IsSegment(seg) && Learned(infer, opts, s, JoinTemplate([seg]), t, collapsed)
    ensures Stepped(infer, opts, s, t, [], seg, r) && collapsed == r.Some?
  {
    hide Stepped, Segments, JoinTemplate;
    JoinThenSplit([seg]);
    var stages, rs :| Walked(infer, opts, stages, rs, Segments(JoinTemplate([seg])))
      && stages[0] == s && stages[|stages| - 1] == t && collapsed == AnyDecided(rs);
    r := rs[0];
    assert Templated(infer, s.decided, [seg][..0]) == [];
  }

  /** A path of two segments. */
  lemma LearnedTwo(infer: Infer, opts: TemplateOptions, s: Stage, a: string, b: string, t: Stage, collapsed: bool)
    returns (m: Stage, q: Option<ValueType>, r: Option<ValueType>)
    requires IsSegment(a) && IsSegment(b) && Learned(infer, opts, s, JoinTemplate([a, b]), t, collapsed)
    ensures Stepped(infer, opts, s, m, [], a, q)
    ensures Stepped(infer, opts, m, t, [Step(infer, m.decided, [], a)], b, r)
    ensures collapsed <==> q.Some? || r.Some?
  {
    hide Stepped, Segments, JoinTemplate, Step;
    JoinThenSplit([a, b]);
    var stages, rs :| Walked(infer, opts, stages, rs, Segments(JoinTemplate([a, b])))
      && stages[0] == s && stages[|stages| - 1] == t && collapsed == AnyDecided(rs);
    m, q, r := stages[1], rs[0], rs[1];
    assert [a, b][..0] == [] && [a, b][..1] == [a];
    assert Templated(infer, s.decided, []) == [];
    assert [a][..0] == [] && Templated(infer, m.decided, []) == [];
    assert Templated(infer, m.decided, [a]) == [] + [Step(infer, m.decided, [], a)] == [Step(infer, m.decided, [], a)];
  }

  ghost predicate SaneAt(view: map<Prefix, Evidence>, k: Prefix, cap: int) {
    k in view ==> Sane(view[k], cap)
  }

  ghost predicate AllSane(view: map<Prefix, Evidence>, cap: int) {
    forall k {:trigger SaneAt(view, k, cap)} :: SaneAt(view, k, cap)
  }

  lemma PutSane(view: map<Prefix, Evidence>, k: Prefix, ev: Evidence, cap: int)
    requires AllSane(view, cap) && Sane(ev, cap)
    ensures AllSane(view[k := ev], cap)
  {
    forall l {:trigger SaneAt(view[k := ev], l, cap)}
      ensures SaneAt(view[k := ev], l, cap)
    {
      assert SaneAt(view, l, cap);
    }
  }

  lemma NothingSane(cap: int)
    ensures Sane(NOTHING, cap)
  {
  }

  lemma EmptySane(view: map<Prefix, Evidence>, k: Prefix, cap: int)
    requires AllSane(view, cap)
    ensures AllSane(view[k := NOTHING], cap)
  {
    NothingSane(cap);
    PutSane(view, k, NOTHING, cap);
  }

  lemma WatchSane(view: map<Prefix, Evidence>, k: Prefix, value: string, t: ValueType, cap: int)
    requires AllSane(view, cap) && k in view
    ensures AllSane(view[k := Seen(view[k], value, t, cap)], cap)
  {
    assert SaneAt(view, k, cap);
    SeenSane(view[k], value, t, cap);
    PutSane(view, k, Seen(view[k], value, t, cap), cap);
  }

  lemma DropSane(view: map<Prefix, Evidence>, k: Prefix, cap: int)
    requires AllSane(view, cap)
    ensures AllSane(view - {k}, cap)
  {
    forall l {:trigger SaneAt(view - {k}, l, cap)}
      ensures SaneAt(view - {k}, l, cap)
    {
      assert SaneAt(view, l, cap);
    }
  }

  lemma FoldSane(view: map<Prefix, Evidence>, k: Prefix, out: Evidence, more: Evidence, cap: int)
    requires AllSane(view, cap) && k in view && Sane(more, cap) && Merges(out, view[k], more, cap)
    ensures AllSane(view[k := out], cap)
  {
    assert SaneAt(view, k, cap);
    MergesSane(out, view[k], more, cap);
    PutSane(view, k, out, cap);
  }

  lemma RenameSane(view: map<Prefix, Evidence>, from: Prefix, to: Prefix, cap: int)
    requires AllSane(view, cap) && from in view
    ensures AllSane((view - {from})[to := view[from]], cap)
  {
    assert SaneAt(view, from, cap);
    DropSane(view, from, cap);
    PutSane(view - {from}, to, view[from], cap);
  }

  lemma TemplatedMore(infer: Infer, was: map<Prefix, ValueType>, now: map<Prefix, ValueType>, raw: Prefix, i: nat)
    requires i < |raw|
    requires forall k {:trigger Agree(was, now, k)} | |k| < i :: Agree(was, now, k)
    ensures var before := Templated(infer, was, raw[..i]);
      Templated(infer, now, raw[..i + 1]) == before + [Step(infer, now, before, raw[i])]
  {
    assert raw[..i + 1][..i] == raw[..i];
    TemplatedDepends(infer, was, now, raw[..i]);
  }

  /** The keys in `rest` are still to be moved, the others are where they belong. */
  ghost predicate Remaining(
    infer: Infer, before: map<Prefix, Evidence>, now: map<Prefix, Evidence>, prefix: Prefix, t: ValueType,
    rest: set<Prefix>)
  {
    && rest <= before.Keys && prefix !in before
    && (forall k {:trigger Moves(infer, prefix, t, k)} | k in rest :: Moves(infer, prefix, t, k))
    && Moved(before, now, Partly(infer, before, prefix, t, rest))
  }

  lemma AllRemain(infer: Infer, view: map<Prefix, Evidence>, prefix: Prefix, t: ValueType, rest: set<Prefix>)
    requires prefix !in view
    requires forall k {:trigger Moves(infer, prefix, t, k)} :: k in rest <==> k in view && Moves(infer, prefix, t, k)
    requires rest <= view.Keys
    ensures Remaining(infer, view, view, prefix, t, rest)
  {
    NothingMoved(view);
    assert Partly(infer, view, prefix, t, rest) == InPlace(view);
  }

  lemma RemainsHere(
    infer: Infer, before: map<Prefix, Evidence>, now: map<Prefix, Evidence>, prefix: Prefix, t: ValueType,
    rest: set<Prefix>, k: Prefix)
    requires Remaining(infer, before, now, prefix, t, rest) && k in rest
    ensures k in now && prefix < k
  {
    PartlyStep(infer, before, prefix, t, rest, k);
    assert Moves(infer, prefix, t, k);
    assert k in Sources(Partly(infer, before, prefix, t, rest), k);
  }

  lemma RemainsLess(
    infer: Infer, before: map<Prefix, Evidence>, was: map<Prefix, Evidence>, now: map<Prefix, Evidence>, prefix: Prefix,
    t: ValueType, rest: set<Prefix>, k: Prefix, cap: int)
    requires Remaining(infer, before, was, prefix, t, rest) && k in rest && k in was && prefix < k
    requires MovesOne(was, now, k, Rekey(prefix, t, k), cap)
    ensures Remaining(infer, before, now, prefix, t, rest - {k})
  {
    assert Moves(infer, prefix, t, k);
    PartlyStep(infer, before, prefix, t, rest, k);
    if Target(infer, prefix, t, k) != k {
      PartlyOwn(infer, before, prefix, t, rest, k);
    }
    MoveOne(before, was, now, Partly(infer, before, prefix, t, rest), k, Rekey(prefix, t, k), cap);
  }

  lemma NoneRemain(
    infer: Infer, before: map<Prefix, Evidence>, now: map<Prefix, Evidence>, prefix: Prefix, t: ValueType)
    requires Remaining(infer, before, now, prefix, t, {})
    ensures Moved(before, now, Targets(infer, before, prefix, t))
  {
    assert Partly(infer, before, prefix, t, {}) == Targets(infer, before, prefix, t);
  }

  /** Two segments-keyed maps of a scope: what is decided and what is still being watched. */
  class Engine {
    const opts: TemplateOptions
    const infer: Infer
    /** Whose templates it learns. */
    ghost const scope: Scope
    var collapses: map<Prefix, ValueType>
    var stats: map<Prefix, SegStat>
    /** Every position object this engine created. */
    ghost var owned: set<SegStat>
    /** The evidence of each position. */
    ghost var view: map<Prefix, Evidence>

    ghost predicate Valid()
      reads this`stats, this`owned, this`view, owned
    {
      && AllSane(view, opts.maxDistinct)
      && view.Keys == stats.Keys
      && (forall st {:trigger st in owned} | st in owned :: st.scope == scope)
      && forall k {:trigger stats[k]} | k in stats ::
           stats[k] in owned && stats[k].key == k && stats[k].seen == view[k] && stats[k].Shows()
    }

    constructor (opts: TemplateOptions, infer: Infer, ghost scope: Scope)
      ensures Valid() && owned == {} && view == map[] && collapses == map[] && this.scope == scope
      ensures this.infer == infer && this.opts == Effective(opts)
    {
      this.scope := scope;
      this.opts := Effective(opts);
      this.infer := infer;
      collapses, stats := map[], map[];
      owned, view := {}, map[];
    }

    /** Engines of different scopes share no position objects. */
    lemma Apart(e: Engine)
      requires Valid() && e.Valid() && e.scope != scope
      ensures e != this && e.owned !! owned
    {
    }

    /** A position's object, made empty when there is none. */
    method Position(prefix: Prefix) returns (st: SegStat)
      requires Valid()
      modifies this`stats, this`view, this`owned
      ensures Valid() && fresh(owned - old(owned))
      ensures prefix in stats && st == stats[prefix]
      ensures view == old(view)[prefix := EvidenceAt(old(view), prefix)]
    {
      if prefix !in stats {
        EmptySane(view, prefix, opts.maxDistinct);
        st := new SegStat(prefix, scope);
        stats := stats[prefix := st];
        owned := owned + {st};
        view := view[prefix := NOTHING];
      } else {
        assert view == view[prefix := view[prefix]];
      }
      st := stats[prefix];
    }

    /** Adds one value to a position's evidence. */
    method Watch(prefix: Prefix, value: string, t: ValueType) returns (st: SegStat)
      requires Valid()
      modifies this`stats, this`view, this`owned, owned
      ensures Valid() && fresh(owned - old(owned))
      ensures prefix in view && prefix in stats && st == stats[prefix]
      ensures view == old(view)[prefix := Seen(EvidenceAt(old(view), prefix), value, t, opts.maxDistinct)]
    {
      st := Position(prefix);
      Count(prefix, value, t);
    }

    method Count(prefix: Prefix, value: string, t: ValueType)
      requires Valid() && prefix in stats
      modifies this`view, stats[prefix]
      ensures Valid() && view == old(view)[prefix := Seen(old(view)[prefix], value, t, opts.maxDistinct)]
    {
      hide Sane, Seen;
      WatchSane(view, prefix, value, t, opts.maxDistinct);
      stats[prefix].Add(value, t, opts.maxDistinct);
      view := view[prefix := stats[prefix].seen];
    }

    method Rename(from: Prefix, to: Prefix)
      requires Valid() && from in stats && (to !in stats || to == from)
      modifies this`stats, this`view, owned`key
      ensures Valid() && view == (old(view) - {from})[to := old(view)[from]]
    {
      var st := stats[from];
      st.key := to;
      stats := (stats - {from})[to := st];
      RenameSane(view, from, to, opts.maxDistinct);
      view := (view - {from})[to := view[from]];
    }

    /** Takes one position's object out. */
    method Detach(from: Prefix) returns (st: SegStat)
      requires Valid() && from in stats
      modifies this`stats, this`view
      ensures Valid() && view == old(view) - {from}
      ensures st.Shows() && st.seen == old(view)[from] && forall k {:trigger stats[k]} | k in stats :: stats[k] != st
    {
      DropSane(view, from, opts.maxDistinct);
      st := stats[from];
      stats, view := stats - {from}, view - {from};
    }

    /** Merges an object no position holds into one that does. */
    method Attach(st: SegStat, to: Prefix)
      requires Valid() && to in stats && st != stats[to] && st.Shows() && Sane(st.seen, opts.maxDistinct)
      modifies this`view, stats[to]
      ensures Valid() && to in view && Merges(view[to], old(view)[to], st.seen, opts.maxDistinct)
      ensures view == old(view)[to := view[to]]
    {
      hide Merges, Sane;
      stats[to].Absorb(st, opts.maxDistinct);
      FoldSane(view, to, stats[to].seen, st.seen, opts.maxDistinct);
      view := view[to := stats[to].seen];
    }

    method Fold(from: Prefix, to: Prefix)
      requires Valid() && from in stats && to in stats && to != from
      modifies this`stats, this`view, owned
      ensures Valid() && to in view && Merges(view[to], old(view)[to], old(view)[from], opts.maxDistinct)
      ensures view == (old(view) - {from})[to := view[to]]
    {
      hide Merges, Sane;
      assert SaneAt(view, from, opts.maxDistinct);
      var st := Detach(from);
      Attach(st, to);
    }

    /** Moves one position's evidence, merging it with what the other position holds. */
    method MoveStat(from: Prefix, to: Prefix)
      requires Valid() && from in stats
      modifies this`stats, this`view, owned
      ensures Valid() && MovesOne(old(view), view, from, to, opts.maxDistinct)
    {
      if to !in stats || to == from {
        Rename(from, to);
      } else {
        Fold(from, to);
      }
    }

    /** Re-keys the evidence below the prefix, in any order. */
    method MoveStats(prefix: Prefix, t: ValueType)
      requires Valid() && prefix !in stats
      modifies this`stats, this`view, owned
      ensures Valid() && Moved(old(view), view, Targets(infer, old(view), prefix, t))
    {
      ghost var before := view;
      var rest := set k | k in stats && Moves(infer, prefix, t, k);
      AllRemain(infer, before, prefix, t, rest);
      while rest != {}
        invariant Valid() && Remaining(infer, before, view, prefix, t, rest)
      {
        var k :| k in rest;
        rest := MoveNext(before, prefix, t, rest, k);
      }
      NoneRemain(infer, before, view, prefix, t);
    }

    method MoveNext(
      ghost before: map<Prefix, Evidence>, prefix: Prefix, t: ValueType, all: set<Prefix>, k: Prefix)
      returns (rest: set<Prefix>)
      requires Valid() && Remaining(infer, before, view, prefix, t, all) && k in all
      modifies this`stats, this`view, owned
      ensures Valid() && rest == all - {k} && Remaining(infer, before, view, prefix, t, rest)
    {
      RemainsHere(infer, before, view, prefix, t, all, k);
      MoveStat(k, Rekey(prefix, t, k));
      RemainsLess(infer, before, old(view), view, prefix, t, all, k, opts.maxDistinct);
      rest := all - {k};
    }

    /** Stops watching a position. */
    method Forget(prefix: Prefix)
      requires Valid()
      modifies this`stats, this`view
      ensures Valid() && view == old(view) - {prefix}
    {
      DropSane(view, prefix, opts.maxDistinct);
      stats, view := stats - {prefix}, view - {prefix};
    }

    /** Records the decision and re-keys what lies below it. */
    method Collapse(prefix: Prefix, t: ValueType)
      requires Valid()
      modifies this`collapses, this`stats, this`view, owned
      ensures Valid() && Rekeyed(infer, old(view), view, prefix, t)
      ensures Decided(infer, old(collapses)[prefix := t], collapses, prefix, t)
    {
      collapses := collapses[prefix := t];
      Forget(prefix);
      MoveStats(prefix, t);
      collapses := MoveDecisions(infer, collapses, prefix, t);
    }

    /** Records one value at one position and collapses the position if that decides it. */
    method Observe(prefix: Prefix, value: string) returns (did: bool, ghost r: Option<ValueType>)
      requires Valid()
      modifies this`collapses, this`stats, this`view, this`owned, owned
      ensures Valid() && fresh(owned - old(owned))
      ensures did == r.Some? && Observed(infer, opts, old(collapses), old(view), prefix, value, r, collapses, view)
    {
      var st := Watch(prefix, value, infer(value));
      var decision := Decide(Evidence(st.count, st.values, st.types, st.overflow), opts);
      r, did := decision, decision.Some?;
      if did {
        Collapse(prefix, decision.value);
      }
    }

    /** Maps one more segment, recording it where its position has not taken it over. */
    method NormalizeSegment(prefix: Prefix, seg: string) returns (s: string, did: bool, ghost r: Option<ValueType>)
      requires Valid()
      modifies this`collapses, this`stats, this`view, this`owned, owned
      ensures Valid() && fresh(owned - old(owned))
      ensures s == Step(infer, collapses, prefix, seg)
      ensures !did ==> collapses == old(collapses)
      ensures did == r.Some?
      ensures Stepped(infer, opts, Stage(old(collapses), old(view)), Stage(collapses, view), prefix, seg, r)
      ensures forall k {:trigger Agree(old(collapses), collapses, k)} | |k| < |prefix| ::
        Agree(old(collapses), collapses, k)
      ensures AllSegments(old(collapses)) && AreSegments(prefix) ==> AllSegments(collapses)
    {
      if prefix in collapses && Matches(infer, seg, collapses[prefix]) {
        return Token(collapses[prefix]), false, None;
      }
      ghost var was := collapses;
      did, r := Observe(prefix, seg);
      if did {
        ShorterAgree(infer, was, collapses, prefix, r.value);
        StillSegments(infer, was, collapses, prefix, r.value);
        if Matches(infer, seg, collapses[prefix]) {
          return Token(collapses[prefix]), true, r;
        }
      }
      s := seg;
    }

    /** Maps a concrete path onto the template space, recording it segment by segment. The result is what the
        decisions left behind say, also when several positions collapsed on the way. */
    method Normalize(path: string) returns (norm: Prefix, collapsed: bool)
      requires Valid()
      modifies this`collapses, this`stats, this`view, this`owned, owned
      ensures Valid() && fresh(owned - old(owned))
      ensures norm == Templated(infer, collapses, Segments(path))
      ensures !collapsed ==> collapses == old(collapses)
      ensures AllSegments(old(collapses)) ==> AllSegments(collapses)
      ensures Learned(infer, opts, Stage(old(collapses), old(view)), path, Stage(collapses, view), collapsed)
    {
      hide Walked, AnyDecided, Learned, Templated, AllSegments, Segments, AreSegments, AllSane;
      var raw := SplitPath(path);
      SplitsIntoSegments(path);
      norm, collapsed := [], false;
      ghost var stages, rs := [Stage(collapses, view)], [];
      WalkedNone(infer, opts, stages[0], raw);
      for i := 0 to |raw|
        invariant Valid() && fresh(owned - old(owned))
        invariant norm == Templated(infer, collapses, raw[..i])
        invariant !collapsed ==> collapses == old(collapses)
        invariant AllSegments(old(collapses)) ==> AllSegments(collapses)
        invariant |stages| == i + 1 && Walked(infer, opts, stages, rs, raw[..i]) && collapsed == AnyDecided(rs)
        invariant stages[0] == Stage(old(collapses), old(view)) && stages[i] == Stage(collapses, view)
      {
        norm, collapsed, stages, rs := NormalizeMore(raw, i, norm, collapsed, stages, rs);
      }
      WalkedAll(infer, opts, stages, rs, path);
      assert raw[..|raw|] == raw;
    }

    method NormalizeMore(
      raw: Prefix, i: nat, norm0: Prefix, collapsed0: bool, ghost stages0: seq<Stage>,
      ghost rs0: seq<Option<ValueType>>)
      returns (norm: Prefix, collapsed: bool, ghost stages: seq<Stage>, ghost rs: seq<Option<ValueType>>)
      requires Valid() && i < |raw| && norm0 == Templated(infer, collapses, raw[..i]) && AreSegments(raw)
      requires Walked(infer, opts, stages0, rs0, raw[..i]) && collapsed0 == AnyDecided(rs0)
      requires |stages0| == i + 1 && stages0[i] == Stage(collapses, view)
      modifies this`collapses, this`stats, this`view, this`owned, owned
      ensures Valid() && fresh(owned - old(owned))
      ensures norm == Templated(infer, collapses, raw[..i + 1])
      ensures (collapsed0 ==> collapsed) && (!collapsed ==> collapses == old(collapses))
      ensures AllSegments(old(collapses)) ==> AllSegments(collapses)
      ensures Walked(infer, opts, stages, rs, raw[..i + 1]) && collapsed == AnyDecided(rs)
      ensures |stages| == i + 2 && stages[0] == stages0[0] && stages[i + 1] == Stage(collapses, view)
    {
      ghost var was := collapses;
      TemplatedSegments(infer, was, raw[..i]);
      hide Walked, Stepped, AnyDecided, Valid, Templated, Step, AreSegments, AllSegments;
      var s, did;
      ghost var r;
      s, did, r := NormalizeSegment(norm0, raw[i]);
      TemplatedMore(infer, was, collapses, raw, i);
      WalkedMore(infer, opts, stages0, rs0, raw, i, Stage(collapses, view), r);
      norm, collapsed, stages, rs := norm0 + [s], collapsed0 || did, stages0 + [Stage(collapses, view)], rs0 + [r];
    }

    /** Maps an existing template through the decisions, recording nothing. */
    method Renormalize(template: string) returns (r: string)
      ensures r == RenormalizedTemplate(infer, collapses, template)
    {
      var raw := SplitPath(template);
      var norm := [];
      for i := 0 to |raw|
        invariant norm == Renormalized(infer, collapses, raw[..i])
      {
        assert raw[..i + 1][..i] == raw[..i];
        var seg := raw[i];
        if !IsToken(seg) && norm in collapses && Matches(infer, seg, collapses[norm]) {
          seg := Token(collapses[norm]);
        }
        norm := norm + [seg];
      }
      assert raw[..|raw|] == raw;
      r := JoinTemplate(norm);
    }
  }
}
