/** What a collapse does to the decisions and the evidence below it, as values. */
module Collapsing {
  import opened Paths
  import opened ValueTypes
  import opened Evidences

  type Prefix = seq<string>
  type Infer = string -> ValueType

  // ---- templates ----

  function Step(infer: Infer, c: map<Prefix, ValueType>, prefix: Prefix, seg: string): string {
    if prefix in c && Matches(infer, seg, c[prefix]) then Token(c[prefix]) else seg
  }

  /** A concrete path under the decisions c. */
  function Templated(infer: Infer, c: map<Prefix, ValueType>, raw: Prefix): (norm: Prefix)
    ensures |norm| == |raw|
  {
    if raw == [] then []
    else
      var n := |raw| - 1;
      var before := Templated(infer, c, raw[..n]);
      before + [Step(infer, c, before, raw[n])]
  }

  /** An existing template under the decisions c: tokens stay. */
  function Renormalized(infer: Infer, c: map<Prefix, ValueType>, raw: Prefix): (norm: Prefix)
    ensures |norm| == |raw|
  {
    if raw == [] then []
    else
      var n := |raw| - 1;
      var before := Renormalized(infer, c, raw[..n]);
      before + [if IsToken(raw[n]) then raw[n] else Step(infer, c, before, raw[n])]
  }

  /** A path is mapped segment by segment: a segment becomes the parameter decided below the template so far when that
      is {var} or its type may be widened to it, and stays what it is otherwise. */
  lemma {:induction false} TemplatedExactly(infer: Infer, c: map<Prefix, ValueType>, raw: Prefix, i: nat)
    requires i < |raw|
    ensures var norm := Templated(infer, c, raw); var prefix := norm[..i];
      && prefix == Templated(infer, c, raw[..i])
      && norm[i] == if prefix in c && (c[prefix] == Var || Widens(infer(raw[i]), c[prefix]))
                    then "{" + c[prefix].Name() + "}" else raw[i]
  {
    var n := |raw| - 1;
    var norm := Templated(infer, c, raw);
    var before := Templated(infer, c, raw[..n]);
    assert norm[..n] == before;
    if i < n {
      TemplatedExactly(infer, c, raw[..n], i);
      assert raw[..n][..i] == raw[..i] && raw[..n][i] == raw[i] && norm[..i] == before[..i];
    } else if before in c {
      MatchesExactly(infer, raw[n], c[before]);
    }
  }

  /** A template is mapped the same way, but its tokens stay. */
  lemma {:induction false} RenormalizedExactly(infer: Infer, c: map<Prefix, ValueType>, raw: Prefix, i: nat)
    requires i < |raw|
    ensures var norm := Renormalized(infer, c, raw); var prefix := norm[..i];
      && prefix == Renormalized(infer, c, raw[..i])
      && norm[i] == if !IsToken(raw[i]) && prefix in c && (c[prefix] == Var || Widens(infer(raw[i]), c[prefix]))
                    then "{" + c[prefix].Name() + "}" else raw[i]
  {
    var n := |raw| - 1;
    var norm := Renormalized(infer, c, raw);
    var before := Renormalized(infer, c, raw[..n]);
    assert norm[..n] == before;
    if i < n {
      RenormalizedExactly(infer, c, raw[..n], i);
      assert raw[..n][..i] == raw[..i] && raw[..n][i] == raw[i] && norm[..i] == before[..i];
    } else if before in c {
      MatchesExactly(infer, raw[n], c[before]);
    }
  }

  lemma StepIsStable(infer: Infer, c: map<Prefix, ValueType>, prefix: Prefix, seg: string)
    ensures var s := Step(infer, c, prefix, seg); IsToken(s) || Step(infer, c, prefix, s) == s
  {
    if prefix in c {
      TokenThenParse(c[prefix]);
    }
  }

  /** Renormalizing twice changes nothing more. */
  lemma {:induction false} RenormalizeIdempotent(infer: Infer, c: map<Prefix, ValueType>, raw: Prefix)
    ensures Renormalized(infer, c, Renormalized(infer, c, raw)) == Renormalized(infer, c, raw)
  {
    if raw != [] {
      var n := |raw| - 1;
      var once := Renormalized(infer, c, raw);
      assert once[..n] == Renormalized(infer, c, raw[..n]);
      RenormalizeIdempotent(infer, c, raw[..n]);
      StepIsStable(infer, c, once[..n], raw[n]);
    }
  }

  /** What a concrete path is mapped to is a fixed point of renormalizing. */
  lemma {:induction false} TemplatedIsFixed(infer: Infer, c: map<Prefix, ValueType>, raw: Prefix)
    ensures Renormalized(infer, c, Templated(infer, c, raw)) == Templated(infer, c, raw)
  {
    if raw != [] {
      var n := |raw| - 1;
      var norm := Templated(infer, c, raw);
      assert norm[..n] == Templated(infer, c, raw[..n]);
      TemplatedIsFixed(infer, c, raw[..n]);
      StepIsStable(infer, c, norm[..n], raw[n]);
    }
  }

  lemma {:induction false} TemplatedSegments(infer: Infer, c: map<Prefix, ValueType>, raw: Prefix)
    requires AreSegments(raw)
    ensures AreSegments(Templated(infer, c, raw))
  {
    if raw != [] {
      var n := |raw| - 1;
      TemplatedSegments(infer, c, raw[..n]);
      var before := Templated(infer, c, raw[..n]);
      if before in c {
        TokenThenParse(c[before]);
      }
    }
  }

  lemma {:induction false} RenormalizedSegments(infer: Infer, c: map<Prefix, ValueType>, raw: Prefix)
    requires AreSegments(raw)
    ensures AreSegments(Renormalized(infer, c, raw))
  {
    if raw != [] {
      var n := |raw| - 1;
      RenormalizedSegments(infer, c, raw[..n]);
      var before := Renormalized(infer, c, raw[..n]);
      if before in c {
        TokenThenParse(c[before]);
      }
    }
  }

  /** Renormalizing a rendered template. */
  function RenormalizedTemplate(infer: Infer, c: map<Prefix, ValueType>, template: string): string {
    JoinTemplate(Renormalized(infer, c, Segments(template)))
  }

  /** Renormalizing a template twice is renormalizing it once. */
  lemma RenormalizeTwice(infer: Infer, c: map<Prefix, ValueType>, template: string)
    ensures var once := RenormalizedTemplate(infer, c, template); RenormalizedTemplate(infer, c, once) == once
  {
    SplitsIntoSegments(template);
    RenormalizedSegments(infer, c, Segments(template));
    JoinThenSplit(Renormalized(infer, c, Segments(template)));
    RenormalizeIdempotent(infer, c, Segments(template));
  }

  /** The template a concrete path is mapped to is a fixed point of renormalizing. */
  lemma NormalizedIsFixed(infer: Infer, c: map<Prefix, ValueType>, path: string)
    ensures var template := JoinTemplate(Templated(infer, c, Segments(path)));
      RenormalizedTemplate(infer, c, template) == template
  {
    SplitsIntoSegments(path);
    TemplatedSegments(infer, c, Segments(path));
    JoinThenSplit(Templated(infer, c, Segments(path)));
    TemplatedIsFixed(infer, c, Segments(path));
  }

  ghost predicate Agree(c: map<Prefix, ValueType>, d: map<Prefix, ValueType>, k: Prefix) {
    (k in c <==> k in d) && (k in c ==> c[k] == d[k])
  }

  /** A path's template depends only on the decisions at prefixes shorter than the path. */
  lemma {:induction false} TemplatedDepends(
    infer: Infer, c: map<Prefix, ValueType>, d: map<Prefix, ValueType>, raw: Prefix)
    requires forall k {:trigger Agree(c, d, k)} | |k| < |raw| :: Agree(c, d, k)
    ensures Templated(infer, c, raw) == Templated(infer, d, raw)
  {
    if raw != [] {
      var n := |raw| - 1;
      TemplatedDepends(infer, c, d, raw[..n]);
      assert Agree(c, d, Templated(infer, c, raw[..n]));
    }
  }

  lemma {:induction false} RenormalizedDepends(
    infer: Infer, c: map<Prefix, ValueType>, d: map<Prefix, ValueType>, raw: Prefix)
    requires forall k {:trigger Agree(c, d, k)} | |k| < |raw| :: Agree(c, d, k)
    ensures Renormalized(infer, c, raw) == Renormalized(infer, d, raw)
  {
    if raw != [] {
      var n := |raw| - 1;
      RenormalizedDepends(infer, c, d, raw[..n]);
      assert Agree(c, d, Renormalized(infer, c, raw[..n]));
    }
  }

  // ---- a second collapse of one position ----

  /** Deciding the position after the prefix turns a literal there into a token exactly when it matches. */
  lemma LiteralUnder(infer: Infer, c: map<Prefix, ValueType>, prefix: Prefix, t: ValueType, seg: string)
    requires !IsToken(seg) && Renormalized(infer, c, prefix) == prefix
    ensures Renormalized(infer, c[prefix := t], prefix + [seg])
         == prefix + [if Matches(infer, seg, t) then Token(t) else seg]
  {
    var raw := prefix + [seg];
    RenormalizedDepends(infer, c, c[prefix := t], prefix);
    assert raw[..|raw| - 1] == prefix;
  }

  lemma SameTemplate(a: Prefix, b: Prefix)
    requires AreSegments(a) && AreSegments(b) && JoinTemplate(a) == JoinTemplate(b)
    ensures a == b
  {
    JoinThenSplit(a);
    JoinThenSplit(b);
  }

  lemma StaysLiteral(infer: Infer, c: map<Prefix, ValueType>, prefix: Prefix, t: ValueType, seg: string)
    requires AreSegments(prefix + [seg]) && !IsToken(seg) && Renormalized(infer, c, prefix) == prefix
    ensures var literal := JoinTemplate(prefix + [seg]);
      RenormalizedTemplate(infer, c[prefix := t], literal) == literal <==> !Matches(infer, seg, t)
  {
    var raw := prefix + [seg];
    JoinThenSplit(raw);
    LiteralUnder(infer, c, prefix, t, seg);
    TokenThenParse(t);
    if Matches(infer, seg, t) {
      var norm := prefix + [Token(t)];
      assert norm[|prefix|] != raw[|prefix|];
      RenormalizedSegments(infer, c[prefix := t], raw);
      if JoinTemplate(norm) == JoinTemplate(raw) {
        SameTemplate(norm, raw);
      }
    }
  }

  /** A literal template that one decision made a parameter of is literal again once the position is decided
      anew, exactly when the first type matched it and the second does not. */
  lemma RevertsExactly(
    infer: Infer, c: map<Prefix, ValueType>, prefix: Prefix, t: ValueType, u: ValueType, seg: string)
    requires AreSegments(prefix + [seg]) && !IsToken(seg) && Renormalized(infer, c, prefix) == prefix
    ensures var literal := JoinTemplate(prefix + [seg]);
      (RenormalizedTemplate(infer, c[prefix := t], literal) != literal
       && RenormalizedTemplate(infer, c[prefix := t][prefix := u], literal) == literal)
      <==> (t == Var || Widens(infer(seg), t)) && !(u == Var || Widens(infer(seg), u))
  {
    hide Matches, Widens, RenormalizedTemplate, IsToken, AreSegments, JoinTemplate;
    MatchesExactly(infer, seg, t);
    MatchesExactly(infer, seg, u);
    StaysLiteral(infer, c, prefix, t, seg);
    StaysLiteral(infer, c, prefix, u, seg);
    assert c[prefix := t][prefix := u] == c[prefix := u];
  }

  // ---- re-keying ----

  /** Whether a key's next segment after the prefix falls under the new parameter. */
  predicate Moves(infer: Infer, prefix: Prefix, t: ValueType, key: Prefix) {
    prefix < key && Matches(infer, key[|prefix|], t)
  }

  function Rekey(prefix: Prefix, t: ValueType, key: Prefix): Prefix
    requires prefix < key
  {
    prefix + [Token(t)] + key[|prefix| + 1..]
  }

  /** Where the evidence of a key belongs after prefix collapsed to t. */
  function Target(infer: Infer, prefix: Prefix, t: ValueType, key: Prefix): Prefix {
    if Moves(infer, prefix, t, key) then Rekey(prefix, t, key) else key
  }

  /** Evidence goes where the template of its position goes: the new key is the old one under the decision alone. Only
      a position below a token the path spelled itself can go elsewhere, since templates keep their tokens. */
  lemma EvidenceFollowsTemplate(infer: Infer, prefix: Prefix, t: ValueType, key: Prefix)
    requires prefix < key ==> !IsToken(key[|prefix|])
    ensures Target(infer, prefix, t, key) == Renormalized(infer, map[prefix := t], key)
  {
    hide Matches, Widens, IsToken, Renormalized;
    var c := map[prefix := t];
    var norm, target := Renormalized(infer, c, key), Target(infer, prefix, t, key);
    forall i | 0 <= i < |key|
      ensures i != |prefix| ==> norm[i] == key[i]
    {
      RenormalizedExactly(infer, c, key, i);
    }
    if |prefix| < |key| {
      var i := |prefix|;
      RenormalizedExactly(infer, c, key, i);
      MatchesExactly(infer, key[i], t);
      assert norm[..i] == key[..i];
      assert prefix < key <==> key[..i] == prefix;
    }
    assert norm == target;
  }

  lemma TargetIdempotent(infer: Infer, prefix: Prefix, t: ValueType, key: Prefix)
    ensures Target(infer, prefix, t, Target(infer, prefix, t, key)) == Target(infer, prefix, t, key)
    ensures Moves(infer, prefix, t, key) ==> prefix < Target(infer, prefix, t, key)
  {
  }

  // ---- evidence ----

  /** What is counted: all observations of a position, or those of one inferred type. */
  datatype Weight = All | OfType(t: ValueType)

  function Amount(ev: Evidence, w: Weight): nat {
    match w
    case All => ev.count
    case OfType(t) => Get(ev.types, t)
  }

  ghost function Tally(view: map<Prefix, Evidence>, ks: set<Prefix>, w: Weight): nat
    requires ks <= view.Keys
  {
    if ks == {} then 0
    else
      var k :| k in ks;
      Amount(view[k], w) + Tally(view, ks - {k}, w)
  }

  lemma {:induction false} TallyRemove(view: map<Prefix, Evidence>, ks: set<Prefix>, w: Weight, k: Prefix)
    requires ks <= view.Keys && k in ks
    ensures Tally(view, ks, w) == Amount(view[k], w) + Tally(view, ks - {k}, w)
    decreases |ks|
  {
    var l :| l in ks && Tally(view, ks, w) == Amount(view[l], w) + Tally(view, ks - {l}, w);
    if l != k {
      TallyRemove(view, ks - {l}, w, k);
      TallyRemove(view, ks - {k}, w, l);
      assert ks - {l} - {k} == ks - {k} - {l};
    }
  }

  /** The keys whose evidence `where` sends to k. */
  ghost function Sources(where: map<Prefix, Prefix>, k: Prefix): set<Prefix> {
    set key | key in where && where[key] == k
  }

  /** Position k holds exactly the counts of the positions sent to it, and all the evidence of a single one. */
  ghost predicate Holds(
    before: map<Prefix, Evidence>, after: map<Prefix, Evidence>, where: map<Prefix, Prefix>, k: Prefix)
    requires k in after && where.Keys <= before.Keys
  {
    && (forall w :: Amount(after[k], w) == Tally(before, Sources(where, k), w))
    && forall j {:trigger before[j]} | j in before && Sources(where, k) == {j} :: after[k] == before[j]
  }

  /** Every key's evidence is where `where` sends it, and nowhere else. */
  ghost predicate Moved(before: map<Prefix, Evidence>, after: map<Prefix, Evidence>, where: map<Prefix, Prefix>)
    requires where.Keys <= before.Keys
  {
    && (forall k {:trigger Sources(where, k)} :: k in after <==> Sources(where, k) != {})
    && forall k {:trigger Holds(before, after, where, k)} | k in after :: Holds(before, after, where, k)
  }

  ghost function InPlace(view: map<Prefix, Evidence>): map<Prefix, Prefix> {
    map k | k in view :: k
  }

  lemma TallyOne(view: map<Prefix, Evidence>, k: Prefix, w: Weight)
    requires k in view
    ensures Tally(view, {k}, w) == Amount(view[k], w)
  {
    TallyRemove(view, {k}, w, k);
    assert {k} - {k} == {};
  }

  lemma NothingMoved(view: map<Prefix, Evidence>)
    ensures Moved(view, view, InPlace(view))
  {
    var where := InPlace(view);
    forall k {:trigger Sources(where, k)}
      ensures Sources(where, k) == if k in view then {k} else {}
    {
    }
    forall k {:trigger Holds(view, view, where, k)} | k in view
      ensures Holds(view, view, where, k)
    {
      forall w
        ensures Amount(view[k], w) == Tally(view, {k}, w)
      {
        TallyOne(view, k, w);
      }
    }
  }

  lemma TallyAdd(view: map<Prefix, Evidence>, ks: set<Prefix>, w: Weight, k: Prefix)
    requires ks <= view.Keys && k in view && k !in ks
    ensures Tally(view, ks + {k}, w) == Amount(view[k], w) + Tally(view, ks, w)
  {
    TallyRemove(view, ks + {k}, w, k);
    assert ks + {k} - {k} == ks;
  }

  /** The evidence at `from` moved to `to`, merged with what was there. */
  ghost predicate MovesOne(now: map<Prefix, Evidence>, after: map<Prefix, Evidence>, from: Prefix, to: Prefix, cap: int)
    requires from in now
  {
    if to in now && to != from then
      && to in after && Merges(after[to], now[to], now[from], cap)
      && after == (now - {from})[to := after[to]]
    else after == (now - {from})[to := now[from]]
  }

  lemma MergesAmount(out: Evidence, a: Evidence, b: Evidence, cap: int, w: Weight)
    requires Merges(out, a, b, cap)
    ensures Amount(out, w) == Amount(a, w) + Amount(b, w)
  {
  }

  lemma SourcesAfter(where: map<Prefix, Prefix>, from: Prefix, to: Prefix, k: Prefix)
    requires from in where && where[from] == from && Sources(where, from) == {from} && to != from
    ensures Sources(where[from := to], k)
         == if k == from then {} else if k == to then Sources(where, k) + {from} else Sources(where, k)
    ensures k != from ==> from !in Sources(where, k)
  {
    assert forall key | key in where && where[key] == from :: key in Sources(where, from);
  }

  lemma MovedHolds(before: map<Prefix, Evidence>, now: map<Prefix, Evidence>, after: map<Prefix, Evidence>,
                   where: map<Prefix, Prefix>, from: Prefix, to: Prefix, cap: int)
    requires where.Keys <= before.Keys && Moved(before, now, where) && from in now && to != from
    requires from in where && where[from] == from && Sources(where, from) == {from}
    requires MovesOne(now, after, from, to, cap)
    ensures to in after && Holds(before, after, where[from := to], to)
  {
    SourcesAfter(where, from, to, to);
    assert Holds(before, now, where, from);
    var was := Sources(where, to);
    if to in now {
      assert Holds(before, now, where, to);
    }
    forall w
      ensures Amount(after[to], w) == Tally(before, was + {from}, w)
    {
      TallyAdd(before, was, w, from);
      TallyOne(before, from, w);
      if to in now {
        MergesAmount(after[to], now[to], now[from], cap, w);
      }
    }
  }

  /** Moving the evidence of a key that only holds its own keeps the account exact. */
  lemma MoveOne(before: map<Prefix, Evidence>, now: map<Prefix, Evidence>, after: map<Prefix, Evidence>,
                where: map<Prefix, Prefix>, from: Prefix, to: Prefix, cap: int)
    requires where.Keys <= before.Keys && Moved(before, now, where) && from in now
    requires from in where && where[from] == from && (to != from ==> Sources(where, from) == {from})
    requires MovesOne(now, after, from, to, cap)
    ensures Moved(before, after, where[from := to])
  {
    if to == from {
      assert where[from := to] == where && after == now;
    } else {
      var later := where[from := to];
      forall k {:trigger Sources(later, k)}
        ensures k in after <==> Sources(later, k) != {}
      {
        SourcesAfter(where, from, to, k);
      }
      forall k {:trigger Holds(before, after, later, k)} | k in after
        ensures Holds(before, after, later, k)
      {
        SourcesAfter(where, from, to, k);
        if k == to {
          MovedHolds(before, now, after, where, from, to, cap);
        } else {
          assert Holds(before, now, where, k);
        }
      }
    }
  }

  /** Where a collapse of prefix to t sends every other position. */
  ghost function Targets(infer: Infer, view: map<Prefix, Evidence>, prefix: Prefix, t: ValueType): map<Prefix, Prefix> {
    map k | k in view && k != prefix :: Target(infer, prefix, t, k)
  }

  /** The same with the keys in `rest` still to be moved. */
  ghost function Partly(
    infer: Infer, view: map<Prefix, Evidence>, prefix: Prefix, t: ValueType, rest: set<Prefix>): map<Prefix, Prefix>
  {
    map k | k in view && k != prefix :: if k in rest then k else Target(infer, prefix, t, k)
  }

  /** A key still to be moved elsewhere holds nothing but its own evidence. */
  lemma PartlyOwn(
    infer: Infer, view: map<Prefix, Evidence>, prefix: Prefix, t: ValueType, rest: set<Prefix>, from: Prefix)
    requires from in view && from != prefix && from in rest && Target(infer, prefix, t, from) != from
    ensures Sources(Partly(infer, view, prefix, t, rest), from) == {from}
  {
    var where := Partly(infer, view, prefix, t, rest);
    forall key | key in where && where[key] == from
      ensures key == from
    {
      TargetIdempotent(infer, prefix, t, key);
    }
    assert where[from] == from;
  }

  lemma PartlyStep(
    infer: Infer, view: map<Prefix, Evidence>, prefix: Prefix, t: ValueType, rest: set<Prefix>, from: Prefix)
    requires from in view && from != prefix && from in rest
    ensures var where := Partly(infer, view, prefix, t, rest);
      && from in where && where[from] == from
      && where[from := Target(infer, prefix, t, from)] == Partly(infer, view, prefix, t, rest - {from})
  {
  }

  /** A collapse loses no evidence but that of the collapsed position: every other position's
      counts, in all and per type, are the sums over the positions sent to it. */
  ghost predicate Rekeyed(
    infer: Infer, before: map<Prefix, Evidence>, after: map<Prefix, Evidence>, prefix: Prefix, t: ValueType)
  {
    Moved(before - {prefix}, after, Targets(infer, before - {prefix}, prefix, t))
  }

  /** The keys sent to one of ks. */
  ghost function SourcesOf(where: map<Prefix, Prefix>, ks: set<Prefix>): set<Prefix> {
    set key | key in where && where[key] in ks
  }

  lemma {:induction false} TallyUnion(view: map<Prefix, Evidence>, xs: set<Prefix>, ys: set<Prefix>, w: Weight)
    requires xs <= view.Keys && ys <= view.Keys && xs !! ys
    ensures Tally(view, xs + ys, w) == Tally(view, xs, w) + Tally(view, ys, w)
  {
    if ys == {} {
      assert xs + ys == xs;
    } else {
      var k :| k in ys;
      TallyRemove(view, ys, w, k);
      TallyRemove(view, xs + ys, w, k);
      assert xs + ys - {k} == xs + (ys - {k});
      TallyUnion(view, xs, ys - {k}, w);
    }
  }

  lemma {:induction false} MovedTally(
    before: map<Prefix, Evidence>, after: map<Prefix, Evidence>, where: map<Prefix, Prefix>, ks: set<Prefix>, w: Weight)
    requires where.Keys <= before.Keys && Moved(before, after, where) && ks <= after.Keys
    ensures Tally(after, ks, w) == Tally(before, SourcesOf(where, ks), w)
  {
    if ks == {} {
      assert SourcesOf(where, ks) == {};
    } else {
      var k :| k in ks;
      TallyRemove(after, ks, w, k);
      MovedTally(before, after, where, ks - {k}, w);
      assert Holds(before, after, where, k);
      assert SourcesOf(where, ks) == SourcesOf(where, ks - {k}) + Sources(where, k);
      TallyUnion(before, SourcesOf(where, ks - {k}), Sources(where, k), w);
    }
  }

  /** Over all positions but the collapsed one, the counts are the same before and after. */
  lemma CollapseKeepsEvidence(
    infer: Infer, before: map<Prefix, Evidence>, after: map<Prefix, Evidence>, prefix: Prefix, t: ValueType, w: Weight)
    requires Rekeyed(infer, before, after, prefix, t)
    ensures Tally(after, after.Keys, w) == Tally(before - {prefix}, before.Keys - {prefix}, w)
  {
    var kept := before - {prefix};
    var where := Targets(infer, kept, prefix, t);
    MovedTally(kept, after, where, after.Keys, w);
    forall key | key in where
      ensures where[key] in after
    {
      assert key in Sources(where, where[key]);
    }
    assert SourcesOf(where, after.Keys) == before.Keys - {prefix};
  }
}
