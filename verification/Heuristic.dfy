/** The fallback join: records alike in client, host, path and method, close together in time. */
module Heuristics {
  import opened Text
  import opened Sorting
  import opened Identifiers
  import opened Events
  import Grouping
  import Windowing

  datatype HeuristicRecord = HeuristicRecord(
    eventID: string, provider: string, clientIP: string, host: string, path: string, verb: string, eventTime: int)

  const DEFAULT_WINDOW := 5_000_000_000

  /** The join key; a record lacking any part of it is not joined. */
  function AttributeKey(r: HeuristicRecord): Option<string> {
    if r.clientIP == "" || r.host == "" || r.path == "" || r.verb == "" || r.eventTime == 0 then None
    else Some(r.clientIP + "|" + r.host + "|" + r.path + "|" + ToUpper(r.verb))
  }

  /** No bar in the parts of the key but the last. */
  predicate BarFree(r: HeuristicRecord) {
    '|' !in r.clientIP && '|' !in r.host && '|' !in r.path
  }

  predicate SameRequest(a: HeuristicRecord, b: HeuristicRecord) {
    a.clientIP == b.clientIP && a.host == b.host && a.path == b.path && ToUpper(a.verb) == ToUpper(b.verb)
  }

  lemma BarAt(a: string, x: string)
    requires '|' !in a
    ensures var text := a + ("|" + x);
      text[|a|] == '|' && (forall i | 0 <= i < |a| :: text[i] != '|') && text[..|a|] == a && text[|a| + 1..] == x
  {
  }

  lemma FirstBar(a: string, x: string, b: string, y: string)
    requires '|' !in a && '|' !in b && a + ("|" + x) == b + ("|" + y)
    ensures a == b && x == y
  {
    BarAt(a, x);
    BarAt(b, y);
  }

  lemma KeyParts(r: HeuristicRecord)
    requires AttributeKey(r).Some?
    ensures AttributeKey(r).value
         == r.clientIP + ("|" + (r.host + ("|" + (r.path + ("|" + ToUpper(r.verb))))))
  {
  }

  /** Every record that says who asked for what, and when, is keyed; the method in any case. */
  lemma KeyedExactly(r: HeuristicRecord)
    ensures AttributeKey(r).None? <==> "" in {r.clientIP, r.host, r.path, r.verb} || r.eventTime == 0
    ensures AttributeKey(r.(verb := ToLower(r.verb))) == AttributeKey(r)
  {
    assert ToUpper(ToLower(r.verb)) == ToUpper(r.verb);
    assert |ToLower(r.verb)| == |r.verb|;
  }

  /** Without bars two records have the same key exactly when they agree on client, host, path and method. */
  lemma SameKeySameRequest(a: HeuristicRecord, b: HeuristicRecord)
    requires AttributeKey(a).Some? && AttributeKey(b).Some? && BarFree(a) && BarFree(b)
    ensures AttributeKey(a) == AttributeKey(b) <==> SameRequest(a, b)
  {
    KeyParts(a);
    KeyParts(b);
    if AttributeKey(a) == AttributeKey(b) {
      var p, q := a.path + ("|" + ToUpper(a.verb)), b.path + ("|" + ToUpper(b.verb));
      FirstBar(a.clientIP, a.host + ("|" + p), b.clientIP, b.host + ("|" + q));
      FirstBar(a.host, p, b.host, q);
      FirstBar(a.path, ToUpper(a.verb), b.path, ToUpper(b.verb));
    }
  }

  /** With a bar two different requests can have one key. */
  lemma BarsConfuse(t: int)
    requires t != 0
    ensures var a := HeuristicRecord("1", "x", "c", "h|p", "q", "GET", t);
      var b := HeuristicRecord("2", "y", "c", "h", "p|q", "GET", t);
      AttributeKey(a).Some? && AttributeKey(a) == AttributeKey(b) && !SameRequest(a, b)
  {
    var a := HeuristicRecord("1", "x", "c", "h|p", "q", "GET", t);
    var b := HeuristicRecord("2", "y", "c", "h", "p|q", "GET", t);
    KeyParts(a);
    KeyParts(b);
    assert "h|p" + ("|" + ("q" + ("|" + ToUpper("GET")))) == "h" + ("|" + ("p|q" + ("|" + ToUpper("GET"))));
    assert |a.host| != |b.host|;
  }

  // ---- buckets ----

  /** The records with key k, in input order. */
  function Bucket(records: seq<HeuristicRecord>, k: string): seq<HeuristicRecord> {
    if records == [] then []
    else
      var n := |records| - 1;
      Bucket(records[..n], k) + if AttributeKey(records[n]) == Some(k) then [records[n]] else []
  }

  predicate NotLater(a: HeuristicRecord, b: HeuristicRecord) {
    a.eventTime < b.eventTime || (a.eventTime == b.eventTime && AtMost(a.eventID, b.eventID))
  }

  /** A bucket by time, ties by event id. */
  function Ordered(records: seq<HeuristicRecord>, k: string): seq<HeuristicRecord> {
    Sort(NotLater, Bucket(records, k))
  }

  // ---- runs ----

  /** Runs of a bucket: a record starts a new one when it is more than the window after the last. */
  function Clusters(bucket: seq<HeuristicRecord>, window: int): (runs: seq<seq<HeuristicRecord>>)
    ensures runs == [] <==> bucket == []
    ensures forall i | 0 <= i < |runs| :: runs[i] != []
    ensures bucket != [] ==> runs[|runs| - 1][|runs[|runs| - 1]| - 1] == bucket[|bucket| - 1]
  {
    if bucket == [] then []
    else
      var n := |bucket| - 1;
      var before := Clusters(bucket[..n], window);
      if n > 0 && bucket[n].eventTime - bucket[n - 1].eventTime <= window then
        before[..|before| - 1] + [before[|before| - 1] + [bucket[n]]]
      else before + [[bucket[n]]]
  }

  function Concat(runs: seq<seq<HeuristicRecord>>): seq<HeuristicRecord> {
    if runs == [] then [] else Concat(runs[..|runs| - 1]) + runs[|runs| - 1]
  }

  lemma ConcatSnoc(runs: seq<seq<HeuristicRecord>>, c: seq<HeuristicRecord>)
    ensures Concat(runs + [c]) == Concat(runs) + c
  {
    assert (runs + [c])[..|runs|] == runs;
  }

  /** No gap inside the run exceeds the window. */
  ghost predicate Tight(run: seq<HeuristicRecord>, window: int) {
    forall i | 0 < i < |run| :: run[i].eventTime - run[i - 1].eventTime <= window
  }

  ghost predicate Apart(a: seq<HeuristicRecord>, b: seq<HeuristicRecord>, window: int) {
    a != [] && b != [] && b[0].eventTime - a[|a| - 1].eventTime > window
  }

  /** The runs in order are the bucket; gaps inside a run are at most the window, between runs larger. */
  ghost predicate IsParted(runs: seq<seq<HeuristicRecord>>, bucket: seq<HeuristicRecord>, window: int) {
    && Concat(runs) == bucket
    && (forall i | 0 <= i < |runs| :: Tight(runs[i], window))
    && forall i | 0 < i < |runs| :: Apart(runs[i - 1], runs[i], window)
  }

  lemma ExtendLast(runs: seq<seq<HeuristicRecord>>, bucket: seq<HeuristicRecord>, window: int, rec: HeuristicRecord)
    requires IsParted(runs, bucket, window) && runs != [] && runs[|runs| - 1] != []
    requires var last := runs[|runs| - 1]; rec.eventTime - last[|last| - 1].eventTime <= window
    ensures IsParted(runs[..|runs| - 1] + [runs[|runs| - 1] + [rec]], bucket + [rec], window)
  {
    var m := |runs| - 1;
    var last := runs[m];
    assert Tight(last, window);
    ConcatSnoc(runs[..m], last + [rec]);
    var after := runs[..m] + [last + [rec]];
    forall i | 0 < i < |after|
      ensures Apart(after[i - 1], after[i], window)
    {
      assert Apart(runs[i - 1], runs[i], window);
    }
  }

  lemma StartRun(runs: seq<seq<HeuristicRecord>>, bucket: seq<HeuristicRecord>, window: int, rec: HeuristicRecord)
    requires IsParted(runs, bucket, window)
    requires runs != [] ==> Apart(runs[|runs| - 1], [rec], window)
    ensures IsParted(runs + [[rec]], bucket + [rec], window)
  {
    ConcatSnoc(runs, [rec]);
    var after := runs + [[rec]];
    forall i | 0 < i < |after|
      ensures Apart(after[i - 1], after[i], window)
    {
      if i < |runs| {
        assert Apart(runs[i - 1], runs[i], window);
      }
    }
  }

  lemma {:induction false} ClustersPartition(bucket: seq<HeuristicRecord>, window: int)
    ensures IsParted(Clusters(bucket, window), bucket, window)
  {
    if bucket != [] {
      var n := |bucket| - 1;
      var before := Clusters(bucket[..n], window);
      ClustersPartition(bucket[..n], window);
      assert bucket == bucket[..n] + [bucket[n]];
      if n > 0 && bucket[n].eventTime - bucket[n - 1].eventTime <= window {
        ExtendLast(before, bucket[..n], window, bucket[n]);
      } else {
        StartRun(before, bucket[..n], window, bucket[n]);
      }
    }
  }

  method ClusterByTime(bucket: seq<HeuristicRecord>, window: int) returns (out: seq<seq<HeuristicRecord>>)
    requires bucket != []
    ensures out == Clusters(bucket, window)
  {
    out := [];
    var current := [bucket[0]];
    assert bucket[..1] == [bucket[0]] && bucket[..1][..0] == [];
    for i := 1 to |bucket|
      invariant current != [] && current[|current| - 1] == bucket[i - 1]
      invariant out + [current] == Clusters(bucket[..i], window)
    {
      assert bucket[..i + 1][..i] == bucket[..i];
      if bucket[i].eventTime - current[|current| - 1].eventTime <= window {
        assert (out + [current])[..|out|] == out;
        current := current + [bucket[i]];
        continue;
      }
      out := out + [current];
      current := [bucket[i]];
    }
    assert bucket[..|bucket|] == bucket;
    out := out + [current];
  }

  // ---- verdicts ----

  function IDs(records: seq<HeuristicRecord>): seq<string> {
    if records == [] then [] else IDs(records[..|records| - 1]) + [records[|records| - 1].eventID]
  }

  function ProvidersOf(records: seq<HeuristicRecord>): set<string> {
    set r | r in records :: r.provider
  }

  ghost predicate OneEach(run: seq<HeuristicRecord>) {
    forall i, j | 0 <= i < j < |run| :: run[i].provider != run[j].provider
  }

  method HasDuplicateProvider(run: seq<HeuristicRecord>) returns (dup: bool)
    ensures dup <==> !OneEach(run)
  {
    var seen: set<string> := {};
    for i := 0 to |run|
      invariant OneEach(run[..i]) && seen == ProvidersOf(run[..i])
    {
      if run[i].provider in seen {
        var r :| r in run[..i] && r.provider == run[i].provider;
        return true;
      }
      assert run[..i + 1] == run[..i] + [run[i]];
      forall j | 0 <= j < i
        ensures run[j].provider != run[i].provider
      {
        assert run[j] in run[..i];
      }
      seen := seen + {run[i].provider};
    }
    assert run[..|run|] == run;
    return false;
  }

  /** What a run becomes: nothing, a component, or ambiguous ids. */
  datatype Joined = Joined(components: seq<Grouping.Component>, ambiguous: seq<string>)

  const NOTHING := Joined([], [])

  lemma {:induction false} IDsLength(records: seq<HeuristicRecord>)
    ensures |IDs(records)| == |records|
  {
    if records != [] {
      IDsLength(records[..|records| - 1]);
    }
  }

  ghost function Component(run: seq<HeuristicRecord>): Grouping.Component
    requires run != []
  {
    var ids := Sort(AtMost, IDs(run));
    IDsLength(run);
    Grouping.Component("heur:" + ids[0], TierHeuristic, ids, Sort(AtMost, Listing(ProvidersOf(run))), false)
  }

  ghost function Judge(j: Joined, run: seq<HeuristicRecord>): Joined {
    if |run| < 2 then j
    else if !OneEach(run) then j.(ambiguous := j.ambiguous + IDs(run))
    else j.(components := j.components + [Component(run)])
  }

  ghost function JudgeAll(j: Joined, runs: seq<seq<HeuristicRecord>>): Joined {
    if runs == [] then j else Judge(JudgeAll(j, runs[..|runs| - 1]), runs[|runs| - 1])
  }

  ghost function JoinKeys(records: seq<HeuristicRecord>, window: int, ks: seq<string>): Joined {
    if ks == [] then NOTHING
    else JudgeAll(JoinKeys(records, window, ks[..|ks| - 1]), Clusters(Ordered(records, ks[|ks| - 1]), window))
  }

  /** Some record has the key. */
  predicate IsKey(records: seq<HeuristicRecord>, k: string) {
    Bucket(records, k) != []
  }

  ghost predicate AreKeys(records: seq<HeuristicRecord>, ks: seq<string>) {
    Ascending(ks) && forall k :: k in ks <==> IsKey(records, k)
  }

  ghost function Tidied(j: Joined): Joined {
    Joined(Sort(Grouping.KeyAtMost, j.components), Sort(AtMost, j.ambiguous))
  }

  /** The join over the keys in order, its components and its ambiguous ids sorted. */
  ghost predicate IsHeuristic(records: seq<HeuristicRecord>, window: int, out: Joined) {
    exists ks {:trigger JoinKeys(records, window, ks)} ::
      AreKeys(records, ks) && out == Tidied(JoinKeys(records, window, ks))
  }

  // ---- no record is joined twice ----

  function Flat(components: seq<Grouping.Component>): seq<string> {
    if components == [] then [] else Flat(components[..|components| - 1]) + components[|components| - 1].eventIDs
  }

  /** Everything a verdict names. */
  ghost function NamedIn(j: Joined): multiset<string> {
    multiset(Flat(j.components)) + multiset(j.ambiguous)
  }

  lemma FlatSnoc(cs: seq<Grouping.Component>, c: Grouping.Component)
    ensures Flat(cs + [c]) == Flat(cs) + c.eventIDs
  {
    assert (cs + [c])[..|cs|] == cs;
  }

  lemma FlatNone()
    ensures Flat([]) == []
  {
  }

  lemma {:induction false} FlatAppend(xs: seq<Grouping.Component>, ys: seq<Grouping.Component>)
    ensures Flat(xs + ys) == Flat(xs) + Flat(ys)
  {
    hide *;
    if ys == [] {
      FlatNone();
      assert xs + ys == xs;
    } else {
      var n := |ys| - 1;
      FlatAppend(xs, ys[..n]);
      FlatSnoc(ys[..n], ys[n]);
      FlatSnoc(xs + ys[..n], ys[n]);
      assert ys == ys[..n] + [ys[n]] && xs + ys == xs + ys[..n] + [ys[n]];
    }
  }

  lemma {:induction false} FlatPermuted(xs: seq<Grouping.Component>, ys: seq<Grouping.Component>)
    requires multiset(xs) == multiset(ys)
    ensures multiset(Flat(xs)) == multiset(Flat(ys))
    decreases |xs|
  {
    hide *;
    if xs == [] {
      assert |multiset(ys)| == 0;
    } else {
      var n := |xs| - 1;
      var j := TakeOut(xs, ys);
      var left, right := ys[..j], ys[j + 1..];
      FlatPermuted(xs[..n], left + right);
      FlatSnoc(xs[..n], xs[n]);
      FlatSnoc(left, ys[j]);
      FlatAppend(left, right);
      FlatAppend(left + [ys[j]], right);
      assert xs == xs[..n] + [xs[n]] && ys == left + [ys[j]] + right;
    }
  }

  lemma JudgeNames(j: Joined, run: seq<HeuristicRecord>)
    ensures NamedIn(Judge(j, run)) <= NamedIn(j) + multiset(IDs(run))
  {
    if |run| >= 2 && OneEach(run) {
      var c := Component(run);
      assert (j.components + [c])[..|j.components|] == j.components;
    }
  }

  lemma {:induction false} IDsAppend(xs: seq<HeuristicRecord>, ys: seq<HeuristicRecord>)
    ensures IDs(xs + ys) == IDs(xs) + IDs(ys)
  {
    if ys == [] {
      assert xs + ys == xs;
    } else {
      var n := |ys| - 1;
      IDsAppend(xs, ys[..n]);
      assert (xs + ys)[..|xs + ys| - 1] == xs + ys[..n];
    }
  }

  lemma {:induction false} JudgeAllNames(j: Joined, runs: seq<seq<HeuristicRecord>>)
    ensures NamedIn(JudgeAll(j, runs)) <= NamedIn(j) + multiset(IDs(Concat(runs)))
  {
    if runs != [] {
      var n := |runs| - 1;
      JudgeAllNames(j, runs[..n]);
      JudgeNames(JudgeAll(j, runs[..n]), runs[n]);
      IDsAppend(Concat(runs[..n]), runs[n]);
    }
  }

  lemma {:induction false} IDsPermuted(xs: seq<HeuristicRecord>, ys: seq<HeuristicRecord>)
    requires multiset(xs) == multiset(ys)
    ensures multiset(IDs(xs)) == multiset(IDs(ys))
    decreases |xs|
  {
    if xs == [] {
      assert |multiset(ys)| == 0;
    } else {
      var n := |xs| - 1;
      var j := TakeOut(xs, ys);
      IDsPermuted(xs[..n], ys[..j] + ys[j + 1..]);
      IDsAppend(ys[..j], ys[j + 1..]);
      IDsAppend(ys[..j], [xs[n]]);
      IDsAppend(ys[..j] + [xs[n]], ys[j + 1..]);
      assert [xs[n]][..0] == [];
    }
  }

  /** The records whose key is among ks. */
  function Keyed(records: seq<HeuristicRecord>, ks: seq<string>): seq<HeuristicRecord> {
    if records == [] then []
    else
      var n := |records| - 1;
      var k := AttributeKey(records[n]);
      Keyed(records[..n], ks) + if k.Some? && k.value in ks then [records[n]] else []
  }

  lemma {:induction false} KeyedMore(records: seq<HeuristicRecord>, ks: seq<string>, k: string)
    requires k !in ks
    ensures multiset(Keyed(records, ks + [k])) == multiset(Keyed(records, ks)) + multiset(Bucket(records, k))
  {
    if records != [] {
      var n := |records| - 1;
      KeyedMore(records[..n], ks, k);
      var key := AttributeKey(records[n]);
      if key == Some(k) {
        assert Keyed(records, ks) == Keyed(records[..n], ks) + [];
      } else if key.Some? && key.value in ks {
        assert Bucket(records, k) == Bucket(records[..n], k) + [];
      } else {
        assert Keyed(records, ks) == Keyed(records[..n], ks) + [] && Bucket(records, k) == Bucket(records[..n], k) + [];
        assert Keyed(records, ks + [k]) == Keyed(records[..n], ks + [k]) + [];
      }
    }
  }

  lemma {:induction false} KeyedWithin(records: seq<HeuristicRecord>, ks: seq<string>)
    ensures multiset(IDs(Keyed(records, ks))) <= multiset(IDs(records))
  {
    if records != [] {
      var n := |records| - 1;
      var before, key := Keyed(records[..n], ks), AttributeKey(records[n]);
      KeyedWithin(records[..n], ks);
      if key.Some? && key.value in ks {
        assert (before + [records[n]])[..|before|] == before;
      } else {
        assert Keyed(records, ks) == before + [] == before;
      }
    }
  }

  lemma {:induction false} JoinKeysNames(records: seq<HeuristicRecord>, window: int, ks: seq<string>)
    requires Distinct(ks)
    ensures NamedIn(JoinKeys(records, window, ks)) <= multiset(IDs(Keyed(records, ks)))
  {
    if ks == [] {
    } else {
      var n := |ks| - 1;
      var k := ks[n];
      assert ks == ks[..n] + [k];
      JoinKeysNames(records, window, ks[..n]);
      KeyedMore(records, ks[..n], k);
      JudgeAllNames(JoinKeys(records, window, ks[..n]), Clusters(Ordered(records, k), window));
      ClustersPartition(Ordered(records, k), window);
      IDsPermuted(Ordered(records, k), Bucket(records, k));
      IDsPermuted(Keyed(records, ks), Keyed(records, ks[..n]) + Bucket(records, k));
      IDsAppend(Keyed(records, ks[..n]), Bucket(records, k));
    }
  }

  lemma AscendingDistinct(ks: seq<string>)
    requires Ascending(ks)
    ensures Distinct(ks)
  {
    forall i, j | 0 <= i < j < |ks|
      ensures ks[i] != ks[j]
    {
      LessIrreflexive(ks[i]);
    }
  }

  /** Components and ambiguous ids together name no more than the records' ids, each as often. */
  lemma NamesConserved(records: seq<HeuristicRecord>, window: int, out: Joined)
    requires IsHeuristic(records, window, out)
    ensures NamedIn(out) <= multiset(IDs(records))
  {
    var ks :| AreKeys(records, ks) && out == Tidied(JoinKeys(records, window, ks));
    var j := JoinKeys(records, window, ks);
    AscendingDistinct(ks);
    JoinKeysNames(records, window, ks);
    KeyedWithin(records, ks);
    FlatPermuted(out.components, j.components);
  }

  /** With distinct event ids no id is in two components, twice in one, or both joined and ambiguous. */
  lemma JoinedOnce(records: seq<HeuristicRecord>, window: int, out: Joined, id: string)
    requires IsHeuristic(records, window, out) && Distinct(IDs(records))
    ensures NamedIn(out)[id] <= 1
  {
    NamesConserved(records, window, out);
    OccursOnce(IDs(records), id);
  }

  // ---- what a component is made of ----

  lemma {:induction false} BucketWithin(records: seq<HeuristicRecord>, k: string)
    ensures forall r :: r in Bucket(records, k) ==> r in records && AttributeKey(r) == Some(k)
  {
    if records != [] {
      BucketWithin(records[..|records| - 1], k);
    }
  }

  /** Records of the input alike in their key, each at most the window after the one before. */
  ghost predicate Alike(run: seq<HeuristicRecord>, records: seq<HeuristicRecord>, window: int) {
    && Tight(run, window)
    && exists k :: forall r | r in run :: r in records && AttributeKey(r) == Some(k)
  }

  /** The component joins at least two such records, no two of one provider. */
  ghost predicate FromRun(c: Grouping.Component, run: seq<HeuristicRecord>, records: seq<HeuristicRecord>, window: int)
  {
    |run| >= 2 && OneEach(run) && Alike(run, records, window) && c == Component(run)
  }

  ghost predicate AllFromRuns(components: seq<Grouping.Component>, records: seq<HeuristicRecord>, window: int) {
    forall c | c in components :: exists run :: FromRun(c, run, records, window)
  }

  lemma {:induction false} JudgeAllFromRuns(
    j: Joined, runs: seq<seq<HeuristicRecord>>, records: seq<HeuristicRecord>, window: int)
    requires AllFromRuns(j.components, records, window)
    requires forall run | run in runs :: Alike(run, records, window)
    ensures AllFromRuns(JudgeAll(j, runs).components, records, window)
  {
    hide Component, Alike, AttributeKey, OneEach;
    if runs != [] {
      var n := |runs| - 1;
      JudgeAllFromRuns(j, runs[..n], records, window);
      var run := runs[n];
      if |run| >= 2 && OneEach(run) {
        assert FromRun(Component(run), run, records, window);
      }
    }
  }

  lemma {:induction false} ConcatHolds(runs: seq<seq<HeuristicRecord>>, i: nat)
    requires i < |runs|
    ensures forall r | r in runs[i] :: r in Concat(runs)
  {
    var n := |runs| - 1;
    if i < n {
      ConcatHolds(runs[..n], i);
    }
  }

  /** The runs of a key's bucket are alike. */
  lemma RunsAlike(records: seq<HeuristicRecord>, window: int, k: string, run: seq<HeuristicRecord>)
    requires run in Clusters(Ordered(records, k), window)
    ensures Alike(run, records, window)
  {
    var runs := Clusters(Ordered(records, k), window);
    var i :| 0 <= i < |runs| && runs[i] == run;
    ClustersPartition(Ordered(records, k), window);
    ConcatHolds(runs, i);
    SameElements(Bucket(records, k), Ordered(records, k));
    BucketWithin(records, k);
    assert forall r | r in run :: r in records && AttributeKey(r) == Some(k);
  }

  lemma {:induction false} JoinKeysFromRuns(records: seq<HeuristicRecord>, window: int, ks: seq<string>)
    ensures AllFromRuns(JoinKeys(records, window, ks).components, records, window)
  {
    if ks != [] {
      var n := |ks| - 1;
      JoinKeysFromRuns(records, window, ks[..n]);
      var runs := Clusters(Ordered(records, ks[n]), window);
      forall run | run in runs
        ensures Alike(run, records, window)
      {
        RunsAlike(records, window, ks[n], run);
      }
      JudgeAllFromRuns(JoinKeys(records, window, ks[..n]), runs, records, window);
    }
  }

  /** Every component joins records of one key, close in time, no two of one provider. */
  lemma JoinsAlike(records: seq<HeuristicRecord>, window: int, out: Joined, c: Grouping.Component)
    returns (run: seq<HeuristicRecord>)
    requires IsHeuristic(records, window, out) && c in out.components
    ensures FromRun(c, run, records, window)
  {
    var ks :| AreKeys(records, ks) && out == Tidied(JoinKeys(records, window, ks));
    JoinKeysFromRuns(records, window, ks);
    SameElements(JoinKeys(records, window, ks).components, out.components);
    run :| FromRun(c, run, records, window);
  }

  /** Records a component joins without bars in their fields are of one client, host, path and method. */
  lemma JoinsOneRequest(
    records: seq<HeuristicRecord>, window: int, c: Grouping.Component, run: seq<HeuristicRecord>,
    a: HeuristicRecord, b: HeuristicRecord)
    requires FromRun(c, run, records, window) && a in run && b in run && BarFree(a) && BarFree(b)
    ensures SameRequest(a, b)
  {
    SameKeySameRequest(a, b);
  }

  lemma {:induction false} ProvidersCount(run: seq<HeuristicRecord>)
    requires OneEach(run)
    ensures |ProvidersOf(run)| == |run|
  {
    if run != [] {
      var n := |run| - 1;
      ProvidersCount(run[..n]);
      assert run == run[..n] + [run[n]];
      assert ProvidersOf(run) == ProvidersOf(run[..n]) + {run[n].provider};
    }
  }

  lemma ListingSize(s: set<string>)
    ensures |Listing(s)| == |s|
  {
    assert |multiset(Listing(s))| == |multiset(s)|;
  }

  /** Every component has as many providers as events, and at least two. */
  lemma OneRecordPerProvider(records: seq<HeuristicRecord>, window: int, out: Joined, c: Grouping.Component)
    requires IsHeuristic(records, window, out) && c in out.components
    ensures |c.providers| == |c.eventIDs| >= 2 && c.tier == TierHeuristic
  {
    var run := JoinsAlike(records, window, out, c);
    IDsLength(run);
    ProvidersCount(run);
    ListingSize(ProvidersOf(run));
  }

  // ---- every run is judged ----

  lemma {:induction false} IDsHas(records: seq<HeuristicRecord>, id: string)
    ensures id in IDs(records) <==> exists r | r in records :: r.eventID == id
  {
    if records != [] {
      var n := |records| - 1;
      IDsHas(records[..n], id);
      assert records == records[..n] + [records[n]];
    }
  }

  lemma {:induction false} BucketHas(records: seq<HeuristicRecord>, k: string)
    ensures forall r :: r in Bucket(records, k) <==> r in records && AttributeKey(r) == Some(k)
  {
    hide AttributeKey;
    if records != [] {
      var n := |records| - 1;
      BucketHas(records[..n], k);
      assert records == records[..n] + [records[n]];
    }
  }

  lemma NotLaterIsTotal()
    ensures TotalPreorder(NotLater)
  {
    forall a: HeuristicRecord, b: HeuristicRecord, c: HeuristicRecord
      ensures NotLater(a, b) || NotLater(b, a)
      ensures NotLater(a, b) && NotLater(b, c) ==> NotLater(a, c)
    {
      AtMostOrders(a.eventID, b.eventID, c.eventID);
      AtMostOrders(b.eventID, a.eventID, c.eventID);
    }
  }

  /** The records of a key, in order of time and then of id. */
  lemma OrderedIs(records: seq<HeuristicRecord>, k: string)
    ensures forall r :: r in Ordered(records, k) <==> r in records && AttributeKey(r) == Some(k)
    ensures var o := Ordered(records, k);
      forall i, j | 0 <= i < j < |o| ::
        o[i].eventTime < o[j].eventTime || (o[i].eventTime == o[j].eventTime && AtMost(o[i].eventID, o[j].eventID))
  {
    hide AttributeKey, AtMost;
    BucketHas(records, k);
    NotLaterIsTotal();
    SortSorted(NotLater, Bucket(records, k));
    SameElements(Bucket(records, k), Ordered(records, k));
  }

  /** A component names the ids and the providers of the records it joins, in order, each provider once. */
  lemma ComponentIs(run: seq<HeuristicRecord>)
    requires run != []
    ensures var c := Component(run);
      && c.tier == TierHeuristic && !c.bridged && Sorted(AtMost, c.eventIDs) && c.eventIDs != []
      && multiset(c.eventIDs) == multiset(IDs(run)) && c.key == "heur:" + c.eventIDs[0]
      && Sorted(AtMost, c.providers) && Distinct(c.providers)
      && forall p :: p in c.providers <==> exists r | r in run :: r.provider == p
  {
    var c := Component(run);
    hide AtMost;
    IDsLength(run);
    AtMostIsTotal();
    SortSorted(AtMost, IDs(run));
    SortSorted(AtMost, Listing(ProvidersOf(run)));
    Grouping.ListedOnce(ProvidersOf(run), c.providers);
  }

  /** This run is joined into c. */
  ghost predicate JoinsRun(run: seq<HeuristicRecord>, c: Grouping.Component) {
    |run| >= 2 && OneEach(run) && c == Component(run)
  }

  /** This run makes id ambiguous. */
  ghost predicate Confuses(run: seq<HeuristicRecord>, id: string) {
    |run| >= 2 && !OneEach(run) && id in IDs(run)
  }

  lemma {:induction false} JudgeAllHas(
    j: Joined, runs: seq<seq<HeuristicRecord>>, c: Grouping.Component, id: string)
    ensures c in JudgeAll(j, runs).components
       <==> c in j.components || exists run | run in runs :: JoinsRun(run, c)
    ensures id in JudgeAll(j, runs).ambiguous
       <==> id in j.ambiguous || exists run | run in runs :: Confuses(run, id)
  {
    hide Component, OneEach, IDs;
    if runs != [] {
      var n := |runs| - 1;
      JudgeAllHas(j, runs[..n], c, id);
      assert runs == runs[..n] + [runs[n]];
      assert runs[n] in runs;
      var before, after := JudgeAll(j, runs[..n]), JudgeAll(j, runs);
      assert c in after.components <==> c in before.components || JoinsRun(runs[n], c);
      assert id in after.ambiguous <==> id in before.ambiguous || Confuses(runs[n], id);
    }
  }

  /** One of the runs that a key's records are cut into. */
  ghost predicate IsRun(records: seq<HeuristicRecord>, window: int, k: string, run: seq<HeuristicRecord>) {
    run in Clusters(Ordered(records, k), window)
  }

  lemma {:induction false} JoinKeysHas(
    records: seq<HeuristicRecord>, window: int, ks: seq<string>, c: Grouping.Component, id: string)
    ensures c in JoinKeys(records, window, ks).components
       <==> exists k, run | k in ks && IsRun(records, window, k, run) :: JoinsRun(run, c)
    ensures id in JoinKeys(records, window, ks).ambiguous
       <==> exists k, run | k in ks && IsRun(records, window, k, run) :: Confuses(run, id)
  {
    hide JoinsRun, Confuses, Clusters, Ordered, JudgeAll;
    if ks != [] {
      var n := |ks| - 1;
      JoinKeysHas(records, window, ks[..n], c, id);
      JudgeAllHas(JoinKeys(records, window, ks[..n]), Clusters(Ordered(records, ks[n]), window), c, id);
      assert ks == ks[..n] + [ks[n]];
      assert forall k :: k in ks <==> k in ks[..n] || k == ks[n];
      var runs := Clusters(Ordered(records, ks[n]), window);
      forall run
        ensures run in runs <==> IsRun(records, window, ks[n], run)
      {
      }
      if run :| run in runs && JoinsRun(run, c) {
        assert IsRun(records, window, ks[n], run);
      }
      if run :| run in runs && Confuses(run, id) {
        assert IsRun(records, window, ks[n], run);
      }
    }
  }

  lemma OnlyKeysRun(records: seq<HeuristicRecord>, window: int, k: string, run: seq<HeuristicRecord>)
    requires IsRun(records, window, k, run)
    ensures IsKey(records, k)
  {
    assert |multiset(Ordered(records, k))| == |multiset(Bucket(records, k))|;
  }

  /** The result joins exactly the runs of at least two records with one provider each, and reports as ambiguous
      exactly the ids of those of at least two with a provider twice. */
  lemma RunsJudged(records: seq<HeuristicRecord>, window: int, out: Joined, c: Grouping.Component, id: string)
    requires IsHeuristic(records, window, out)
    ensures c in out.components <==> exists k, run | IsRun(records, window, k, run) :: JoinsRun(run, c)
    ensures id in out.ambiguous <==> exists k, run | IsRun(records, window, k, run) :: Confuses(run, id)
  {
    hide JoinsRun, Confuses, IsRun, JoinKeys, IsKey;
    var ks :| AreKeys(records, ks) && out == Tidied(JoinKeys(records, window, ks));
    var j := JoinKeys(records, window, ks);
    SameElements(j.components, out.components);
    SameElements(j.ambiguous, out.ambiguous);
    JoinKeysHas(records, window, ks, c, id);
    forall k, run | IsRun(records, window, k, run)
      ensures k in ks
    {
      OnlyKeysRun(records, window, k, run);
    }
  }

  lemma {:induction false} FlatHas(components: seq<Grouping.Component>, id: string)
    ensures id in Flat(components) <==> exists c | c in components :: id in c.eventIDs
  {
    if components != [] {
      var n := |components| - 1;
      FlatHas(components[..n], id);
      assert components == components[..n] + [components[n]];
    }
  }

  lemma JoinsIDs(run: seq<HeuristicRecord>, c: Grouping.Component, id: string)
    requires JoinsRun(run, c)
    ensures id in c.eventIDs <==> id in IDs(run)
  {
    ComponentIs(run);
    SameElements(c.eventIDs, IDs(run));
  }

  lemma NamedRun(records: seq<HeuristicRecord>, window: int, out: Joined, id: string)
    requires IsHeuristic(records, window, out)
    requires id in out.ambiguous || exists c | c in out.components :: id in c.eventIDs
    ensures exists k, run | IsRun(records, window, k, run) :: |run| >= 2 && id in IDs(run)
  {
    hide IsHeuristic, IsRun, Component, IDs, OneEach;
    if id in out.ambiguous {
      RunsJudged(records, window, out, Grouping.Component("", TierNone, [], [], false), id);
    } else {
      var c :| c in out.components && id in c.eventIDs;
      RunsJudged(records, window, out, c, id);
      var k, run :| IsRun(records, window, k, run) && JoinsRun(run, c);
      JoinsIDs(run, c, id);
    }
  }

  lemma RunNamed(
    records: seq<HeuristicRecord>, window: int, out: Joined, id: string, k: string, run: seq<HeuristicRecord>)
    requires IsHeuristic(records, window, out) && IsRun(records, window, k, run) && |run| >= 2 && id in IDs(run)
    ensures id in out.ambiguous || exists c | c in out.components :: id in c.eventIDs
  {
    hide IsHeuristic, IsRun, Component, IDs;
    var c := Component(run);
    RunsJudged(records, window, out, c, id);
    if OneEach(run) {
      assert JoinsRun(run, c);
      JoinsIDs(run, c, id);
    } else {
      assert Confuses(run, id);
    }
  }

  /** With distinct event ids an id is named once if its record is in a run of at least two, and not at all
      otherwise. */
  lemma NamedExactly(records: seq<HeuristicRecord>, window: int, out: Joined, id: string)
    requires IsHeuristic(records, window, out) && Distinct(IDs(records))
    ensures NamedIn(out)[id]
         == if exists k, run | IsRun(records, window, k, run) :: |run| >= 2 && id in IDs(run) then 1 else 0
  {
    JoinedOnce(records, window, out, id);
    FlatHas(out.components, id);
    assert id in NamedIn(out) <==> id in Flat(out.components) || id in out.ambiguous;
    hide IsHeuristic, IsRun, NamedIn, Component, IDs, OneEach, Flat;
    if id in NamedIn(out) {
      NamedRun(records, window, out, id);
    }
    if k, run :| IsRun(records, window, k, run) && |run| >= 2 && id in IDs(run) {
      RunNamed(records, window, out, id, k, run);
    }
  }

  // ---- the input order does not matter ----

  lemma {:induction false} BucketAppend(xs: seq<HeuristicRecord>, ys: seq<HeuristicRecord>, k: string)
    ensures Bucket(xs + ys, k) == Bucket(xs, k) + Bucket(ys, k)
  {
    if ys == [] {
      assert xs + ys == xs;
    } else {
      var n := |ys| - 1;
      BucketAppend(xs, ys[..n], k);
      assert (xs + ys)[..|xs + ys| - 1] == xs + ys[..n];
    }
  }

  lemma {:induction false} BucketPermuted(xs: seq<HeuristicRecord>, ys: seq<HeuristicRecord>, k: string)
    requires multiset(xs) == multiset(ys)
    ensures multiset(Bucket(xs, k)) == multiset(Bucket(ys, k))
    decreases |xs|
  {
    if xs == [] {
      assert |multiset(ys)| == 0;
    } else {
      var n := |xs| - 1;
      var j := TakeOut(xs, ys);
      BucketPermuted(xs[..n], ys[..j] + ys[j + 1..], k);
      BucketAppend(xs[..n], [xs[n]], k);
      assert xs == xs[..n] + [xs[n]];
      BucketAppend(ys[..j], ys[j + 1..], k);
      BucketAppend(ys[..j], [ys[j]], k);
      BucketAppend(ys[..j] + [ys[j]], ys[j + 1..], k);
    }
  }

  lemma {:induction false} IDAt(records: seq<HeuristicRecord>, i: nat)
    requires i < |records|
    ensures |IDs(records)| == |records| && IDs(records)[i] == records[i].eventID
  {
    IDsLength(records);
    var n := |records| - 1;
    IDsLength(records[..n]);
    if i < n {
      IDAt(records[..n], i);
    }
  }

  /** Ties in time are settled by event id, and distinct ids leave no tie between different records. */
  lemma DistinctTies(records: seq<HeuristicRecord>, k: string)
    requires Distinct(IDs(records))
    ensures TiesEqual(NotLater, Bucket(records, k))
  {
    BucketWithin(records, k);
    forall a, b | a in Bucket(records, k) && b in Bucket(records, k) && NotLater(a, b) && NotLater(b, a)
      ensures a == b
    {
      AtMostOrders(a.eventID, b.eventID, a.eventID);
      var i :| 0 <= i < |records| && records[i] == a;
      var j :| 0 <= j < |records| && records[j] == b;
      IDAt(records, i);
      IDAt(records, j);
    }
  }

  lemma OrderedForgets(records: seq<HeuristicRecord>, other: seq<HeuristicRecord>, k: string)
    requires multiset(records) == multiset(other) && Distinct(IDs(records))
    ensures Ordered(records, k) == Ordered(other, k)
  {
    NotLaterIsTotal();
    DistinctTies(records, k);
    BucketPermuted(records, other, k);
    SortCanonical(NotLater, Bucket(records, k), Bucket(other, k));
  }

  lemma {:induction false} JoinKeysForgets(
    records: seq<HeuristicRecord>, other: seq<HeuristicRecord>, window: int, ks: seq<string>)
    requires multiset(records) == multiset(other) && Distinct(IDs(records))
    ensures JoinKeys(records, window, ks) == JoinKeys(other, window, ks)
  {
    if ks != [] {
      var n := |ks| - 1;
      JoinKeysForgets(records, other, window, ks[..n]);
      OrderedForgets(records, other, ks[n]);
    }
  }

  /** With distinct event ids the result does not depend on the order the records came in. */
  lemma InputOrderIrrelevant(
    records: seq<HeuristicRecord>, other: seq<HeuristicRecord>, window: int, a: Joined, b: Joined)
    requires multiset(records) == multiset(other) && Distinct(IDs(records))
    requires IsHeuristic(records, window, a) && IsHeuristic(other, window, b)
    ensures a == b
  {
    var ks :| AreKeys(records, ks) && a == Tidied(JoinKeys(records, window, ks));
    var ls :| AreKeys(other, ls) && b == Tidied(JoinKeys(other, window, ls));
    forall k
      ensures IsKey(records, k) <==> IsKey(other, k)
    {
      BucketPermuted(records, other, k);
    }
    AscendingUnique(ks, ls);
    JoinKeysForgets(records, other, window, ks);
  }

  // ---- the algorithm ----

  ghost predicate GroupedAt(byKey: map<string, seq<HeuristicRecord>>, records: seq<HeuristicRecord>, k: string) {
    && (k in byKey <==> IsKey(records, k))
    && (k in byKey ==> byKey[k] == Bucket(records, k))
  }

  method AddToBucket(byKey: map<string, seq<HeuristicRecord>>, records: seq<HeuristicRecord>, i: nat)
    returns (now: map<string, seq<HeuristicRecord>>)
    requires i < |records|
    requires forall k {:trigger GroupedAt(byKey, records[..i], k)} :: GroupedAt(byKey, records[..i], k)
    ensures forall k {:trigger GroupedAt(now, records[..i + 1], k)} :: GroupedAt(now, records[..i + 1], k)
  {
    var key := AttributeKey(records[i]);
    now := byKey;
    if key.Some? {
      now := byKey[key.value := (if key.value in byKey then byKey[key.value] else []) + [records[i]]];
    }
    assert records[..i + 1][..i] == records[..i];
    forall k {:trigger GroupedAt(now, records[..i + 1], k)}
      ensures GroupedAt(now, records[..i + 1], k)
    {
      assert GroupedAt(byKey, records[..i], k);
    }
  }

  method GroupByKey(records: seq<HeuristicRecord>) returns (byKey: map<string, seq<HeuristicRecord>>)
    ensures forall k {:trigger GroupedAt(byKey, records, k)} :: GroupedAt(byKey, records, k)
  {
    byKey := map[];
    for i := 0 to |records|
      invariant forall k {:trigger GroupedAt(byKey, records[..i], k)} :: GroupedAt(byKey, records[..i], k)
    {
      byKey := AddToBucket(byKey, records, i);
    }
    assert records[..|records|] == records;
  }

  method BuildComponent(run: seq<HeuristicRecord>) returns (c: Grouping.Component)
    requires run != []
    ensures c == Component(run)
  {
    var ids: seq<string> := [];
    var providers: set<string> := {};
    for i := 0 to |run|
      invariant ids == IDs(run[..i]) && providers == ProvidersOf(run[..i])
    {
      assert run[..i + 1][..i] == run[..i] && run[..i + 1] == run[..i] + [run[i]];
      ids, providers := ids + [run[i].eventID], providers + {run[i].provider};
    }
    assert run[..|run|] == run;
    IDsLength(run);
    var listed := Grouping.ListSet(providers);
    AtMostIsTotal();
    StringTies(listed);
    SortCanonical(AtMost, listed, Listing(providers));
    var sorted := Sort(AtMost, ids);
    c := Grouping.Component("heur:" + sorted[0], TierHeuristic, sorted, Sort(AtMost, listed), false);
  }

  method JudgeRun(j: Joined, run: seq<HeuristicRecord>) returns (next: Joined)
    ensures next == Judge(j, run)
  {
    if |run| < 2 {
      return j;
    }
    var dup := HasDuplicateProvider(run);
    if dup {
      var ambiguous := j.ambiguous;
      for i := 0 to |run|
        invariant ambiguous == j.ambiguous + IDs(run[..i])
      {
        assert run[..i + 1][..i] == run[..i];
        ambiguous := ambiguous + [run[i].eventID];
      }
      assert run[..|run|] == run;
      return j.(ambiguous := ambiguous);
    }
    var c := BuildComponent(run);
    next := j.(components := j.components + [c]);
  }

  method JudgeBucket(j: Joined, bucket: seq<HeuristicRecord>, window: int) returns (next: Joined)
    requires bucket != []
    ensures next == JudgeAll(j, Clusters(bucket, window))
  {
    var runs := ClusterByTime(bucket, window);
    next := j;
    for i := 0 to |runs|
      invariant next == JudgeAll(j, runs[..i])
    {
      assert runs[..i + 1][..i] == runs[..i];
      next := JudgeRun(next, runs[i]);
    }
    assert runs[..|runs|] == runs;
  }

  /** One key's bucket, put in order and judged run by run. */
  method JudgeKey(j: Joined, bucket: seq<HeuristicRecord>, window: int) returns (next: Joined)
    requires bucket != []
    ensures next == JudgeAll(j, Clusters(Sort(NotLater, bucket), window))
  {
    next := JudgeBucket(j, Sort(NotLater, bucket), window);
  }

  lemma KeysListed(records: seq<HeuristicRecord>, byKey: map<string, seq<HeuristicRecord>>, ks: seq<string>)
    requires forall k {:trigger GroupedAt(byKey, records, k)} :: GroupedAt(byKey, records, k)
    requires Ascending(ks) && forall k :: k in ks <==> k in byKey
    ensures AreKeys(records, ks)
  {
    forall k
      ensures k in ks <==> IsKey(records, k)
    {
      assert GroupedAt(byKey, records, k);
    }
  }

  /** Joins the records key by key, run by run. */
  method Heuristic(records: seq<HeuristicRecord>, window: int) returns (out: Joined)
    ensures IsHeuristic(records, if window <= 0 then DEFAULT_WINDOW else window, out)
  {
    var width := if window <= 0 then DEFAULT_WINDOW else window;
    var byKey := GroupByKey(records);
    var ks := Windowing.SortKeys(byKey.Keys);
    KeysListed(records, byKey, ks);
    out := NOTHING;
    for i := 0 to |ks|
      invariant out == JoinKeys(records, width, ks[..i])
    {
      assert ks[..i + 1][..i] == ks[..i];
      assert GroupedAt(byKey, records, ks[i]) && ks[i] in ks;
      out := JudgeKey(out, byKey[ks[i]], width);
    }
    assert ks[..|ks|] == ks;
    out := Joined(Sort(Grouping.KeyAtMost, out.components), Sort(AtMost, out.ambiguous));
  }
}
