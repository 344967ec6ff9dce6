/** Batch correlation: records grouped into components by shared identifiers, transitively. */
module Grouping {
  import opened Text
  import opened Sorting
  import opened Chains
  import opened Identifiers
  import opened UnionFind

  datatype Record = Record(eventID: string, provider: string, identifiers: seq<Identifier>)
  {
    function Ids(): seq<string> {
      Names(identifiers)
    }
  }

  datatype Component = Component(key: string, tier: Tier, eventIDs: seq<string>, providers: seq<string>, bridged: bool)

  /** The identifier lists of the records: the groups that chains hop through. */
  ghost function Groups(records: seq<Record>): (g: seq<seq<string>>)
    ensures |g| == |records|
  {
    seq(|records|, i requires 0 <= i < |records| => records[i].Ids())
  }

  function Mentioned(records: seq<Record>): set<string> {
    set i, x | 0 <= i < |records| && x in records[i].Ids() :: x
  }

  /** Every identifier chained to k. */
  ghost function ClassOf(records: seq<Record>, k: string): set<string> {
    set x | x in Mentioned(records) && Connected(Groups(records), k, x)
  }

  /** k is the smallest identifier of its class. */
  ghost predicate IsKey(records: seq<Record>, k: string) {
    k in Mentioned(records) && forall x | x in ClassOf(records, k) :: AtMost(k, x)
  }

  /** The record has identifiers, and they lie in `members`. */
  predicate Belongs(r: Record, members: set<string>) {
    r.identifiers != [] && r.Ids()[0] in members
  }

  datatype Acc = Acc(ids: set<string>, eventIDs: seq<string>, providers: set<string>, bridged: bool)

  const NO_ACC := Acc({}, [], {}, false)

  function Take(a: Acc, r: Record): Acc {
    Acc(a.ids + (set x | x in r.Ids()), a.eventIDs + [r.eventID], a.providers + {r.provider},
        a.bridged || |r.identifiers| > 1)
  }

  /** What the records of one class contribute, in input order. */
  function Gather(records: seq<Record>, members: set<string>): Acc {
    if records == [] then NO_ACC
    else
      var n := |records| - 1;
      var before := Gather(records[..n], members);
      if Belongs(records[n], members) then Take(before, records[n]) else before
  }

  ghost function Shape(k: string, a: Acc): Component {
    Component(k, TierExact, Sort(AtMost, a.eventIDs), Sort(AtMost, Listing(a.providers)),
              a.bridged && |a.providers| > 1)
  }

  /** The component with canonical key k. */
  ghost function ComponentOf(records: seq<Record>, k: string): Component {
    Shape(k, Gather(records, ClassOf(records, k)))
  }

  ghost predicate IsComponent(records: seq<Record>, c: Component) {
    IsKey(records, c.key) && c == ComponentOf(records, c.key)
  }

  /** `out` lists every class once, ascending by smallest identifier. */
  ghost predicate IsExact(records: seq<Record>, out: seq<Component>) {
    && (forall i, j | 0 <= i < j < |out| :: Less(out[i].key, out[j].key))
    && (forall i | 0 <= i < |out| :: IsComponent(records, out[i]))
    && (forall k | IsKey(records, k) :: exists i :: 0 <= i < |out| && out[i].key == k)
  }

  // ---- what a gathered class holds ----

  ghost predicate Alike(a: Acc, b: Acc) {
    && a.ids == b.ids && a.providers == b.providers && a.bridged == b.bridged
    && multiset(a.eventIDs) == multiset(b.eventIDs)
  }

  lemma {:induction false} GatherHas(records: seq<Record>, members: set<string>, x: string)
    ensures x in Gather(records, members).ids
       <==> exists i :: 0 <= i < |records| && Belongs(records[i], members) && x in records[i].Ids()
  {
    if records != [] {
      var n := |records| - 1;
      GatherHas(records[..n], members, x);
      assert forall i :: 0 <= i < n ==> records[..n][i] == records[i];
    }
  }

  function Without<T>(xs: seq<T>, i: nat): seq<T>
    requires i < |xs|
  {
    xs[..i] + xs[i + 1..]
  }

  lemma TakeAlike(a: Acc, b: Acc, r: Record)
    requires Alike(a, b)
    ensures Alike(Take(a, r), Take(b, r))
  {
  }

  lemma TakeSwaps(a: Acc, r: Record, s: Record)
    ensures Alike(Take(Take(a, r), s), Take(Take(a, s), r))
  {
  }

  lemma AlikeSelf(a: Acc)
    ensures Alike(a, a) && forall r :: Alike(Take(a, r), Take(a, r))
  {
  }

  lemma AlikeToo(a: Acc, b: Acc, c: Acc)
    requires Alike(a, b) && Alike(b, c)
    ensures Alike(a, c)
  {
  }

  /** Taking a record out of the middle and appending it changes nothing but event order. */
  lemma {:induction false} GatherMove(records: seq<Record>, members: set<string>, i: nat)
    requires i < |records|
    ensures var rest := Gather(Without(records, i), members);
      Alike(Gather(records, members), if Belongs(records[i], members) then Take(rest, records[i]) else rest)
    decreases |records|
  {
    hide Belongs, Take, Alike;
    AlikeSelf(Gather(Without(records, i), members));
    var n := |records| - 1;
    if i < n {
      GatherMove(records[..n], members, i);
      assert Without(records, i) == Without(records[..n], i) + [records[n]];
      assert Without(records, i)[..|Without(records, i)| - 1] == Without(records[..n], i);
      var less := Gather(Without(records[..n], i), members);
      var r, s := records[i], records[n];
      TakeAlike(Gather(records[..n], members), if Belongs(r, members) then Take(less, r) else less, s);
      TakeSwaps(less, r, s);
      if Belongs(r, members) && Belongs(s, members) {
        AlikeToo(Gather(records, members), Take(Take(less, r), s), Take(Take(less, s), r));
      }
    } else {
      assert Without(records, i) == records[..n];
    }
  }

  lemma {:induction false} GatherPermuted(xs: seq<Record>, ys: seq<Record>, members: set<string>)
    requires multiset(xs) == multiset(ys)
    ensures Alike(Gather(xs, members), Gather(ys, members))
    decreases |xs|
  {
    SameElements(xs, ys);
    if xs != [] {
      var n := |xs| - 1;
      assert xs[n] in ys;
      var i :| 0 <= i < |ys| && ys[i] == xs[n];
      assert xs == xs[..n] + [xs[n]];
      assert ys == ys[..i] + [ys[i]] + ys[i + 1..];
      assert multiset(Without(ys, i)) == multiset(ys) - multiset{ys[i]};
      GatherPermuted(xs[..n], Without(ys, i), members);
      GatherMove(ys, members, i);
    }
  }

  lemma ShapeAlike(k: string, a: Acc, b: Acc)
    requires Alike(a, b)
    ensures Shape(k, a) == Shape(k, b)
  {
    AtMostIsTotal();
    StringTies(a.eventIDs);
    SortCanonical(AtMost, a.eventIDs, b.eventIDs);
  }

  // ---- the result depends only on which records there are ----

  lemma PermutedIncluded(records: seq<Record>, other: seq<Record>)
    requires multiset(records) == multiset(other)
    ensures Mentioned(records) <= Mentioned(other)
    ensures forall a, b :: Connected(Groups(records), a, b) ==> Connected(Groups(other), a, b)
  {
    SameElements(records, other);
    forall g | g in Groups(records)
      ensures g in Groups(other)
    {
      var i :| 0 <= i < |records| && g == Groups(records)[i];
      assert records[i] in other;
      var j :| 0 <= j < |other| && other[j] == records[i];
      assert Groups(other)[j] == g;
    }
    forall x | x in Mentioned(records)
      ensures x in Mentioned(other)
    {
      var i :| 0 <= i < |records| && x in records[i].Ids();
      assert records[i] in other;
    }
    forall a, b | Connected(Groups(records), a, b)
      ensures Connected(Groups(other), a, b)
    {
      OrderIrrelevant(Groups(records), Groups(other), a, b);
    }
  }

  lemma PermutedClasses(records: seq<Record>, other: seq<Record>)
    requires multiset(records) == multiset(other)
    ensures Mentioned(records) == Mentioned(other)
    ensures SamePartition(Groups(records), Groups(other))
    ensures forall k :: ClassOf(records, k) == ClassOf(other, k)
  {
    PermutedIncluded(records, other);
    PermutedIncluded(other, records);
    forall k
      ensures ClassOf(records, k) == ClassOf(other, k)
    {
      assert forall x :: Connected(Groups(records), k, x) <==> Connected(Groups(other), k, x);
    }
  }

  ghost function Keys(out: seq<Component>): (ks: seq<string>)
    ensures |ks| == |out|
  {
    seq(|out|, i requires 0 <= i < |out| => out[i].key)
  }

  lemma KeysOf(records: seq<Record>, out: seq<Component>, k: string)
    requires IsExact(records, out)
    ensures k in Keys(out) <==> IsKey(records, k)
    ensures Ascending(Keys(out))
  {
    if IsKey(records, k) {
      var i :| 0 <= i < |out| && out[i].key == k;
      assert Keys(out)[i] == k;
    }
  }

  lemma SameComponent(records: seq<Record>, other: seq<Record>, k: string)
    requires multiset(records) == multiset(other)
    ensures ComponentOf(records, k) == ComponentOf(other, k)
  {
    PermutedClasses(records, other);
    GatherPermuted(records, other, ClassOf(records, k));
    ShapeAlike(k, Gather(records, ClassOf(records, k)), Gather(other, ClassOf(records, k)));
  }

  lemma SameKeys(records: seq<Record>, other: seq<Record>, out: seq<Component>, otherOut: seq<Component>)
    requires multiset(records) == multiset(other)
    requires IsExact(records, out) && IsExact(other, otherOut)
    ensures Keys(out) == Keys(otherOut)
  {
    PermutedClasses(records, other);
    forall k
      ensures k in Keys(out) <==> k in Keys(otherOut)
    {
      KeysOf(records, out, k);
      KeysOf(other, otherOut, k);
    }
    KeysOf(records, out, "");
    KeysOf(other, otherOut, "");
    AscendingUnique(Keys(out), Keys(otherOut));
  }

  /** Reordering the input records leaves the output list identical. */
  lemma PermutationInvariant(records: seq<Record>, other: seq<Record>, out: seq<Component>, otherOut: seq<Component>)
    requires multiset(records) == multiset(other)
    requires IsExact(records, out) && IsExact(other, otherOut)
    ensures out == otherOut
  {
    SameKeys(records, other, out, otherOut);
    assert |out| == |Keys(out)| == |Keys(otherOut)| == |otherOut|;
    forall i | 0 <= i < |out|
      ensures out[i] == otherOut[i]
    {
      assert out[i].key == Keys(out)[i] == Keys(otherOut)[i] == otherOut[i].key;
      SameComponent(records, other, out[i].key);
    }
  }

  // ---- a chain of shared identifiers is the same as one component ----

  /** The record is one of those component c was built from. */
  ghost predicate Holds(records: seq<Record>, c: Component, r: Record) {
    Belongs(r, ClassOf(records, c.key))
  }

  lemma RecordMentioned(records: seq<Record>, i: nat)
    requires i < |records| && records[i].identifiers != []
    ensures records[i].Ids()[0] in Mentioned(records)
  {
    assert records[i].Ids()[0] in records[i].Ids();
  }

  /** Every class has a key: its smallest identifier. */
  lemma ClassKey(records: seq<Record>, x: string) returns (k: string)
    requires x in Mentioned(records)
    ensures IsKey(records, k) && x in ClassOf(records, k)
  {
    Equivalence(Groups(records));
    assert x in ClassOf(records, x);
    k := Smallest(ClassOf(records, x));
    assert ClassOf(records, k) == ClassOf(records, x);
  }

  lemma KeyUnique(records: seq<Record>, k: string, l: string, x: string)
    requires IsKey(records, k) && IsKey(records, l)
    requires x in ClassOf(records, k) && x in ClassOf(records, l)
    ensures k == l
  {
    Equivalence(Groups(records));
    assert l in ClassOf(records, k) && k in ClassOf(records, l);
    AtMostOrders(k, l, k);
  }

  /** Each record with identifiers is in exactly one component, and two of them share it
      exactly when a chain of shared identifiers leads from one to the other. */
  lemma SharesComponent(records: seq<Record>, out: seq<Component>, i: nat, j: nat)
    requires IsExact(records, out) && i < |records| && j < |records|
    requires records[i].identifiers != [] && records[j].identifiers != []
    ensures exists c :: 0 <= c < |out| && Holds(records, out[c], records[i])
    ensures forall c, d | 0 <= c < |out| && 0 <= d < |out| ::
      Holds(records, out[c], records[i]) && Holds(records, out[d], records[j]) ==>
      (c == d <==> Connected(Groups(records), records[i].Ids()[0], records[j].Ids()[0]))
  {
    RecordMentioned(records, i);
    RecordMentioned(records, j);
    var a, b := records[i].Ids()[0], records[j].Ids()[0];
    Equivalence(Groups(records));
    var k := ClassKey(records, a);
    var c :| 0 <= c < |out| && out[c].key == k;
    assert Holds(records, out[c], records[i]);
    forall c, d
      | 0 <= c < |out| && 0 <= d < |out| && Holds(records, out[c], records[i]) && Holds(records, out[d], records[j])
      ensures c == d <==> Connected(Groups(records), a, b)
    {
      if Connected(Groups(records), a, b) {
        assert b in ClassOf(records, out[c].key);
        KeyUnique(records, out[c].key, out[d].key, b);
        LessIrreflexive(out[c].key);
      }
    }
  }

  // ---- what a component says of its records ----

  lemma ListedOnce(s: set<string>, xs: seq<string>)
    requires multiset(xs) == multiset(s)
    ensures Distinct(xs) && |xs| == |s| && forall x :: x in xs <==> x in s
  {
    assert |multiset(xs)| == |multiset(s)|;
    forall x
      ensures x in xs <==> x in s
    {
      assert x in multiset(xs) <==> x in multiset(s);
    }
    forall i, j | 0 <= i < j < |xs|
      ensures xs[i] != xs[j]
    {
      if xs[i] == xs[j] {
        OccursTwice(xs, i, j);
      }
    }
  }

  lemma ShapeIs(k: string, a: Acc)
    ensures var c := Shape(k, a);
      && c.key == k && c.tier == TierExact && c.bridged == (a.bridged && |c.providers| > 1)
      && Sorted(AtMost, c.eventIDs) && Sorted(AtMost, c.providers) && Distinct(c.providers)
      && (forall id :: id in c.eventIDs <==> id in a.eventIDs) && forall p :: p in c.providers <==> p in a.providers
  {
    hide AtMost;
    var c := Shape(k, a);
    AtMostIsTotal();
    SortSorted(AtMost, a.eventIDs);
    SortSorted(AtMost, Listing(a.providers));
    SameElements(c.eventIDs, a.eventIDs);
    ListedOnce(a.providers, c.providers);
  }

  /** Some record of the class has this event id. */
  ghost predicate HasEvent(records: seq<Record>, members: set<string>, id: string) {
    exists r :: r in records && Belongs(r, members) && r.eventID == id
  }

  ghost predicate HasProvider(records: seq<Record>, members: set<string>, p: string) {
    exists r :: r in records && Belongs(r, members) && r.provider == p
  }

  /** Some record of the class carries several identifiers. */
  ghost predicate HasBridge(records: seq<Record>, members: set<string>) {
    exists r :: r in records && Belongs(r, members) && |r.identifiers| > 1
  }

  lemma {:induction false} GatherIs(records: seq<Record>, members: set<string>)
    ensures var a := Gather(records, members);
      && (forall id :: id in a.eventIDs <==> HasEvent(records, members, id))
      && (forall p :: p in a.providers <==> HasProvider(records, members, p))
      && (a.bridged <==> HasBridge(records, members))
  {
    hide Belongs;
    if records != [] {
      var n := |records| - 1;
      GatherIs(records[..n], members);
      assert forall r :: r in records <==> r in records[..n] || r == records[n];
      forall id
        ensures HasEvent(records, members, id)
           <==> HasEvent(records[..n], members, id) || (Belongs(records[n], members) && records[n].eventID == id)
      {
      }
      forall p
        ensures HasProvider(records, members, p)
           <==> HasProvider(records[..n], members, p) || (Belongs(records[n], members) && records[n].provider == p)
      {
      }
    }
  }

  /** A component names the events and the providers of exactly its records, in order, each provider once; it bridges
      when it spans providers and some record of it carries several identifiers. */
  lemma ComponentIs(records: seq<Record>, out: seq<Component>, c: Component)
    requires IsExact(records, out) && c in out
    ensures c.tier == TierExact && Sorted(AtMost, c.eventIDs) && Sorted(AtMost, c.providers) && Distinct(c.providers)
    ensures forall id :: id in c.eventIDs <==> exists r | r in records && Holds(records, c, r) :: r.eventID == id
    ensures forall p :: p in c.providers <==> exists r | r in records && Holds(records, c, r) :: r.provider == p
    ensures c.bridged
       <==> |c.providers| > 1 && exists r | r in records && Holds(records, c, r) :: |r.identifiers| > 1
  {
    hide ClassOf, Gather, Shape, Belongs, Sorted, Distinct;
    var members := ClassOf(records, c.key);
    var i :| 0 <= i < |out| && out[i] == c;
    assert IsComponent(records, out[i]);
    var a := Gather(records, members);
    GatherIs(records, members);
    ShapeIs(c.key, a);
    assert forall r :: Holds(records, c, r) <==> Belongs(r, members);
    forall id
      ensures id in c.eventIDs <==> exists r | r in records && Holds(records, c, r) :: r.eventID == id
    {
      assert id in c.eventIDs <==> HasEvent(records, members, id);
    }
    forall p
      ensures p in c.providers <==> exists r | r in records && Holds(records, c, r) :: r.provider == p
    {
      assert p in c.providers <==> HasProvider(records, members, p);
    }
    assert HasBridge(records, members) <==> exists r | r in records && Holds(records, c, r) :: |r.identifiers| > 1;
  }

  /** A component is named by the least identifier of its records. */
  lemma ComponentNamed(records: seq<Record>, out: seq<Component>, c: Component)
    requires IsExact(records, out) && c in out
    ensures exists r | r in records && Holds(records, c, r) :: c.key in r.Ids()
    ensures forall r, x | r in records && Holds(records, c, r) && x in r.Ids() :: AtMost(c.key, x)
  {
    hide ComponentOf;
    var i :| 0 <= i < |out| && out[i] == c;
    assert IsComponent(records, out[i]);
    Equivalence(Groups(records));
    var j :| 0 <= j < |records| && c.key in records[j].Ids();
    RecordMentioned(records, j);
    ShareConnected(Groups(records), j, records[j].Ids()[0], c.key);
    assert records[j] in records && Holds(records, c, records[j]);
    forall r, x | r in records && Holds(records, c, r) && x in r.Ids()
      ensures AtMost(c.key, x)
    {
      var k :| 0 <= k < |records| && records[k] == r;
      ShareConnected(Groups(records), k, r.Ids()[0], x);
      assert x in Mentioned(records) && x in ClassOf(records, c.key);
    }
  }

  // ---- no event is lost or repeated ----

  function Identified(records: seq<Record>): (events: seq<string>) {
    if records == [] then []
    else
      var n := |records| - 1;
      Identified(records[..n]) + if records[n].identifiers == [] then [] else [records[n].eventID]
  }

  function Flatten(classes: seq<set<string>>, records: seq<Record>): seq<string> {
    if classes == [] then [] else Gather(records, classes[0]).eventIDs + Flatten(classes[1..], records)
  }

  predicate Claimed(classes: seq<set<string>>, r: Record) {
    exists c | 0 <= c < |classes| :: Belongs(r, classes[c])
  }

  lemma ClaimedRest(classes: seq<set<string>>, r: Record)
    requires classes != []
    requires r.identifiers != [] ==> forall c, d | 0 <= c < d < |classes| :: classes[c] !! classes[d]
    ensures Claimed(classes, r) <==> Belongs(r, classes[0]) || Claimed(classes[1..], r)
    ensures Belongs(r, classes[0]) ==> !Claimed(classes[1..], r)
  {
    forall c | 1 <= c < |classes|
      ensures classes[1..][c - 1] == classes[c] && (Belongs(r, classes[0]) ==> !Belongs(r, classes[c]))
    {
      if r.identifiers != [] {
        assert classes[0] !! classes[c];
      }
    }
  }

  /** Adding a record adds its event once when exactly one class takes it, and nowhere else. */
  lemma {:induction false} FlattenSnoc(classes: seq<set<string>>, records: seq<Record>, r: Record)
    requires r.identifiers != [] ==> forall c, d | 0 <= c < d < |classes| :: classes[c] !! classes[d]
    ensures multiset(Flatten(classes, records + [r]))
         == multiset(Flatten(classes, records))
            + if Claimed(classes, r) then multiset{r.eventID} else multiset{}
  {
    if classes != [] {
      assert (records + [r])[..|records|] == records;
      FlattenSnoc(classes[1..], records, r);
      ClaimedRest(classes, r);
    }
  }

  lemma {:induction false} FlattenNothing(classes: seq<set<string>>)
    ensures Flatten(classes, []) == []
  {
    if classes != [] {
      FlattenNothing(classes[1..]);
    }
  }

  lemma {:induction false} FlattenAll(classes: seq<set<string>>, records: seq<Record>)
    requires forall c, d | 0 <= c < d < |classes| :: classes[c] !! classes[d]
    requires forall i | 0 <= i < |records| && records[i].identifiers != [] ::
      exists c :: 0 <= c < |classes| && Belongs(records[i], classes[c])
    ensures multiset(Flatten(classes, records)) == multiset(Identified(records))
  {
    if records == [] {
      FlattenNothing(classes);
    } else {
      var n := |records| - 1;
      assert records == records[..n] + [records[n]];
      FlattenAll(classes, records[..n]);
      FlattenSnoc(classes, records[..n], records[n]);
    }
  }

  ghost function Classes(records: seq<Record>, out: seq<Component>): seq<set<string>> {
    seq(|out|, i requires 0 <= i < |out| => ClassOf(records, out[i].key))
  }

  function Events(out: seq<Component>): seq<string> {
    if out == [] then [] else out[0].eventIDs + Events(out[1..])
  }

  lemma ClassesFirst(records: seq<Record>, out: seq<Component>)
    requires out != []
    ensures Classes(records, out) != [] && Classes(records, out)[0] == ClassOf(records, out[0].key)
    ensures Classes(records, out)[1..] == Classes(records, out[1..])
  {
  }

  lemma EventsOne(records: seq<Record>, k: string)
    ensures multiset(ComponentOf(records, k).eventIDs) == multiset(Gather(records, ClassOf(records, k)).eventIDs)
  {
  }

  lemma {:induction false} EventsFlatten(records: seq<Record>, out: seq<Component>)
    requires forall i | 0 <= i < |out| :: out[i] == ComponentOf(records, out[i].key)
    ensures multiset(Events(out)) == multiset(Flatten(Classes(records, out), records))
  {
    if out != [] {
      EventsFlatten(records, out[1..]);
      ClassesFirst(records, out);
      EventsOne(records, out[0].key);
    }
  }

  /** The components hold the events of the records that have identifiers, each as often as
      it came in. */
  lemma EventsConserved(records: seq<Record>, out: seq<Component>)
    requires IsExact(records, out)
    ensures multiset(Events(out)) == multiset(Identified(records))
  {
    var classes := Classes(records, out);
    EventsFlatten(records, out);
    forall c, d | 0 <= c < d < |classes|
      ensures classes[c] !! classes[d]
    {
      LessIrreflexive(out[c].key);
      if x :| x in classes[c] && x in classes[d] {
        KeyUnique(records, out[c].key, out[d].key, x);
      }
    }
    forall i | 0 <= i < |records| && records[i].identifiers != []
      ensures exists c :: 0 <= c < |classes| && Belongs(records[i], classes[c])
    {
      SharesComponent(records, out, i, i);
      var c :| 0 <= c < |out| && Holds(records, out[c], records[i]);
      assert Belongs(records[i], classes[c]);
    }
    FlattenAll(classes, records);
  }

  // ---- the algorithm ----

  lemma MentionedSnoc(records: seq<Record>, i: nat)
    requires i < |records|
    ensures Mentioned(records[..i + 1]) == Mentioned(records[..i]) + set x | x in records[i].Ids()
    ensures Groups(records[..i + 1]) == Groups(records[..i]) + [records[i].Ids()]
  {
    var p, q := records[..i], records[..i + 1];
    assert forall k :: 0 <= k < i ==> q[k] == p[k];
    forall x
      ensures x in Mentioned(q) <==> x in Mentioned(p) || x in records[i].Ids()
    {
      if x in Mentioned(q) {
        var k :| 0 <= k < |q| && x in q[k].Ids();
        assert k < i ==> x in p[k].Ids();
      }
      if x in Mentioned(p) {
        var k :| 0 <= k < |p| && x in p[k].Ids();
        assert x in q[k].Ids();
      }
      if x in records[i].Ids() {
        assert x in q[i].Ids();
      }
    }
  }

  /** Links the identifiers of one record to its first. */
  method LinkRecord(uf: Forest, ids: seq<string>)
    requires uf.Valid() && ids != []
    modifies uf
    ensures uf.Valid()
    ensures SamePartition(uf.links, old(uf.links) + [ids])
    ensures uf.repr.Keys == old(uf.repr.Keys) + set x | x in ids
  {
    ghost var before, known := uf.links, uf.repr.Keys;
    uf.Add(ids[0]);
    SmallGroup(before, ids[..1]);
    for j := 1 to |ids|
      invariant uf.Valid()
      invariant SamePartition(uf.links, before + [ids[..j]])
      invariant uf.repr.Keys == known + set x | x in ids[..j]
    {
      SameSnoc(uf.links, before + [ids[..j]], [ids[0], ids[j]]);
      GrowGroupSame(before, ids[..j], ids[0], ids[j]);
      assert ids[..j + 1] == ids[..j] + [ids[j]];
      uf.Link(ids[0], ids[j]);
    }
    assert ids[..|ids|] == ids;
  }

  method LinkAll(records: seq<Record>) returns (uf: Forest)
    ensures fresh(uf) && uf.Valid()
    ensures SamePartition(uf.links, Groups(records))
    ensures uf.repr.Keys == Mentioned(records)
  {
    uf := new Forest();
    for i := 0 to |records|
      invariant fresh(uf) && uf.Valid()
      invariant SamePartition(uf.links, Groups(records[..i]))
      invariant uf.repr.Keys == Mentioned(records[..i])
    {
      MentionedSnoc(records, i);
      SameSnoc(uf.links, Groups(records[..i]), records[i].Ids());
      if |records[i].identifiers| == 0 {
        SmallGroup(Groups(records[..i]), records[i].Ids());
        continue;
      }
      LinkRecord(uf, records[i].Ids());
    }
    assert records[..|records|] == records;
  }

  /** Collects each record under the representative of its first identifier. */
  method Accumulate(records: seq<Record>, uf: Forest) returns (byRoot: map<string, Acc>)
    requires uf.Valid() && Mentioned(records) <= uf.repr.Keys
    modifies uf
    ensures uf.Valid() && uf.repr == old(uf.repr) && uf.links == old(uf.links)
    ensures forall root | root in byRoot ::
      root in uf.repr.Values && byRoot[root] == Gather(records, Members(uf.repr, root))
    ensures forall i | 0 <= i < |records| && records[i].identifiers != [] ::
      records[i].Ids()[0] in uf.repr && uf.repr[records[i].Ids()[0]] in byRoot
  {
    byRoot := map[];
    ghost var repr := uf.repr;
    for i := 0 to |records|
      invariant uf.Valid() && uf.repr == repr && uf.links == old(uf.links)
      invariant forall root | root in byRoot ::
        root in repr.Values && byRoot[root] == Gather(records[..i], Members(repr, root))
      invariant forall root | root in repr.Values && root !in byRoot ::
        Gather(records[..i], Members(repr, root)) == NO_ACC
      invariant forall k | 0 <= k < i && records[k].identifiers != [] ::
        records[k].Ids()[0] in repr && repr[records[k].Ids()[0]] in byRoot
    {
      var r := records[i];
      assert records[..i + 1][..i] == records[..i];
      if |r.identifiers| == 0 {
        continue;
      }
      RecordMentioned(records, i);
      var root := uf.Find(r.Ids()[0]);
      var a := if root in byRoot then byRoot[root] else NO_ACC;
      byRoot := byRoot[root := Take(a, r)];
    }
    assert records[..|records|] == records;
  }

  method ListSet(s: set<string>) returns (xs: seq<string>)
    ensures multiset(xs) == multiset(s)
  {
    xs := [];
    var rest := s;
    while rest != {}
      invariant rest <= s && multiset(xs) == multiset(s - rest)
    {
      var x :| x in rest;
      assert s - (rest - {x}) == (s - rest) + {x};
      xs, rest := xs + [x], rest - {x};
    }
    assert s - {} == s;
  }

  lemma SetSize(s: set<string>, xs: seq<string>)
    requires multiset(xs) == multiset(s)
    ensures |xs| == |s|
  {
    assert |multiset(xs)| == |multiset(s)|;
  }

  lemma RoundTrips(names: seq<string>, s: set<string>, ids: seq<Identifier>)
    requires multiset(names) == multiset(s) && |ids| == |names|
    requires forall x | x in s :: ':' in x
    requires forall k | 0 <= k < |ids| :: ids[k] == Parse(names[k])
    ensures ids != [] <==> s != {}
    ensures forall x :: x in Names(ids) <==> x in s
  {
    SetSize(s, names);
    assert forall x :: x in names <==> x in multiset(names);
    forall k | 0 <= k < |ids|
      ensures Names(ids)[k] == names[k]
    {
      assert names[k] in names;
      ParseThenString(names[k]);
    }
    assert Names(ids) == names;
  }

  /** The component of one accumulated class; none for a class without identifiers. */
  method Assemble(a: Acc) returns (c: Component, ok: bool)
    requires forall x | x in a.ids :: ':' in x
    ensures ok <==> a.ids != {}
    ensures ok ==> c.key == Smallest(a.ids) && c == Shape(c.key, a)
  {
    var names := ListSet(a.ids);
    var ids := [];
    for i := 0 to |names|
      invariant |ids| == i && forall k | 0 <= k < i :: ids[k] == Parse(names[k])
    {
      var id := ParseIdentifier(names[i]);
      ids := ids + [id];
    }
    RoundTrips(names, a.ids, ids);
    var key;
    key, ok := Canonical(ids);
    if !ok {
      return Component("", TierExact, [], [], false), false;
    }
    SmallestUnique(a.ids, key);
    var providers := ListSet(a.providers);
    AtMostIsTotal();
    StringTies(providers);
    SortCanonical(AtMost, providers, Listing(a.providers));
    SetSize(a.providers, providers);
    c := Component(key, TierExact, Sort(AtMost, a.eventIDs), Sort(AtMost, providers), a.bridged && |providers| > 1);
  }

  /** The representative map names exactly the classes of the records. */
  ghost predicate Represents(repr: map<string, string>, records: seq<Record>) {
    && repr.Keys == Mentioned(records)
    && forall a, b {:trigger Connected(Groups(records), a, b)} :: a in repr && b in repr ==>
         (repr[a] == repr[b] <==> Connected(Groups(records), a, b))
  }

  /** The ids of one representative are one class, all of which its records contribute. */
  lemma RootClass(repr: map<string, string>, records: seq<Record>, root: string)
    requires Represents(repr, records) && root in repr.Values
    ensures var m := Members(repr, root);
      && m != {} && Gather(records, m).ids == m
      && IsKey(records, Smallest(m)) && ClassOf(records, Smallest(m)) == m
      && forall x | x in m :: ':' in x
  {
    var m := Members(repr, root);
    var y :| y in repr && repr[y] == root;
    assert y in m;
    var k := Smallest(m);
    assert ClassOf(records, k) == m;
    forall x
      ensures x in Gather(records, m).ids <==> x in m
      ensures x in m ==> ':' in x
    {
      GatherHas(records, m, x);
      if x in Mentioned(records) {
        var i :| 0 <= i < |records| && x in records[i].Ids();
        RecordMentioned(records, i);
        ShareConnected(Groups(records), i, records[i].Ids()[0], x);
        var p :| 0 <= p < |records[i].Ids()| && records[i].Ids()[p] == x;
        assert x == records[i].identifiers[p].String();
        assert x[|records[i].identifiers[p].namespace|] == ':';
      }
      if i :| 0 <= i < |records| && Belongs(records[i], m) && x in records[i].Ids() {
        RecordMentioned(records, i);
        ShareConnected(Groups(records), i, records[i].Ids()[0], x);
      }
    }
  }

  predicate KeyAtMost(c: Component, d: Component) {
    AtMost(c.key, d.key)
  }

  lemma KeyAtMostIsTotal()
    ensures TotalPreorder(KeyAtMost)
  {
    forall x: Component, y: Component, z: Component
      ensures KeyAtMost(x, y) || KeyAtMost(y, x)
      ensures KeyAtMost(x, y) && KeyAtMost(y, z) ==> KeyAtMost(x, z)
    {
      AtMostOrders(x.key, y.key, z.key);
    }
  }

  /** `cs` are the components of the keys `ks`, in that order. */
  ghost predicate ComponentsOf(records: seq<Record>, ks: seq<string>, cs: seq<Component>) {
    |cs| == |ks| && forall i | 0 <= i < |ks| :: cs[i] == ComponentOf(records, ks[i])
  }

  lemma KeysApart(records: seq<Record>, ks: seq<string>, cs: seq<Component>)
    requires ComponentsOf(records, ks, cs) && Distinct(ks)
    ensures Distinct(cs) && forall c, d | c in cs && d in cs && c.key == d.key :: c == d
  {
  }

  /** Sorting the components of different keys puts them in strictly ascending key order. */
  lemma SortedAscends(records: seq<Record>, ks: seq<string>, cs: seq<Component>)
    requires ComponentsOf(records, ks, cs) && Distinct(ks)
    ensures var out := Sort(KeyAtMost, cs);
      && (forall c :: c in out <==> c in cs)
      && forall i, j | 0 <= i < j < |out| :: Less(out[i].key, out[j].key)
  {
    var out := Sort(KeyAtMost, cs);
    KeyAtMostIsTotal();
    SortSorted(KeyAtMost, cs);
    SameElements(out, cs);
    KeysApart(records, ks, cs);
    DistinctPermuted(cs, out);
    forall i, j | 0 <= i < j < |out|
      ensures Less(out[i].key, out[j].key)
    {
      assert KeyAtMost(out[i], out[j]);
      assert out[i] in cs && out[j] in cs;
    }
  }

  lemma KeyIsComponent(records: seq<Record>, k: string)
    requires IsKey(records, k)
    ensures IsComponent(records, ComponentOf(records, k)) && ComponentOf(records, k).key == k
  {
  }

  lemma SortedIsExact(records: seq<Record>, ks: seq<string>, cs: seq<Component>)
    requires ComponentsOf(records, ks, cs) && Distinct(ks)
    requires forall k :: k in ks <==> IsKey(records, k)
    ensures IsExact(records, Sort(KeyAtMost, cs))
  {
    hide IsComponent, IsKey, ComponentOf, Sort, KeyAtMost, Less;
    var out := Sort(KeyAtMost, cs);
    SortedAscends(records, ks, cs);
    forall i | 0 <= i < |out|
      ensures IsComponent(records, out[i])
    {
      assert out[i] in cs;
      var p :| 0 <= p < |cs| && cs[p] == out[i];
      assert ks[p] in ks;
      KeyIsComponent(records, ks[p]);
    }
    forall k | IsKey(records, k)
      ensures exists i :: 0 <= i < |out| && out[i].key == k
    {
      var p :| 0 <= p < |ks| && ks[p] == k;
      KeyIsComponent(records, k);
      assert cs[p] in cs && cs[p] in out;
    }
  }

  /** The canonical key of a representative's class. */
  ghost function RootKey(repr: map<string, string>, root: string): string {
    if Members(repr, root) == {} then "" else Smallest(Members(repr, root))
  }

  lemma RootKeyIsKey(repr: map<string, string>, records: seq<Record>, root: string)
    requires Represents(repr, records) && root in repr.Values
    ensures var k := RootKey(repr, root);
      IsKey(records, k) && repr[k] == root && ClassOf(records, k) == Members(repr, root)
  {
    RootClass(repr, records, root);
  }

  lemma KeyHasRoot(repr: map<string, string>, records: seq<Record>, k: string)
    requires Represents(repr, records) && IsKey(records, k)
    ensures k in repr && RootKey(repr, repr[k]) == k
  {
    RootKeyIsKey(repr, records, repr[k]);
    Equivalence(Groups(records));
    KeyUnique(records, k, RootKey(repr, repr[k]), k);
  }

  ghost function RootKeys(repr: map<string, string>, roots: seq<string>): seq<string> {
    seq(|roots|, i requires 0 <= i < |roots| => RootKey(repr, roots[i]))
  }

  /** One key for every representative, each once. */
  lemma AllKeys(repr: map<string, string>, records: seq<Record>, roots: seq<string>)
    requires Represents(repr, records) && Distinct(roots)
    requires forall root :: root in roots <==> root in repr.Values
    ensures Distinct(RootKeys(repr, roots))
    ensures forall k :: k in RootKeys(repr, roots) <==> IsKey(records, k)
  {
    var ks := RootKeys(repr, roots);
    forall i | 0 <= i < |roots|
      ensures IsKey(records, ks[i]) && repr[ks[i]] == roots[i]
    {
      assert roots[i] in roots;
      RootKeyIsKey(repr, records, roots[i]);
    }
    forall k | IsKey(records, k)
      ensures k in ks
    {
      KeyHasRoot(repr, records, k);
      assert repr[k] in roots;
      var p :| 0 <= p < |roots| && roots[p] == repr[k];
      assert ks[p] == k;
    }
  }

  lemma AllRoots(repr: map<string, string>, records: seq<Record>, byRoot: map<string, Acc>)
    requires Represents(repr, records)
    requires forall root | root in byRoot :: root in repr.Values
    requires forall i | 0 <= i < |records| && records[i].identifiers != [] ::
      records[i].Ids()[0] in repr && repr[records[i].Ids()[0]] in byRoot
    ensures byRoot.Keys == repr.Values
  {
    forall root | root in repr.Values
      ensures root in byRoot
    {
      var x :| x in repr && repr[x] == root;
      var i :| 0 <= i < |records| && x in records[i].Ids();
      RecordMentioned(records, i);
      ShareConnected(Groups(records), i, records[i].Ids()[0], x);
    }
  }

  /** The component of one representative's class. */
  method AssembleRoot(ghost repr: map<string, string>, ghost records: seq<Record>, ghost root: string, a: Acc)
    returns (c: Component, ok: bool)
    requires Represents(repr, records) && root in repr.Values && a == Gather(records, Members(repr, root))
    ensures ok && c == ComponentOf(records, RootKey(repr, root))
  {
    RootClass(repr, records, root);
    RootKeyIsKey(repr, records, root);
    c, ok := Assemble(a);
  }

  lemma OneRootMore(
    repr: map<string, string>, records: seq<Record>, roots: seq<string>, components: seq<Component>, root: string,
    c: Component)
    requires Distinct(roots) && root !in roots && c == ComponentOf(records, RootKey(repr, root))
    requires ComponentsOf(records, RootKeys(repr, roots), components)
    ensures Distinct(roots + [root]) && ComponentsOf(records, RootKeys(repr, roots + [root]), components + [c])
  {
    forall i | 0 <= i < |roots|
      ensures roots[i] != root
    {
      assert roots[i] in roots;
    }
    assert RootKeys(repr, roots + [root]) == RootKeys(repr, roots) + [RootKey(repr, root)];
  }

  /** The components of all accumulated classes, in no particular order. */
  method AssembleAll(ghost repr: map<string, string>, ghost records: seq<Record>, byRoot: map<string, Acc>)
    returns (components: seq<Component>, ghost roots: seq<string>)
    requires Represents(repr, records)
    requires forall root | root in byRoot :: root in repr.Values && byRoot[root] == Gather(records, Members(repr, root))
    ensures Distinct(roots) && forall root :: root in roots <==> root in byRoot
    ensures ComponentsOf(records, RootKeys(repr, roots), components)
  {
    components, roots := [], [];
    var rest := byRoot.Keys;
    while rest != {}
      invariant rest <= byRoot.Keys && Distinct(roots)
      invariant forall root :: root in roots <==> root in byRoot && root !in rest
      invariant ComponentsOf(records, RootKeys(repr, roots), components)
    {
      var root :| root in rest;
      var c, ok := AssembleRoot(repr, records, root, byRoot[root]);
      OneRootMore(repr, records, roots, components, root, c);
      rest, roots := rest - {root}, roots + [root];
      if ok {
        components := components + [c];
      }
    }
  }

  /** Groups records into components by shared identifiers, unioning transitively. */
  method Exact(records: seq<Record>) returns (components: seq<Component>)
    ensures IsExact(records, components)
  {
    var uf := LinkAll(records);
    ghost var repr := uf.repr;
    assert Represents(repr, records);
    var byRoot := Accumulate(records, uf);
    AllRoots(repr, records, byRoot);
    ghost var roots;
    components, roots := AssembleAll(repr, records, byRoot);
    AllKeys(repr, records, roots);
    SortedIsExact(records, RootKeys(repr, roots), components);
    components := Sort(KeyAtMost, components);
  }
}
