/** Namespaced request identifiers and the canonical member of an identifier set. */
module Identifiers {
  import opened Text
  import opened Sorting

  /** How records were joined. */
  datatype Tier = TierExact | TierHeuristic | TierNone

  datatype Identifier = Identifier(namespace: string, value: string)
  {
    function String(): string {
      namespace + ":" + value
    }
  }

  /** The position of the first colon, or |s|. */
  function Colon(s: string): (i: nat)
    ensures i <= |s| && (i < |s| ==> s[i] == ':')
    ensures forall k | 0 <= k < i :: s[k] != ':'
  {
    if s == [] || s[0] == ':' then 0 else 1 + Colon(s[1..])
  }

  function Parse(s: string): Identifier {
    var i := Colon(s);
    if i < |s| then Identifier(s[..i], s[i + 1..]) else Identifier("", s)
  }

  lemma FirstColon(s: string, i: nat)
    requires i < |s| && s[i] == ':' && forall k | 0 <= k < i :: s[k] != ':'
    ensures Colon(s) == i
  {
    if i > 0 {
      FirstColon(s[1..], i - 1);
    }
  }

  /** The scan of parseIdentifier. */
  method ParseIdentifier(s: string) returns (id: Identifier)
    ensures id == Parse(s)
  {
    for i := 0 to |s|
      invariant forall k | 0 <= k < i :: s[k] != ':'
    {
      if s[i] == ':' {
        FirstColon(s, i);
        return Identifier(s[..i], s[i + 1..]);
      }
    }
    assert s[..|s|] == s;
    return Identifier("", s);
  }

  /** Rendering undoes parsing exactly for strings that name a namespace; any other string
      gains an empty one, so "x" and ":x" name the same identifier. */
  lemma ParseThenString(s: string)
    ensures Parse(s).String() == (if ':' in s then s else ":" + s)
    ensures ':' in Parse(s).String()
  {
    var i := Colon(s);
    if i < |s| {
      assert s == s[..i] + [s[i]] + s[i + 1..];
      assert s[i] in s;
    } else {
      assert s[..i] == s;
      assert Parse(s).String() == ":" + s;
    }
  }

  /** Parsing undoes rendering exactly when the namespace has no colon of its own. */
  lemma StringThenParse(id: Identifier)
    ensures Parse(id.String()) == id <==> ':' !in id.namespace
  {
    var s := id.String();
    var n := |id.namespace|;
    assert s[n] == ':' && s[..n] == id.namespace && s[n + 1..] == id.value;
    if ':' !in id.namespace {
      FirstColon(s, n);
    } else {
      var i := Colon(s);
      assert Parse(s).namespace == s[..i];
    }
  }

  function Names(ids: seq<Identifier>): (names: seq<string>)
    ensures |names| == |ids|
  {
    seq(|ids|, i requires 0 <= i < |ids| => ids[i].String())
  }

  lemma AtMostIsTotal()
    ensures TotalPreorder(AtMost)
  {
    forall x, y, z
      ensures AtMost(x, y) || AtMost(y, x)
      ensures AtMost(x, y) && AtMost(y, z) ==> AtMost(x, z)
    {
      AtMostOrders(x, y, z);
    }
  }

  lemma StringTies(xs: seq<string>)
    ensures TiesEqual(AtMost, xs)
  {
    forall x, y | AtMost(x, y) && AtMost(y, x)
      ensures x == y
    {
      AtMostOrders(x, y, x);
    }
  }

  /** The smallest name of an identifier set; there is none exactly for the empty set. */
  method Canonical(ids: seq<Identifier>) returns (key: string, ok: bool)
    ensures ok <==> ids != []
    ensures ok ==> key in Names(ids) && forall x | x in Names(ids) :: AtMost(key, x)
  {
    if |ids| == 0 {
      return "", false;
    }
    var strs := [];
    for i := 0 to |ids|
      invariant strs == Names(ids)[..i]
    {
      strs := strs + [ids[i].String()];
    }
    assert strs == Names(ids);
    var sorted := Sort(AtMost, strs);
    AtMostIsTotal();
    SortSorted(AtMost, strs);
    SameElements(sorted, strs);
    return sorted[0], true;
  }
}
