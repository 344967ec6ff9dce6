/** URL paths as segments, and the prefix keys the engine stores its evidence under. */
module Paths {

  /** Segments are never empty and never hold a slash. */
  predicate IsSegment(seg: string) {
    seg != "" && '/' !in seg
  }

  predicate AreSegments(segs: seq<string>) {
    forall i | 0 <= i < |segs| :: IsSegment(segs[i])
  }

  function NextSlash(s: string): (i: nat)
    ensures i <= |s| && '/' !in s[..i] && (i < |s| ==> s[i] == '/')
  {
    if s == "" || s[0] == '/' then 0
    else
      var i := 1 + NextSlash(s[1..]);
      assert s[..i] == [s[0]] + s[1..][..i - 1];
      i
  }

  /** The parts between slashes, empty ones included. */
  function Split(s: string): (parts: seq<string>)
    ensures forall i | 0 <= i < |parts| :: '/' !in parts[i]
    decreases |s|
  {
    var i := NextSlash(s);
    if i == |s| then
      assert s[..i] == s;
      [s]
    else [s[..i]] + Split(s[i + 1..])
  }

  function NonEmpty(parts: seq<string>): seq<string> {
    if parts == [] then []
    else
      var n := |parts| - 1;
      NonEmpty(parts[..n]) + if parts[n] == "" then [] else [parts[n]]
  }

  function Segments(path: string): seq<string> {
    NonEmpty(Split(path))
  }

  method SplitPath(path: string) returns (segs: seq<string>)
    ensures segs == Segments(path)
  {
    var parts := Split(path);
    segs := [];
    for i := 0 to |parts|
      invariant segs == NonEmpty(parts[..i])
    {
      assert parts[..i + 1][..i] == parts[..i];
      if parts[i] != "" {
        segs := segs + [parts[i]];
      }
    }
    assert parts[..|parts|] == parts;
  }

  function Slashed(segs: seq<string>): string {
    if segs == [] then "" else if |segs| == 1 then segs[0] else segs[0] + "/" + Slashed(segs[1..])
  }

  function JoinTemplate(segs: seq<string>): string {
    if segs == [] then "/" else "/" + Slashed(segs)
  }

  lemma {:induction false} NonEmptySegments(parts: seq<string>)
    requires forall i | 0 <= i < |parts| :: '/' !in parts[i]
    ensures AreSegments(NonEmpty(parts))
  {
    if parts != [] {
      NonEmptySegments(parts[..|parts| - 1]);
    }
  }

  lemma SplitsIntoSegments(path: string)
    ensures AreSegments(Segments(path))
  {
    NonEmptySegments(Split(path));
  }

  lemma {:induction false} NonEmptyAll(segs: seq<string>)
    requires AreSegments(segs)
    ensures NonEmpty([""] + segs) == segs
  {
    if segs == [] {
      assert NonEmpty([""]) == [];
    } else {
      var n := |segs| - 1;
      NonEmptyAll(segs[..n]);
      assert ([""] + segs)[..n + 1] == [""] + segs[..n];
      assert segs == segs[..n] + [segs[n]];
    }
  }

  lemma {:induction false} SlashAt(a: string, b: string)
    requires '/' !in a && b != "" && b[0] == '/'
    ensures NextSlash(a + b) == |a|
  {
    if a == "" {
      assert a + b == b;
    } else {
      assert (a + b)[1..] == a[1..] + b;
      SlashAt(a[1..], b);
    }
  }

  lemma SlashAtEnd(a: string)
    requires '/' !in a
    ensures NextSlash(a) == |a|
  {
  }

  lemma {:induction false} SplitSlashed(segs: seq<string>)
    requires AreSegments(segs) && segs != []
    ensures Split(Slashed(segs)) == segs
  {
    if |segs| == 1 {
      SlashAtEnd(segs[0]);
    } else {
      var rest := "/" + Slashed(segs[1..]);
      assert Slashed(segs) == segs[0] + rest;
      SlashAt(segs[0], rest);
      assert (segs[0] + rest)[|segs[0]| + 1..] == Slashed(segs[1..]);
      SplitSlashed(segs[1..]);
    }
  }

  /** Rendering segments and splitting the template again loses nothing. */
  lemma JoinThenSplit(segs: seq<string>)
    requires AreSegments(segs)
    ensures Segments(JoinTemplate(segs)) == segs
  {
    if segs == [] {
      assert NextSlash("/") == 0;
      assert "/"[1..] == "" && Split("") == [""];
      assert Split("/") == ["", ""];
      assert NonEmpty([""]) == [] && ["", ""][..1] == [""];
    } else {
      SlashAt("", "/" + Slashed(segs));
      assert "" + ("/" + Slashed(segs)) == JoinTemplate(segs);
      assert JoinTemplate(segs)[1..] == Slashed(segs);
      SplitSlashed(segs);
      NonEmptyAll(segs);
    }
  }

  /** Doubled, leading and trailing slashes describe the same route. */
  lemma SplitThenJoin(path: string)
    ensures Segments(JoinTemplate(Segments(path))) == Segments(path)
  {
    SplitsIntoSegments(path);
    JoinThenSplit(Segments(path));
  }

  lemma PrefixStep(prefix: seq<string>, key: seq<string>)
    requires prefix != [] && key != [] && prefix[0] == key[0]
    ensures prefix < key <==> prefix[1..] < key[1..]
  {
    assert prefix == [prefix[0]] + prefix[1..] && key == [key[0]] + key[1..];
  }

  lemma OneSegment(seg: string, below: string, text: string)
    requires '/' !in text
    ensures !(seg + "/" + below <= text)
  {
    assert (seg + "/" + below)[|seg|] == '/';
    assert seg + "/" + below <= text ==> '/' in text;
  }

  lemma JoinUnfolds(key: seq<string>)
    requires key != []
    ensures |key| == 1 ==> Slashed(key) == key[0]
    ensures |key| > 1 ==> Slashed(key) == key[0] + ("/" + Slashed(key[1..]))
  {
    assert |key| > 1 ==> key[0] + "/" + Slashed(key[1..]) == key[0] + ("/" + Slashed(key[1..]));
  }

  /** Text splits at its first slash in one way. */
  lemma SameHead(a: string, x: string, b: string, y: string)
    requires '/' !in a && '/' !in b && a + ("/" + x) == b + ("/" + y)
    ensures a == b && x == y
  {
    SlashAt(a, "/" + x);
    SlashAt(b, "/" + y);
    assert a == (a + ("/" + x))[..|a|] && b == (b + ("/" + y))[..|b|];
    assert x == (a + ("/" + x))[|a| + 1..] && y == (b + ("/" + y))[|b| + 1..];
  }

  lemma Starts(seg: string, below: string, head: string, tail: string)
    requires '/' !in seg && '/' !in head
    ensures seg + "/" + below <= head + ("/" + tail) <==> head == seg && below <= tail
  {
    var text := head + ("/" + tail);
    if seg + "/" + below <= text {
      var more := text[|seg| + 1 + |below|..];
      assert text == seg + ("/" + (below + more));
      SameHead(seg, below + more, head, tail);
    }
    if head == seg && below <= tail {
      assert text == (seg + "/" + below) + tail[|below|..];
    }
  }

  /** The text of a key starts with a segment and a slash exactly when that is its first segment
      and more follow. */
  lemma FirstSegment(seg: string, below: string, key: seq<string>)
    requires IsSegment(seg) && AreSegments(key) && key != []
    ensures seg + "/" + below <= Slashed(key) <==> key[0] == seg && |key| > 1 && below <= Slashed(key[1..])
  {
    JoinUnfolds(key);
    if |key| == 1 {
      OneSegment(seg, below, key[0]);
    } else {
      Starts(seg, below, key[0], Slashed(key[1..]));
    }
  }

  /** A key lies below a prefix as text exactly when it does as segments, and what is left of
      the text is the remaining segments. */
  lemma {:induction false} KeyBelow(prefix: seq<string>, key: seq<string>)
    requires AreSegments(prefix) && AreSegments(key) && prefix != []
    ensures Slashed(prefix) + "/" <= Slashed(key) <==> prefix < key
    ensures prefix < key ==> Slashed(key)[|Slashed(prefix)| + 1..] == Slashed(key[|prefix|..])
  {
    if key == [] {
    } else if |prefix| == 1 {
      FirstSegment(prefix[0], "", key);
      if prefix < key {
        assert prefix[0] == key[0] && key[1..] != [];
      }
    } else {
      var below := Slashed(prefix[1..]) + "/";
      assert Slashed(prefix) + "/" == prefix[0] + "/" + below;
      FirstSegment(prefix[0], below, key);
      if |key| > 1 && key[0] == prefix[0] {
        assert Slashed(key) == prefix[0] + "/" + Slashed(key[1..]);
        KeyBelow(prefix[1..], key[1..]);
        PrefixStep(prefix, key);
      }
    }
  }
}
