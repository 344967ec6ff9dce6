/** Byte-wise string order, as Go's `<` and `sort.Strings` use it, and the ASCII
    case folds the correlation code relies on. */
module Text {

  predicate Less(a: string, b: string) {
    b != [] && (a == [] || a[0] < b[0] || (a[0] == b[0] && Less(a[1..], b[1..])))
  }

  predicate AtMost(a: string, b: string) {
    a == b || Less(a, b)
  }

  lemma {:induction false} LessIrreflexive(a: string)
    ensures !Less(a, a)
  {
    if a != [] {
      LessIrreflexive(a[1..]);
    }
  }

  lemma {:induction false} LessTotal(a: string, b: string)
    ensures Less(a, b) || a == b || Less(b, a)
  {
    if a != [] && b != [] && a[0] == b[0] {
      LessTotal(a[1..], b[1..]);
      if a[1..] == b[1..] {
        assert a == [a[0]] + a[1..] == [b[0]] + b[1..] == b;
      }
    }
  }

  lemma {:induction false} LessTransitive(a: string, b: string, c: string)
    requires Less(a, b) && Less(b, c)
    ensures Less(a, c)
  {
    if a != [] && a[0] == b[0] == c[0] {
      LessTransitive(a[1..], b[1..], c[1..]);
    }
  }

  lemma AtMostOrders(a: string, b: string, c: string)
    ensures AtMost(a, b) || AtMost(b, a)
    ensures AtMost(a, b) && AtMost(b, a) ==> a == b
    ensures AtMost(a, b) && AtMost(b, c) ==> AtMost(a, c)
  {
    LessTotal(a, b);
    if Less(a, b) && Less(b, a) {
      LessTransitive(a, b, a);
      LessIrreflexive(a);
    }
    if Less(a, b) && Less(b, c) {
      LessTransitive(a, b, c);
    }
  }

  /** One string is less than another when it is a proper prefix of it or smaller where they first differ. */
  lemma {:induction false} LessExactly(a: string, b: string)
    ensures Less(a, b) <==> a < b || exists i | 0 <= i < |a| && i < |b| :: a[..i] == b[..i] && a[i] < b[i]
  {
    if a != [] && b != [] && a[0] == b[0] {
      var x, y := a[1..], b[1..];
      LessExactly(x, y);
      assert a == [a[0]] + x && b == [a[0]] + y;
      assert x < y <==> a < b;
      if i :| 0 <= i < |x| && i < |y| && x[..i] == y[..i] && x[i] < y[i] {
        assert a[..i + 1] == [a[0]] + x[..i] && b[..i + 1] == [a[0]] + y[..i] && a[i + 1] < b[i + 1];
      }
      if i :| 0 <= i < |a| && i < |b| && a[..i] == b[..i] && a[i] < b[i] {
        assert x[..i - 1] == a[..i][1..] && y[..i - 1] == b[..i][1..] && x[i - 1] < y[i - 1];
      }
    } else if a != [] && b != [] {
      assert a[..0] == b[..0];
    }
  }

  lemma {:induction false} SmallestExists(s: set<string>)
    requires s != {}
    ensures exists m | m in s :: forall x | x in s :: AtMost(m, x)
  {
    var c :| c in s;
    if s != {c} {
      SmallestExists(s - {c});
      var m :| m in s - {c} && forall x | x in s - {c} :: AtMost(m, x);
      var best := if AtMost(c, m) then c else m;
      forall x | x in s
        ensures AtMost(best, x)
      {
        AtMostOrders(c, m, x);
        AtMostOrders(m, x, x);
      }
    }
  }

  /** The smallest string of a non-empty set. */
  ghost function Smallest(s: set<string>): (m: string)
    requires s != {}
    ensures m in s && forall x | x in s :: AtMost(m, x)
  {
    SmallestExists(s);
    var m :| m in s && forall x | x in s :: AtMost(m, x);
    m
  }

  lemma SmallestUnique(s: set<string>, m: string)
    requires m in s && forall x | x in s :: AtMost(m, x)
    ensures Smallest(s) == m
  {
    AtMostOrders(Smallest(s), m, m);
  }

  function LowerChar(c: char): char {
    if 'A' <= c <= 'Z' then (c as int + 32) as char else c
  }

  function UpperChar(c: char): char {
    if 'a' <= c <= 'z' then (c as int - 32) as char else c
  }

  function ToLower(s: string): string {
    seq(|s|, i requires 0 <= i < |s| => LowerChar(s[i]))
  }

  function ToUpper(s: string): string {
    seq(|s|, i requires 0 <= i < |s| => UpperChar(s[i]))
  }

  /** The case folds take each letter to the one in the same place of the other alphabet, and leave the rest alone. */
  lemma FoldsLetters(c: char)
    ensures 'a' <= c <= 'z' ==> 'A' <= UpperChar(c) <= 'Z' && LowerChar(UpperChar(c)) == c == LowerChar(c)
    ensures 'A' <= c <= 'Z' ==> 'a' <= LowerChar(c) <= 'z' && UpperChar(LowerChar(c)) == c == UpperChar(c)
    ensures !('a' <= c <= 'z' || 'A' <= c <= 'Z') ==> UpperChar(c) == c == LowerChar(c)
    ensures UpperChar('a') == 'A' && UpperChar('z') == 'Z'
  {
  }
}
