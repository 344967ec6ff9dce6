/** The lattice of parameter types, and path-template tokens. */
module ValueTypes {
  import opened Events

  datatype ValueType =
    | Empty | Bool | Int | Float | UUID | IPv4 | IPv6 | Email | Date | Hex | JSON | Alnum | Var | Freetext
  {
    function Name(): string {
      match this
      case Empty => "empty"
      case Bool => "bool"
      case Int => "int"
      case Float => "float"
      case UUID => "uuid"
      case IPv4 => "ipv4"
      case IPv6 => "ipv6"
      case Email => "email"
      case Date => "date"
      case Hex => "hex"
      case JSON => "json"
      case Alnum => "alnum"
      case Var => "var"
      case Freetext => "freetext"
    }
  }

  predicate AlnumCharset(t: ValueType) {
    t in {Bool, Int, Hex, Alnum}
  }

  /** The least upper bound of two types. */
  function Join(a: ValueType, b: ValueType): ValueType {
    if a == b then a
    else if a == Empty then b
    else if b == Empty then a
    else if a == Freetext || b == Freetext then Freetext
    else if (a == Int && b == Float) || (a == Float && b == Int) then Float
    else if (a == Int && b == Hex) || (a == Hex && b == Int) then Hex
    else if AlnumCharset(a) && AlnumCharset(b) then Alnum
    else Freetext
  }

  /** What each type may honestly be widened to. */
  predicate Widens(a: ValueType, b: ValueType) {
    || a == b || a == Empty || b == Freetext
    || (a == Int && b in {Float, Hex, Alnum})
    || (a in {Bool, Hex} && b == Alnum)
  }

  lemma WidensIsOrder(a: ValueType, b: ValueType, c: ValueType)
    ensures Widens(a, a)
    ensures Widens(a, b) && Widens(b, a) ==> a == b
    ensures Widens(a, b) && Widens(b, c) ==> Widens(a, c)
  {
  }

  /** Join is the least type both widen to. */
  lemma JoinIsLeast(a: ValueType, b: ValueType, c: ValueType)
    ensures Widens(a, Join(a, b)) && Widens(b, Join(a, b))
    ensures Widens(a, c) && Widens(b, c) ==> Widens(Join(a, b), c)
    ensures Widens(a, b) <==> Join(a, b) == b
  {
  }

  lemma JoinCommutes(a: ValueType, b: ValueType)
    ensures Join(a, b) == Join(b, a)
  {
  }

  lemma JoinAssociates(a: ValueType, b: ValueType, c: ValueType)
    ensures Join(Join(a, b), c) == Join(a, Join(b, c))
  {
    var l, r := Join(Join(a, b), c), Join(a, Join(b, c));
    JoinIsLeast(Join(a, b), c, r);
    JoinIsLeast(a, b, r);
    JoinIsLeast(a, Join(b, c), r);
    JoinIsLeast(b, c, r);
    JoinIsLeast(a, Join(b, c), l);
    JoinIsLeast(b, c, l);
    JoinIsLeast(a, b, l);
    JoinIsLeast(Join(a, b), c, l);
    WidensIsOrder(b, Join(b, c), r);
    WidensIsOrder(c, Join(b, c), r);
    WidensIsOrder(a, Join(a, b), l);
    WidensIsOrder(b, Join(a, b), l);
    WidensIsOrder(l, r, l);
  }

  predicate Promotable(t: ValueType) {
    t in {Int, UUID, Hex, Date}
  }

  function Token(t: ValueType): string {
    "{" + t.Name() + "}"
  }

  /** The type name a template segment carries, when it is a parameter token. */
  function ParseToken(seg: string): Option<string> {
    if |seg| > 2 && seg[0] == '{' && seg[|seg| - 1] == '}' then Some(seg[1..|seg| - 1]) else None
  }

  predicate IsToken(seg: string) {
    ParseToken(seg).Some?
  }

  lemma TokenThenParse(t: ValueType)
    ensures ParseToken(Token(t)) == Some(t.Name()) && '/' !in Token(t)
  {
    assert Token(t)[1..|Token(t)| - 1] == t.Name();
  }

  lemma NamesDiffer(t: ValueType, u: ValueType)
    ensures t.Name() == u.Name() ==> t == u
  {
    if t.Name() == u.Name() {
      assert |t.Name()| == |u.Name()| && t.Name()[0] == u.Name()[0];
      assert |t.Name()| > 3 ==> t.Name()[3] == u.Name()[3];
    }
  }

  /** Different types give different tokens. */
  lemma TokensDiffer(t: ValueType, u: ValueType)
    ensures Token(t) == Token(u) ==> t == u
  {
    TokenThenParse(t);
    TokenThenParse(u);
    NamesDiffer(t, u);
  }

  /** Whether a segment value belongs under a parameter of type t. */
  predicate Matches(infer: string -> ValueType, value: string, t: ValueType) {
    t == Var || Join(infer(value), t) == t
  }

  /** A value belongs under {var}, and otherwise under every type its own may be widened to. */
  lemma MatchesExactly(infer: string -> ValueType, value: string, t: ValueType)
    ensures Matches(infer, value, t) <==> t == Var || Widens(infer(value), t)
  {
    JoinIsLeast(infer(value), t, t);
  }
}
