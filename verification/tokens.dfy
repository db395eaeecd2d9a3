/** The token type shared by the scanner and the parser, its tag-only
    equality, and the scanner state (src/lib.rs). */
module Tokens {

  /** Rust's `i64`, the payload type of a number literal. */
  const I64Max: int := 0x7FFF_FFFF_FFFF_FFFF
  newtype int64 = x: int | -0x8000_0000_0000_0000 <= x <= I64Max

  /** One variant per lexical category, in declaration order. Only `Ident`
      and `Number` carry a payload. */
  datatype Token =
    | Ident(name: string)
    | Number(value: int64)
    | Const | Var | Procedure | Call | Begin | End | If | Then | While | Do | Odd
    | Dot | Equal | Comma | Semicolon | Assign | Hash | LessThan | GreaterThan
    | Plus | Minus | Multiply | Divide | LParen | RParen

  /** The variant of a token, as `std::mem::discriminant` sees it: its
      position in the declaration, with the payload ignored. */
  function Discriminant(t: Token): (d: nat)
    ensures d < 27
  {
    match t
    case Ident(_) => 0
    case Number(_) => 1
    case Const => 2
    case Var => 3
    case Procedure => 4
    case Call => 5
    case Begin => 6
    case End => 7
    case If => 8
    case Then => 9
    case While => 10
    case Do => 11
    case Odd => 12
    case Dot => 13
    case Equal => 14
    case Comma => 15
    case Semicolon => 16
    case Assign => 17
    case Hash => 18
    case LessThan => 19
    case GreaterThan => 20
    case Plus => 21
    case Minus => 22
    case Multiply => 23
    case Divide => 24
    case LParen => 25
    case RParen => 26
  }

  /** `PartialEq for Token`: two tokens are equal exactly when they are the
      same variant. An identifier matches any identifier and a number any
      number, whatever the payload; every other variant has no payload. */
  predicate SameKind(a: Token, b: Token): (r: bool)
    ensures r <==> Discriminant(a) == Discriminant(b)
  {
    if a.Ident? then b.Ident?
    else if a.Number? then b.Number?
    else a == b
  }

  /** Tag equality is equality of discriminants: the variant decides, the
      payload never does. So any two identifiers match, any two numbers
      match, and every other variant matches only itself. */
  lemma SameKindIsDiscriminantEquality(a: Token, b: Token)
    ensures SameKind(a, b) <==> Discriminant(a) == Discriminant(b)
    ensures a.Ident? && b.Ident? ==> SameKind(a, b)
    ensures a.Number? && b.Number? ==> SameKind(a, b)
    ensures !a.Ident? && !a.Number? ==> (SameKind(a, b) <==> a == b)
  {
  }

  /** Tag equality is an equivalence relation. */
  lemma SameKindIsEquivalence(a: Token, b: Token, c: Token)
    ensures SameKind(a, a)
    ensures SameKind(a, b) ==> SameKind(b, a)
    ensures SameKind(a, b) && SameKind(b, c) ==> SameKind(a, c)
  {
  }

  /** The scanner state: the current line and the debug flag. */
  datatype State = State(debug: bool, line: nat)

  /** `State::default()`: scanning starts on line 1 with debugging off. */
  function DefaultState(): (s: State)
    ensures s.line == 1 && !s.debug
  {
    State(false, 1)
  }
}
