/** The parser as the source runs it: every production is a method that
    pulls tokens from one shared cursor, and each of its repetitions is a
    `while` loop over the returned lookahead token. Each method is proved to
    return what the corresponding function of `ParserSpec` computes, and to
    leave the cursor where that function says. */
module Parser {
  import opened Wrappers
  import opened Tokens
  import S = ParserSpec

  /** `Peekable<IntoIter<Token>>`: the token sequence and how much of it has
      been consumed. Only the position changes. */
  class Cursor {
    const tokens: seq<Token>
    var pos: nat

    ghost predicate Valid()
      reads this
    {
      pos <= |tokens|
    }

    constructor (tokens: seq<Token>)
      ensures Valid() && this.tokens == tokens && pos == 0
    {
      this.tokens := tokens;
      pos := 0;
    }

    /** `peek`: the next token, left in place. */
    function Peek(): Option<Token>
      reads this
      requires Valid()
    {
      if pos < |tokens| then Some(tokens[pos]) else None
    }

    /** `next`: the next token, consumed. */
    method Next() returns (t: Option<Token>)
      requires Valid()
      modifies this
      ensures Valid()
      ensures t == old(Peek())
      ensures pos == if old(pos) < |tokens| then old(pos) + 1 else old(pos)
    {
      if pos < |tokens| {
        t := Some(tokens[pos]);
        pos := pos + 1;
      } else {
        t := None;
      }
    }
  }

  /** A production's result agrees with the reference: on success the cursor
      stands on the position the reference returns and the returned token is
      the (unconsumed) token there; on failure the error is the same. */
  ghost predicate Agrees(c: Cursor, r: Result<Token, S.SyntaxError>, spec: Result<nat, S.SyntaxError>)
    reads c
  {
    match spec
    case Ok(j) => c.pos == j && j < |c.tokens| && r == Ok(c.tokens[j])
    case Err(e) => r == Err(e)
  }

  /** `expect`. */
  method Expect(val: Token, c: Cursor) returns (r: Result<Token, S.SyntaxError>)
    requires c.Valid()
    modifies c
    ensures c.Valid() && old(c.pos) <= c.pos
    ensures Agrees(c, r, S.Expect(c.tokens, old(c.pos), val))
  {
    var t := c.Next();
    if t.None? {
      r := Err(S.MissingToken(val));
    } else if !SameKind(val, t.value) {
      r := Err(S.Mismatch(val, t.value));
    } else {
      var u := c.Peek();
      if u.Some? {
        r := Ok(u.value);
      } else {
        r := Err(S.MissingToken(val));
      }
    }
  }

  /** `parse`. */
  method Parse(tokens: seq<Token>) returns (r: Result<(), S.SyntaxError>)
    ensures r == S.Parse(tokens)
  {
    var c := new Cursor(tokens);
    var peeked := c.Peek();
    if peeked.None? {
      return Err(S.EmptyFile);
    }
    var t :- Block(c, 0);
    if SameKind(t, Dot) {
      var _ := c.Next();
    } else {
      return Err(S.MissingDot);
    }
    var rest := c.Peek();
    if rest.Some? {
      r := Err(S.TrailingToken(rest.value));
    } else {
      r := Ok(());
    }
  }

  /** `block`. */
  method Block(c: Cursor, depth: nat) returns (r: Result<Token, S.SyntaxError>)
    requires c.Valid()
    modifies c
    ensures c.Valid() && old(c.pos) <= c.pos
    ensures Agrees(c, r, S.Block(c.tokens, old(c.pos), depth))
    decreases |c.tokens| - c.pos, 6
  {
    var depth' := depth + 1;
    if depth' > S.MaxDepth {
      return Err(S.NestingTooDeep);
    }
    var peeked := c.Peek();
    if peeked.None? {
      return Err(S.UnexpectedEnd(S.BlockRule));
    }
    var t := peeked.value;
    t :- ConstClause(c, t);
    t :- VarClause(c, t);
    t :- ProcedureClauses(c, t, depth');
    r := Statement(c);
  }

  /** The `const` clause of `block`, with its `while t == Comma` loop. */
  method ConstClause(c: Cursor, t0: Token) returns (r: Result<Token, S.SyntaxError>)
    requires c.Valid() && c.pos < |c.tokens| && t0 == c.tokens[c.pos]
    modifies c
    ensures c.Valid() && old(c.pos) <= c.pos
    ensures Agrees(c, r, S.Consts(c.tokens, old(c.pos)))
  {
    var t := t0;
    if SameKind(t, Const) {
      t :- Expect(Const, c);
      t :- Expect(Ident(""), c);
      t :- Expect(Equal, c);
      t :- Expect(Number(0), c);
      ghost var start := c.pos;
      while SameKind(t, Comma)
        invariant c.Valid() && start <= c.pos < |c.tokens| && t == c.tokens[c.pos]
        invariant S.ConstDefs(c.tokens, start) == S.ConstDefs(c.tokens, c.pos)
        decreases |c.tokens| - c.pos
      {
        t :- Expect(Comma, c);
        t :- Expect(Ident(""), c);
        t :- Expect(Equal, c);
        t :- Expect(Number(0), c);
      }
      t :- Expect(Semicolon, c);
    }
    r := Ok(t);
  }

  /** The `var` clause of `block`, with its `while t == Comma` loop. */
  method VarClause(c: Cursor, t0: Token) returns (r: Result<Token, S.SyntaxError>)
    requires c.Valid() && c.pos < |c.tokens| && t0 == c.tokens[c.pos]
    modifies c
    ensures c.Valid() && old(c.pos) <= c.pos
    ensures Agrees(c, r, S.Vars(c.tokens, old(c.pos)))
  {
    var t := t0;
    if SameKind(t, Var) {
      t :- Expect(Var, c);
      t :- Expect(Ident(""), c);
      ghost var start := c.pos;
      while SameKind(t, Comma)
        invariant c.Valid() && start <= c.pos < |c.tokens| && t == c.tokens[c.pos]
        invariant S.VarNames(c.tokens, start) == S.VarNames(c.tokens, c.pos)
        decreases |c.tokens| - c.pos
      {
        t :- Expect(Comma, c);
        t :- Expect(Ident(""), c);
      }
      t :- Expect(Semicolon, c);
    }
    r := Ok(t);
  }

  /** The `while t == Procedure` loop of `block`; `depth` is the block's own
      depth, already incremented, which each nested `block` receives. */
  method ProcedureClauses(c: Cursor, t0: Token, depth: nat) returns (r: Result<Token, S.SyntaxError>)
    requires c.Valid() && c.pos < |c.tokens| && t0 == c.tokens[c.pos]
    modifies c
    ensures c.Valid() && old(c.pos) <= c.pos
    ensures Agrees(c, r, S.Procedures(c.tokens, old(c.pos), depth))
    decreases |c.tokens| - c.pos, 5
  {
    var t := t0;
    while SameKind(t, Procedure)
      invariant c.Valid() && old(c.pos) <= c.pos < |c.tokens| && t == c.tokens[c.pos]
      invariant S.Procedures(c.tokens, old(c.pos), depth) == S.Procedures(c.tokens, c.pos, depth)
      decreases |c.tokens| - c.pos
    {
      t :- ProcedureDecl(c, depth);
    }
    r := Ok(t);
  }

  /** One pass of the `while t == Procedure` loop. */
  method ProcedureDecl(c: Cursor, depth: nat) returns (r: Result<Token, S.SyntaxError>)
    requires c.Valid()
    modifies c
    ensures c.Valid() && old(c.pos) <= c.pos
    ensures Agrees(c, r, S.ProcedureDecl(c.tokens, old(c.pos), depth))
    decreases |c.tokens| - c.pos, 4
  {
    var t :- Expect(Procedure, c);
    t :- Expect(Ident(""), c);
    t :- Expect(Semicolon, c);
    t :- Block(c, depth);
    r := Expect(Semicolon, c);
  }

  /** `statement`. */
  method Statement(c: Cursor) returns (r: Result<Token, S.SyntaxError>)
    requires c.Valid()
    modifies c
    ensures c.Valid() && old(c.pos) <= c.pos
    ensures Agrees(c, r, S.Statement(c.tokens, old(c.pos)))
    decreases |c.tokens| - c.pos, 4
  {
    hide S.Expression, S.Condition, S.Compound, S.Statements;
    var peeked := c.Peek();
    if peeked.None? {
      return Err(S.UnexpectedEnd(S.StatementRule));
    }
    var t := peeked.value;
    if t.Ident? {
      t :- Expect(Ident(""), c);
      t :- Expect(Assign, c);
      t :- Expression(c);
    } else if t.Call? {
      t :- Expect(Call, c);
      t :- Expect(Ident(""), c);
    } else if t.Begin? {
      t :- Compound(c);
    } else if t.If? {
      t :- Expect(If, c);
      t :- Condition(c);
      t :- Expect(Then, c);
      t :- Statement(c);
    } else if t.While? {
      t :- Expect(While, c);
      t :- Condition(c);
      t :- Expect(Do, c);
      t :- Statement(c);
    }
    r := Ok(t);
  }

  /** The `Begin` arm of `statement`, with its `while t == Semicolon` loop. */
  method Compound(c: Cursor) returns (r: Result<Token, S.SyntaxError>)
    requires c.Valid() && c.pos < |c.tokens| && c.tokens[c.pos].Begin?
    modifies c
    ensures c.Valid() && old(c.pos) <= c.pos
    ensures Agrees(c, r, S.Statement(c.tokens, old(c.pos)))
    decreases |c.tokens| - c.pos, 3
  {
    var t :- Expect(Begin, c);
    t :- Statement(c);
    ghost var start := c.pos;
    while SameKind(t, Semicolon)
      invariant c.Valid() && old(c.pos) < start <= c.pos < |c.tokens| && t == c.tokens[c.pos]
      invariant S.Statements(c.tokens, start) == S.Statements(c.tokens, c.pos)
      decreases |c.tokens| - c.pos
    {
      t :- Expect(Semicolon, c);
      t :- Statement(c);
    }
    r := Expect(End, c);
  }

  /** `condition`. */
  method Condition(c: Cursor) returns (r: Result<Token, S.SyntaxError>)
    requires c.Valid()
    modifies c
    ensures c.Valid() && old(c.pos) <= c.pos
    ensures Agrees(c, r, S.Condition(c.tokens, old(c.pos)))
    decreases |c.tokens| - c.pos, 3
  {
    hide S.Expression, S.Terms, S.Term;
    var peeked := c.Peek();
    if peeked.None? {
      return Err(S.UnexpectedEnd(S.ConditionRule));
    }
    var t := peeked.value;
    if SameKind(t, Odd) {
      t :- Expect(Odd, c);
      t :- Expression(c);
    } else {
      t :- Expression(c);
      if S.IsRelation(t) {
        var _ := c.Next();
      } else {
        return Err(S.InvalidCondition);
      }
      t :- Expression(c);
    }
    r := Ok(t);
  }

  /** `expression`. */
  method Expression(c: Cursor) returns (r: Result<Token, S.SyntaxError>)
    requires c.Valid()
    modifies c
    ensures c.Valid() && old(c.pos) <= c.pos
    ensures Agrees(c, r, S.Expression(c.tokens, old(c.pos)))
    decreases |c.tokens| - c.pos, 2
  {
    hide S.Term, S.Factor, S.Factors;
    var peeked := c.Peek();
    if peeked.None? {
      return Err(S.UnexpectedEnd(S.ExpressionRule));
    }
    var t := peeked.value;
    if SameKind(t, Plus) || SameKind(t, Minus) {
      t :- Expect(t, c);
    }
    t :- Term(c);
    ghost var start := c.pos;
    while SameKind(t, Plus) || SameKind(t, Minus)
      invariant c.Valid() && old(c.pos) < start <= c.pos < |c.tokens| && t == c.tokens[c.pos]
      invariant S.Terms(c.tokens, start) == S.Terms(c.tokens, c.pos)
      decreases |c.tokens| - c.pos
    {
      t :- Expect(t, c);
      t :- Term(c);
    }
    r := Ok(t);
  }

  /** `term`. */
  method Term(c: Cursor) returns (r: Result<Token, S.SyntaxError>)
    requires c.Valid()
    modifies c
    ensures c.Valid() && old(c.pos) <= c.pos
    ensures Agrees(c, r, S.Term(c.tokens, old(c.pos)))
    decreases |c.tokens| - c.pos, 1
  {
    hide S.Factor, S.Expression;
    var peeked := c.Peek();
    if peeked.None? {
      return Err(S.UnexpectedEnd(S.TermRule));
    }
    var t :- Factor(c);
    ghost var start := c.pos;
    while SameKind(t, Multiply) || SameKind(t, Divide)
      invariant c.Valid() && old(c.pos) < start <= c.pos < |c.tokens| && t == c.tokens[c.pos]
      invariant S.Factors(c.tokens, start) == S.Factors(c.tokens, c.pos)
      decreases |c.tokens| - c.pos
    {
      t :- Expect(t, c);
      t :- Factor(c);
    }
    r := Ok(t);
  }

  /** `factor`. */
  method Factor(c: Cursor) returns (r: Result<Token, S.SyntaxError>)
    requires c.Valid()
    modifies c
    ensures c.Valid() && old(c.pos) <= c.pos
    ensures Agrees(c, r, S.Factor(c.tokens, old(c.pos)))
    decreases |c.tokens| - c.pos, 0
  {
    var peeked := c.Peek();
    if peeked.None? {
      return Err(S.UnexpectedEnd(S.FactorRule));
    }
    var t := peeked.value;
    if t.Ident? {
      r := Expect(Ident(""), c);
    } else if t.Number? {
      r := Expect(Number(0), c);
    } else if t.LParen? {
      t :- Expect(LParen, c);
      t :- Expression(c);
      r := Expect(RParen, c);
    } else {
      r := Err(S.ExpectedFactor(t));
    }
  }
}
