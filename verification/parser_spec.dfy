/** The recursive-descent parser (src/parser.rs) as functions over the token
    sequence. Each production takes the cursor position and, on success,
    returns the position of the token that follows it: that token is the
    one the source's production returns, still unconsumed. */
module ParserSpec {
  import opened Wrappers
  import opened Tokens

  /** `block` rejects a depth above this after incrementing it; the top
      level starts at 0, so procedures nest one level deep. */
  const MaxDepth: nat := 2

  /** The production that found the cursor empty. */
  datatype Production = BlockRule | StatementRule | ConditionRule | ExpressionRule | TermRule | FactorRule

  datatype SyntaxError =
    | EmptyFile                           // `parse` was given no tokens
    | MissingDot                          // the top-level block is not followed by `.`
    | TrailingToken(found: Token)          // a token follows the final `.`
    | NestingTooDeep                      // `block` entered above `MaxDepth`
    | Mismatch(expected: Token, found: Token)  // `expect` consumed the wrong kind
    | MissingToken(expected: Token)       // `expect` had nothing to consume, or nothing after it
    | UnexpectedEnd(rule: Production)     // a production found no token
    | InvalidCondition                    // no `= # < >` after a condition's left operand
    | ExpectedFactor(found: Token)        // a factor starts with something else

  predicate IsRelation(t: Token) { t.Equal? || t.Hash? || t.LessThan? || t.GreaterThan? }

  /** `expect(k)`: consumes one token, which must have the kind of `k`, and
      returns the position of the following token, which must exist. */
  function Expect(toks: seq<Token>, pos: nat, k: Token): (r: Result<nat, SyntaxError>)
    ensures r.Ok? <==> pos + 1 < |toks| && SameKind(k, toks[pos])
    ensures r.Ok? ==> r.value == pos + 1
    ensures pos < |toks| && !SameKind(k, toks[pos]) ==> r == Err(Mismatch(k, toks[pos]))
    ensures pos < |toks| && SameKind(k, toks[pos]) && pos + 1 == |toks| ==> r == Err(MissingToken(k))
  {
    if pos >= |toks| then Err(MissingToken(k))
    else if !SameKind(k, toks[pos]) then Err(Mismatch(k, toks[pos]))
    else if pos + 1 >= |toks| then Err(MissingToken(k))
    else Ok(pos + 1)
  }

  /** `parse`: the whole sequence must be one block followed by a final `.`. */
  function Parse(toks: seq<Token>): (r: Result<(), SyntaxError>)
    ensures |toks| == 0 ==> r == Err(EmptyFile)
    ensures r.Ok? <==> |toks| > 0 && Block(toks, 0, 0) == Ok(|toks| - 1) && toks[|toks| - 1].Dot?
    ensures |toks| > 0 && Block(toks, 0, 0).Err? ==> r == Err(Block(toks, 0, 0).error)
    ensures |toks| > 0 && Block(toks, 0, 0).Ok? && !toks[Block(toks, 0, 0).value].Dot? ==> r == Err(MissingDot)
    ensures |toks| > 0 && Block(toks, 0, 0).Ok? && toks[Block(toks, 0, 0).value].Dot? && Block(toks, 0, 0).value + 1 < |toks|
      ==> r == Err(TrailingToken(toks[Block(toks, 0, 0).value + 1]))
  {
    if |toks| == 0 then Err(EmptyFile)
    else
      var p :- Block(toks, 0, 0);
      if !toks[p].Dot? then Err(MissingDot)
      else if p + 1 < |toks| then Err(TrailingToken(toks[p + 1]))
      else Ok(())
  }

  /** `block` at nesting depth `depth`. */
  function Block(toks: seq<Token>, pos: nat, depth: nat): (r: Result<nat, SyntaxError>)
    ensures r.Ok? ==> pos <= r.value < |toks|
    decreases |toks| - pos, 6
  {
    if depth + 1 > MaxDepth then Err(NestingTooDeep)
    else if pos >= |toks| then Err(UnexpectedEnd(BlockRule))
    else
      var p1 :- Consts(toks, pos);
      var p2 :- Vars(toks, p1);
      var p3 :- Procedures(toks, p2, depth + 1);
      Statement(toks, p3)
  }

  /** The optional `const` clause of a block. */
  function Consts(toks: seq<Token>, pos: nat): (r: Result<nat, SyntaxError>)
    requires pos < |toks|
    ensures r.Ok? ==> pos <= r.value < |toks|
  {
    if !toks[pos].Const? then Ok(pos)
    else
      var p :- ConstDef(toks, pos, Const);
      var q :- ConstDefs(toks, p);
      Expect(toks, q, Semicolon)
  }

  /** `lead ident "=" number`, where `lead` is `const` or `,`. */
  function ConstDef(toks: seq<Token>, pos: nat, lead: Token): (r: Result<nat, SyntaxError>)
    ensures r.Ok? ==> r.value == pos + 4 < |toks|
  {
    var p :- Expect(toks, pos, lead);
    var q :- Expect(toks, p, Ident(""));
    var e :- Expect(toks, q, Equal);
    Expect(toks, e, Number(0))
  }

  /** The `{ "," ident "=" number }` loop of a `const` clause. */
  function ConstDefs(toks: seq<Token>, pos: nat): (r: Result<nat, SyntaxError>)
    requires pos < |toks|
    ensures r.Ok? ==> pos <= r.value < |toks| && !toks[r.value].Comma?
    decreases |toks| - pos
  {
    if !toks[pos].Comma? then Ok(pos)
    else
      var p :- ConstDef(toks, pos, Comma);
      ConstDefs(toks, p)
  }

  /** The optional `var` clause of a block. */
  function Vars(toks: seq<Token>, pos: nat): (r: Result<nat, SyntaxError>)
    requires pos < |toks|
    ensures r.Ok? ==> pos <= r.value < |toks|
  {
    if !toks[pos].Var? then Ok(pos)
    else
      var p :- Expect(toks, pos, Var);
      var q :- Expect(toks, p, Ident(""));
      var e :- VarNames(toks, q);
      Expect(toks, e, Semicolon)
  }

  /** The `{ "," ident }` loop of a `var` clause. */
  function VarNames(toks: seq<Token>, pos: nat): (r: Result<nat, SyntaxError>)
    requires pos < |toks|
    ensures r.Ok? ==> pos <= r.value < |toks| && !toks[r.value].Comma?
    decreases |toks| - pos
  {
    if !toks[pos].Comma? then Ok(pos)
    else
      var p :- Expect(toks, pos, Comma);
      var q :- Expect(toks, p, Ident(""));
      VarNames(toks, q)
  }

  /** The `{ "procedure" ident ";" block ";" }` loop of a block whose own
      depth (after the increment) is `depth`. */
  function Procedures(toks: seq<Token>, pos: nat, depth: nat): (r: Result<nat, SyntaxError>)
    requires pos < |toks|
    ensures r.Ok? ==> pos <= r.value < |toks| && !toks[r.value].Procedure?
    decreases |toks| - pos, 5
  {
    if !toks[pos].Procedure? then Ok(pos)
    else
      var p :- ProcedureDecl(toks, pos, depth);
      Procedures(toks, p, depth)
  }

  /** One pass of that loop: `procedure ident ; block ;`. */
  function ProcedureDecl(toks: seq<Token>, pos: nat, depth: nat): (r: Result<nat, SyntaxError>)
    ensures r.Ok? ==> pos < r.value < |toks|
    decreases |toks| - pos, 4
  {
    var p :- Expect(toks, pos, Procedure);
    var q :- Expect(toks, p, Ident(""));
    var e :- Expect(toks, q, Semicolon);
    var b :- Block(toks, e, depth);
    Expect(toks, b, Semicolon)
  }

  /** A statement starts with one of these; on any other token `statement`
      is the empty statement. */
  predicate StartsStatement(t: Token) {
    t.Ident? || t.Call? || t.Begin? || t.If? || t.While?
  }

  /** `statement`: dispatches on its first token. */
  function Statement(toks: seq<Token>, pos: nat): (r: Result<nat, SyntaxError>)
    ensures r.Ok? ==> pos <= r.value < |toks|
    ensures r.Ok? && pos < |toks| && StartsStatement(toks[pos]) ==> pos < r.value
    ensures pos < |toks| && !StartsStatement(toks[pos]) ==> r == Ok(pos)
    decreases |toks| - pos, 4
  {
    if pos >= |toks| then Err(UnexpectedEnd(StatementRule))
    else if toks[pos].Ident? then Assignment(toks, pos)
    else if toks[pos].Call? then ProcedureCall(toks, pos)
    else if toks[pos].Begin? then Compound(toks, pos)
    else if toks[pos].If? then Guarded(toks, pos, If, Then)
    else if toks[pos].While? then Guarded(toks, pos, While, Do)
    else Ok(pos)
  }

  /** The `Ident` arm of `statement`: `ident := expression`. */
  function Assignment(toks: seq<Token>, pos: nat): (r: Result<nat, SyntaxError>)
    ensures r.Ok? ==> pos < r.value < |toks|
    decreases |toks| - pos, 3
  {
    var p :- Expect(toks, pos, Ident(""));
    var q :- Expect(toks, p, Assign);
    Expression(toks, q)
  }

  /** The `Call` arm of `statement`: `call ident`. */
  function ProcedureCall(toks: seq<Token>, pos: nat): (r: Result<nat, SyntaxError>)
    ensures r.Ok? ==> r.value == pos + 2 < |toks|
  {
    var p :- Expect(toks, pos, Call);
    Expect(toks, p, Ident(""))
  }

  /** The `Begin` arm of `statement`: `begin statement {; statement} end`. */
  function Compound(toks: seq<Token>, pos: nat): (r: Result<nat, SyntaxError>)
    ensures r.Ok? ==> pos < r.value < |toks|
    decreases |toks| - pos, 3
  {
    var p :- Expect(toks, pos, Begin);
    var q :- Statement(toks, p);
    var e :- Statements(toks, q);
    Expect(toks, e, End)
  }

  /** The `If` and `While` arms of `statement`: `lead condition keyword
      statement`, with `lead` and `keyword` either `if` and `then` or
      `while` and `do`. */
  function Guarded(toks: seq<Token>, pos: nat, lead: Token, keyword: Token): (r: Result<nat, SyntaxError>)
    ensures r.Ok? ==> pos < r.value < |toks|
    decreases |toks| - pos, 3
  {
    var p :- Expect(toks, pos, lead);
    var q :- Condition(toks, p);
    var e :- Expect(toks, q, keyword);
    Statement(toks, e)
  }

  /** The `{ ";" statement }` loop of `begin ... end`. */
  function Statements(toks: seq<Token>, pos: nat): (r: Result<nat, SyntaxError>)
    requires pos < |toks|
    ensures r.Ok? ==> pos <= r.value < |toks| && !toks[r.value].Semicolon?
    decreases |toks| - pos, 4
  {
    if !toks[pos].Semicolon? then Ok(pos)
    else
      var p :- Expect(toks, pos, Semicolon);
      var q :- Statement(toks, p);
      Statements(toks, q)
  }

  /** `condition`. */
  function Condition(toks: seq<Token>, pos: nat): (r: Result<nat, SyntaxError>)
    ensures r.Ok? ==> pos < r.value < |toks|
    decreases |toks| - pos, 3
  {
    if pos >= |toks| then Err(UnexpectedEnd(ConditionRule))
    else if toks[pos].Odd? then
      var p :- Expect(toks, pos, Odd);
      Expression(toks, p)
    else
      var p :- Expression(toks, pos);
      if IsRelation(toks[p]) then Expression(toks, p + 1) else Err(InvalidCondition)
  }

  predicate IsAddOp(t: Token) { t.Plus? || t.Minus? }

  predicate IsMulOp(t: Token) { t.Multiply? || t.Divide? }

  /** `expression`. */
  function Expression(toks: seq<Token>, pos: nat): (r: Result<nat, SyntaxError>)
    ensures r.Ok? ==> pos < r.value < |toks| && !IsAddOp(toks[r.value])
    decreases |toks| - pos, 2
  {
    if pos >= |toks| then Err(UnexpectedEnd(ExpressionRule))
    else
      var p :- if IsAddOp(toks[pos]) then Expect(toks, pos, toks[pos]) else Ok(pos);
      var q :- Term(toks, p);
      Terms(toks, q)
  }

  /** The `{ ("+" | "-") term }` loop of `expression`. */
  function Terms(toks: seq<Token>, pos: nat): (r: Result<nat, SyntaxError>)
    requires pos < |toks|
    ensures r.Ok? ==> pos <= r.value < |toks| && !IsAddOp(toks[r.value])
    decreases |toks| - pos, 2
  {
    if !IsAddOp(toks[pos]) then Ok(pos)
    else
      var p :- Expect(toks, pos, toks[pos]);
      var q :- Term(toks, p);
      Terms(toks, q)
  }

  /** `term`. */
  function Term(toks: seq<Token>, pos: nat): (r: Result<nat, SyntaxError>)
    ensures r.Ok? ==> pos < r.value < |toks| && !IsMulOp(toks[r.value])
    decreases |toks| - pos, 1
  {
    if pos >= |toks| then Err(UnexpectedEnd(TermRule))
    else
      var p :- Factor(toks, pos);
      Factors(toks, p)
  }

  /** The `{ ("*" | "/") factor }` loop of `term`. */
  function Factors(toks: seq<Token>, pos: nat): (r: Result<nat, SyntaxError>)
    requires pos < |toks|
    ensures r.Ok? ==> pos <= r.value < |toks| && !IsMulOp(toks[r.value])
    decreases |toks| - pos, 1
  {
    if !IsMulOp(toks[pos]) then Ok(pos)
    else
      var p :- Expect(toks, pos, toks[pos]);
      var q :- Factor(toks, p);
      Factors(toks, q)
  }

  /** `factor`. */
  function Factor(toks: seq<Token>, pos: nat): (r: Result<nat, SyntaxError>)
    ensures r.Ok? ==> pos < r.value < |toks|
    ensures pos < |toks| && !(toks[pos].Ident? || toks[pos].Number? || toks[pos].LParen?) ==> r == Err(ExpectedFactor(toks[pos]))
    decreases |toks| - pos, 0
  {
    if pos >= |toks| then Err(UnexpectedEnd(FactorRule))
    else if toks[pos].Ident? then Expect(toks, pos, Ident(""))
    else if toks[pos].Number? then Expect(toks, pos, Number(0))
    else if toks[pos].LParen? then
      var p :- Expect(toks, pos, LParen);
      var q :- Expression(toks, p);
      Expect(toks, q, RParen)
    else Err(ExpectedFactor(toks[pos]))
  }
}
