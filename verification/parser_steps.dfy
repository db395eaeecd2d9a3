/** One production step at a time. For each production of `ParserSpec`,
    a `Split` lemma says what a success tells about its parts (and returns
    the positions where the parts end), and a `Join` lemma says which
    successful parts make a success. The grammar proofs in `ParserProps` go
    through these instead of unfolding the mutually recursive productions
    themselves. */
module ParserSteps {
  import opened Wrappers
  import opened Tokens
  import opened ParserSpec

  /** `lead ident "=" number` is exactly four tokens of those kinds, with a
      fifth one after them. */
  lemma ConstDefStep(toks: seq<Token>, pos: nat, lead: Token)
    requires lead == Const || lead == Comma
    ensures ConstDef(toks, pos, lead).Ok? <==>
      pos + 4 < |toks| && toks[pos] == lead && toks[pos + 1].Ident? && toks[pos + 2] == Equal && toks[pos + 3].Number?
  {
  }

  lemma ConstsSplit(toks: seq<Token>, pos: nat, j: nat) returns (e: nat)
    requires pos < |toks| && toks[pos].Const? && Consts(toks, pos) == Ok(j)
    ensures ConstDef(toks, pos, Const).Ok? && ConstDefs(toks, pos + 4) == Ok(e) && toks[e].Semicolon? && j == e + 1
  {
    e := ConstDefs(toks, pos + 4).value;
  }

  lemma ConstsJoin(toks: seq<Token>, pos: nat, e: nat)
    requires ConstDef(toks, pos, Const).Ok? && ConstDefs(toks, pos + 4) == Ok(e) && toks[e].Semicolon? && e + 1 < |toks|
    ensures Consts(toks, pos) == Ok(e + 1)
  {
  }

  lemma ConstDefsSplit(toks: seq<Token>, pos: nat, j: nat)
    requires pos < |toks| && toks[pos].Comma? && ConstDefs(toks, pos) == Ok(j)
    ensures ConstDef(toks, pos, Comma).Ok? && ConstDefs(toks, pos + 4) == Ok(j)
  {
  }

  lemma ConstDefsJoin(toks: seq<Token>, pos: nat, j: nat)
    requires ConstDef(toks, pos, Comma).Ok? && ConstDefs(toks, pos + 4) == Ok(j)
    ensures ConstDefs(toks, pos) == Ok(j)
  {
  }

  lemma VarsSplit(toks: seq<Token>, pos: nat, j: nat) returns (e: nat)
    requires pos < |toks| && toks[pos].Var? && Vars(toks, pos) == Ok(j)
    ensures pos + 2 < |toks| && toks[pos + 1].Ident? && VarNames(toks, pos + 2) == Ok(e) && toks[e].Semicolon? && j == e + 1
  {
    e := VarNames(toks, pos + 2).value;
  }

  lemma VarsJoin(toks: seq<Token>, pos: nat, e: nat)
    requires pos + 2 < |toks| && toks[pos].Var? && toks[pos + 1].Ident? && VarNames(toks, pos + 2) == Ok(e)
    requires toks[e].Semicolon? && e + 1 < |toks|
    ensures Vars(toks, pos) == Ok(e + 1)
  {
  }

  lemma VarNamesSplit(toks: seq<Token>, pos: nat, j: nat)
    requires pos < |toks| && toks[pos].Comma? && VarNames(toks, pos) == Ok(j)
    ensures pos + 2 < |toks| && toks[pos + 1].Ident? && VarNames(toks, pos + 2) == Ok(j)
  {
  }

  lemma VarNamesJoin(toks: seq<Token>, pos: nat, j: nat)
    requires pos + 2 < |toks| && toks[pos].Comma? && toks[pos + 1].Ident? && VarNames(toks, pos + 2) == Ok(j)
    ensures VarNames(toks, pos) == Ok(j)
  {
  }

  lemma ProceduresSplit(toks: seq<Token>, pos: nat, depth: nat, j: nat) returns (f: nat)
    requires pos < |toks| && toks[pos].Procedure? && Procedures(toks, pos, depth) == Ok(j)
    ensures ProcedureDecl(toks, pos, depth) == Ok(f) && f < |toks| && Procedures(toks, f, depth) == Ok(j)
  {
    f := ProcedureDecl(toks, pos, depth).value;
  }

  lemma ProceduresJoin(toks: seq<Token>, pos: nat, depth: nat, f: nat, j: nat)
    requires pos < |toks| && toks[pos].Procedure? && ProcedureDecl(toks, pos, depth) == Ok(f)
    requires f < |toks| && Procedures(toks, f, depth) == Ok(j)
    ensures Procedures(toks, pos, depth) == Ok(j)
  {
  }

  /** After a successful declaration the loop goes on from where it ended. */
  lemma ProceduresNext(toks: seq<Token>, pos: nat, depth: nat, f: nat)
    requires pos < |toks| && toks[pos].Procedure? && ProcedureDecl(toks, pos, depth) == Ok(f) && f < |toks|
    ensures Procedures(toks, pos, depth) == Procedures(toks, f, depth)
  {
  }

  /** A failing declaration is the failure of the loop. */
  lemma ProceduresFail(toks: seq<Token>, pos: nat, depth: nat, e: SyntaxError)
    requires pos < |toks| && toks[pos].Procedure? && ProcedureDecl(toks, pos, depth) == Err(e)
    ensures Procedures(toks, pos, depth) == Err(e)
  {
  }

  /** A failing nested block is the failure of its declaration. */
  lemma ProcedureDeclFail(toks: seq<Token>, pos: nat, depth: nat, e: SyntaxError)
    requires pos + 3 < |toks| && toks[pos].Procedure? && toks[pos + 1].Ident? && toks[pos + 2].Semicolon?
    requires Block(toks, pos + 3, depth) == Err(e)
    ensures ProcedureDecl(toks, pos, depth) == Err(e)
  {
    hide Block;
    assert Expect(toks, pos, Procedure) == Ok(pos + 1);
    assert Expect(toks, pos + 1, Ident("")) == Ok(pos + 2);
    assert Expect(toks, pos + 2, Semicolon) == Ok(pos + 3);
  }

  lemma ProcedureDeclSplit(toks: seq<Token>, pos: nat, depth: nat, f: nat) returns (b: nat)
    requires ProcedureDecl(toks, pos, depth) == Ok(f)
    ensures pos + 3 < |toks| && toks[pos].Procedure? && toks[pos + 1].Ident? && toks[pos + 2].Semicolon?
    ensures Block(toks, pos + 3, depth) == Ok(b) && toks[b].Semicolon? && f == b + 1
  {
    hide Block;
    assert Expect(toks, pos, Procedure) == Ok(pos + 1);
    assert Expect(toks, pos + 1, Ident("")) == Ok(pos + 2);
    assert Expect(toks, pos + 2, Semicolon) == Ok(pos + 3);
    b := Block(toks, pos + 3, depth).value;
  }

  lemma ProcedureDeclJoin(toks: seq<Token>, pos: nat, depth: nat, b: nat)
    requires pos + 3 < |toks| && toks[pos].Procedure? && toks[pos + 1].Ident? && toks[pos + 2].Semicolon?
    requires Block(toks, pos + 3, depth) == Ok(b) && b + 1 < |toks| && toks[b].Semicolon?
    ensures ProcedureDecl(toks, pos, depth) == Ok(b + 1)
  {
  }

  lemma BlockSplit(toks: seq<Token>, pos: nat, depth: nat, j: nat) returns (p1: nat, p2: nat, p3: nat)
    requires Block(toks, pos, depth) == Ok(j)
    ensures depth + 1 <= MaxDepth && pos < |toks| && Consts(toks, pos) == Ok(p1)
    ensures p1 < |toks| && Vars(toks, p1) == Ok(p2)
    ensures p2 < |toks| && Procedures(toks, p2, depth + 1) == Ok(p3) && Statement(toks, p3) == Ok(j)
  {
    p1 := Consts(toks, pos).value;
    p2 := Vars(toks, p1).value;
    p3 := Procedures(toks, p2, depth + 1).value;
  }

  lemma BlockJoin(toks: seq<Token>, pos: nat, depth: nat, p1: nat, p2: nat, p3: nat, j: nat)
    requires depth + 1 <= MaxDepth && pos < |toks| && Consts(toks, pos) == Ok(p1)
    requires p1 < |toks| && Vars(toks, p1) == Ok(p2)
    requires p2 < |toks| && Procedures(toks, p2, depth + 1) == Ok(p3) && Statement(toks, p3) == Ok(j)
    ensures Block(toks, pos, depth) == Ok(j)
  {
  }

  /** A failing procedure loop is the failure of its block. */
  lemma BlockProceduresFail(toks: seq<Token>, pos: nat, depth: nat, p1: nat, p2: nat, e: SyntaxError)
    requires depth + 1 <= MaxDepth && pos < |toks| && Consts(toks, pos) == Ok(p1)
    requires p1 < |toks| && Vars(toks, p1) == Ok(p2)
    requires p2 < |toks| && Procedures(toks, p2, depth + 1) == Err(e)
    ensures Block(toks, pos, depth) == Err(e)
  {
  }

  lemma AssignSplit(toks: seq<Token>, pos: nat, j: nat)
    requires pos < |toks| && toks[pos].Ident? && Statement(toks, pos) == Ok(j)
    ensures pos + 2 < |toks| && toks[pos + 1].Assign? && Expression(toks, pos + 2) == Ok(j)
  {
  }

  lemma AssignJoin(toks: seq<Token>, pos: nat, j: nat)
    requires pos + 2 < |toks| && toks[pos].Ident? && toks[pos + 1].Assign? && Expression(toks, pos + 2) == Ok(j)
    ensures Statement(toks, pos) == Ok(j)
  {
  }

  /** `call ident`, in both directions. */
  lemma CallStep(toks: seq<Token>, pos: nat)
    requires pos < |toks| && toks[pos].Call?
    ensures Statement(toks, pos).Ok? <==> pos + 2 < |toks| && toks[pos + 1].Ident?
    ensures Statement(toks, pos).Ok? ==> Statement(toks, pos).value == pos + 2
  {
  }

  lemma BeginSplit(toks: seq<Token>, pos: nat, j: nat) returns (p: nat, e: nat)
    requires pos < |toks| && toks[pos].Begin? && Statement(toks, pos) == Ok(j)
    ensures Statement(toks, pos + 1) == Ok(p) && Statements(toks, p) == Ok(e) && toks[e].End? && j == e + 1
  {
    p := Statement(toks, pos + 1).value;
    e := Statements(toks, p).value;
  }

  lemma BeginJoin(toks: seq<Token>, pos: nat, p: nat, e: nat)
    requires pos < |toks| && toks[pos].Begin? && Statement(toks, pos + 1) == Ok(p) && p < |toks|
    requires Statements(toks, p) == Ok(e) && toks[e].End? && e + 1 < |toks|
    ensures Statement(toks, pos) == Ok(e + 1)
  {
  }

  /** `if condition then statement` and `while condition do statement`,
      whose `keyword` is `then` or `do`. */
  lemma GuardedSplit(toks: seq<Token>, pos: nat, keyword: Token, j: nat) returns (q: nat)
    requires pos < |toks| && Statement(toks, pos) == Ok(j)
    requires (toks[pos].If? && keyword == Then) || (toks[pos].While? && keyword == Do)
    ensures Condition(toks, pos + 1) == Ok(q) && toks[q] == keyword && Statement(toks, q + 1) == Ok(j)
  {
    q := Condition(toks, pos + 1).value;
  }

  lemma GuardedJoin(toks: seq<Token>, pos: nat, keyword: Token, q: nat, j: nat)
    requires pos < |toks| && ((toks[pos].If? && keyword == Then) || (toks[pos].While? && keyword == Do))
    requires Condition(toks, pos + 1) == Ok(q) && toks[q] == keyword && Statement(toks, q + 1) == Ok(j)
    ensures Statement(toks, pos) == Ok(j)
  {
  }

  lemma StatementsSplit(toks: seq<Token>, pos: nat, j: nat) returns (p: nat)
    requires pos < |toks| && toks[pos].Semicolon? && Statements(toks, pos) == Ok(j)
    ensures Statement(toks, pos + 1) == Ok(p) && p < |toks| && Statements(toks, p) == Ok(j)
  {
    p := Statement(toks, pos + 1).value;
  }

  lemma StatementsJoin(toks: seq<Token>, pos: nat, p: nat, j: nat)
    requires pos < |toks| && toks[pos].Semicolon? && Statement(toks, pos + 1) == Ok(p) && p < |toks| && Statements(toks, p) == Ok(j)
    ensures Statements(toks, pos) == Ok(j)
  {
  }

  lemma OddSplit(toks: seq<Token>, pos: nat, j: nat)
    requires pos < |toks| && toks[pos].Odd? && Condition(toks, pos) == Ok(j)
    ensures Expression(toks, pos + 1) == Ok(j)
  {
  }

  lemma OddJoin(toks: seq<Token>, pos: nat, j: nat)
    requires pos < |toks| && toks[pos].Odd? && Expression(toks, pos + 1) == Ok(j)
    ensures Condition(toks, pos) == Ok(j)
  {
  }

  lemma ComparisonSplit(toks: seq<Token>, pos: nat, j: nat) returns (p: nat)
    requires pos < |toks| && !toks[pos].Odd? && Condition(toks, pos) == Ok(j)
    ensures Expression(toks, pos) == Ok(p) && p < |toks| && IsRelation(toks[p]) && Expression(toks, p + 1) == Ok(j)
  {
    p := Expression(toks, pos).value;
  }

  lemma ComparisonJoin(toks: seq<Token>, pos: nat, p: nat, j: nat)
    requires pos < |toks| && !toks[pos].Odd? && Expression(toks, pos) == Ok(p) && p < |toks| && IsRelation(toks[p])
    requires Expression(toks, p + 1) == Ok(j)
    ensures Condition(toks, pos) == Ok(j)
  {
  }

  /** `p` is where the first term starts, after the optional sign. */
  lemma ExpressionSplit(toks: seq<Token>, pos: nat, p: nat, j: nat) returns (q: nat)
    requires pos < |toks| && p == (if IsAddOp(toks[pos]) then pos + 1 else pos) && Expression(toks, pos) == Ok(j)
    ensures Term(toks, p) == Ok(q) && q < |toks| && Terms(toks, q) == Ok(j)
  {
    q := Term(toks, p).value;
  }

  lemma ExpressionJoin(toks: seq<Token>, pos: nat, p: nat, q: nat, j: nat)
    requires pos < |toks| && p == (if IsAddOp(toks[pos]) then pos + 1 else pos)
    requires Term(toks, p) == Ok(q) && q < |toks| && Terms(toks, q) == Ok(j)
    ensures Expression(toks, pos) == Ok(j)
  {
  }

  lemma TermsSplit(toks: seq<Token>, pos: nat, j: nat) returns (p: nat)
    requires pos < |toks| && IsAddOp(toks[pos]) && Terms(toks, pos) == Ok(j)
    ensures Term(toks, pos + 1) == Ok(p) && p < |toks| && Terms(toks, p) == Ok(j)
  {
    p := Term(toks, pos + 1).value;
  }

  lemma TermsJoin(toks: seq<Token>, pos: nat, p: nat, j: nat)
    requires pos < |toks| && IsAddOp(toks[pos]) && Term(toks, pos + 1) == Ok(p) && p < |toks| && Terms(toks, p) == Ok(j)
    ensures Terms(toks, pos) == Ok(j)
  {
  }

  lemma TermSplit(toks: seq<Token>, pos: nat, j: nat) returns (p: nat)
    requires Term(toks, pos) == Ok(j)
    ensures Factor(toks, pos) == Ok(p) && p < |toks| && Factors(toks, p) == Ok(j)
  {
    p := Factor(toks, pos).value;
  }

  lemma TermJoin(toks: seq<Token>, pos: nat, p: nat, j: nat)
    requires Factor(toks, pos) == Ok(p) && p < |toks| && Factors(toks, p) == Ok(j)
    ensures Term(toks, pos) == Ok(j)
  {
  }

  lemma FactorsSplit(toks: seq<Token>, pos: nat, j: nat) returns (p: nat)
    requires pos < |toks| && IsMulOp(toks[pos]) && Factors(toks, pos) == Ok(j)
    ensures Factor(toks, pos + 1) == Ok(p) && p < |toks| && Factors(toks, p) == Ok(j)
  {
    p := Factor(toks, pos + 1).value;
  }

  lemma FactorsJoin(toks: seq<Token>, pos: nat, p: nat, j: nat)
    requires pos < |toks| && IsMulOp(toks[pos]) && Factor(toks, pos + 1) == Ok(p) && p < |toks| && Factors(toks, p) == Ok(j)
    ensures Factors(toks, pos) == Ok(j)
  {
  }

  lemma ParenSplit(toks: seq<Token>, pos: nat, j: nat) returns (q: nat)
    requires pos < |toks| && toks[pos].LParen? && Factor(toks, pos) == Ok(j)
    ensures Expression(toks, pos + 1) == Ok(q) && toks[q].RParen? && j == q + 1
  {
    q := Expression(toks, pos + 1).value;
  }

  lemma ParenJoin(toks: seq<Token>, pos: nat, q: nat)
    requires pos < |toks| && toks[pos].LParen? && Expression(toks, pos + 1) == Ok(q) && toks[q].RParen? && q + 1 < |toks|
    ensures Factor(toks, pos) == Ok(q + 1)
  {
    hide Expression, Expect;
    assert Expect(toks, pos, LParen) == Ok(pos + 1);
    assert Expect(toks, q, RParen) == Ok(q + 1);
  }
}
