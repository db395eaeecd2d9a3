/** The matching functions of `Grammar` one construct at a time: an `Ends`
    lemma says what a match tells about the parts of a tree (and returns
    the positions where they end), and a `Matches` lemma says which matched
    parts make a match of the whole. The proofs in `ParserProps` go through
    these instead of unfolding the recursive matchers themselves. */
module GrammarSteps {
  import opened Tokens
  import opened Grammar

  lemma BeginEnds(toks: seq<Token>, pos: nat, s: Statement, j: nat) returns (q: nat, e: nat)
    requires s.BeginStmt? && StmtEnd(toks, pos, s) == EndsAt(j)
    ensures pos < |toks| && toks[pos].Begin? && StmtEnd(toks, pos + 1, s.first) == EndsAt(q)
    ensures StmtsEnd(toks, q, s.rest) == EndsAt(e) && e < |toks| && toks[e].End? && j == e + 1
  {
    hide CondEnd, ExprEnd;
    q := StmtEnd(toks, pos + 1, s.first).end;
    e := StmtsEnd(toks, q, s.rest).end;
  }

  lemma BeginMatches(toks: seq<Token>, pos: nat, first: Statement, rest: StmtList, q: nat, e: nat)
    requires pos < |toks| && toks[pos].Begin? && StmtEnd(toks, pos + 1, first) == EndsAt(q)
    requires StmtsEnd(toks, q, rest) == EndsAt(e) && e < |toks| && toks[e].End?
    ensures StmtEnd(toks, pos, BeginStmt(first, rest)) == EndsAt(e + 1)
  {
    hide CondEnd, ExprEnd;
    assert TokenEnd(toks, pos, Begin) == EndsAt(pos + 1);
    assert TokenEnd(toks, e, End) == EndsAt(e + 1);
  }

  lemma IfEnds(toks: seq<Token>, pos: nat, s: Statement, j: nat) returns (q: nat)
    requires s.IfStmt? && StmtEnd(toks, pos, s) == EndsAt(j)
    ensures pos < |toks| && toks[pos].If? && CondEnd(toks, pos + 1, s.cond) == EndsAt(q)
    ensures q < |toks| && toks[q].Then? && StmtEnd(toks, q + 1, s.thenBranch) == EndsAt(j)
  {
    hide CondEnd, StmtsEnd, ExprEnd;
    q := CondEnd(toks, pos + 1, s.cond).end;
    assert TokenEnd(toks, q, Then) == EndsAt(q + 1);
  }

  lemma IfMatches(toks: seq<Token>, pos: nat, c: Condition, body: Statement, q: nat, j: nat)
    requires pos < |toks| && toks[pos].If? && CondEnd(toks, pos + 1, c) == EndsAt(q)
    requires q < |toks| && toks[q].Then? && StmtEnd(toks, q + 1, body) == EndsAt(j)
    ensures StmtEnd(toks, pos, IfStmt(c, body)) == EndsAt(j)
  {
    hide CondEnd, StmtsEnd, ExprEnd;
    assert TokenEnd(toks, pos, If) == EndsAt(pos + 1);
    assert TokenEnd(toks, q, Then) == EndsAt(q + 1);
  }

  lemma WhileEnds(toks: seq<Token>, pos: nat, s: Statement, j: nat) returns (q: nat)
    requires s.WhileStmt? && StmtEnd(toks, pos, s) == EndsAt(j)
    ensures pos < |toks| && toks[pos].While? && CondEnd(toks, pos + 1, s.cond) == EndsAt(q)
    ensures q < |toks| && toks[q].Do? && StmtEnd(toks, q + 1, s.loopBody) == EndsAt(j)
  {
    hide CondEnd, StmtsEnd, ExprEnd;
    q := CondEnd(toks, pos + 1, s.cond).end;
    assert TokenEnd(toks, q, Do) == EndsAt(q + 1);
  }

  lemma WhileMatches(toks: seq<Token>, pos: nat, c: Condition, body: Statement, q: nat, j: nat)
    requires pos < |toks| && toks[pos].While? && CondEnd(toks, pos + 1, c) == EndsAt(q)
    requires q < |toks| && toks[q].Do? && StmtEnd(toks, q + 1, body) == EndsAt(j)
    ensures StmtEnd(toks, pos, WhileStmt(c, body)) == EndsAt(j)
  {
    hide CondEnd, StmtsEnd, ExprEnd;
    assert TokenEnd(toks, pos, While) == EndsAt(pos + 1);
    assert TokenEnd(toks, q, Do) == EndsAt(q + 1);
  }

  lemma ProcDeclEnds(toks: seq<Token>, pos: nat, name: string, blk: Block, f: nat) returns (b: nat)
    requires ProcDeclEnd(toks, pos, name, blk) == EndsAt(f)
    ensures pos + 2 < |toks| && toks[pos].Procedure? && toks[pos + 1] == Ident(name) && toks[pos + 2].Semicolon?
    ensures BlockEnd(toks, pos + 3, blk) == EndsAt(b) && b < |toks| && toks[b].Semicolon? && f == b + 1
  {
    hide BlockEnd;
    assert TokenEnd(toks, pos, Procedure) == EndsAt(pos + 1);
    assert TokenEnd(toks, pos + 1, Ident(name)) == EndsAt(pos + 2);
    assert TokenEnd(toks, pos + 2, Semicolon) == EndsAt(pos + 3);
    b := BlockEnd(toks, pos + 3, blk).end;
    assert TokenEnd(toks, b, Semicolon) == EndsAt(f);
  }

  /** At the end of the tokens a block can only match the empty block. */
  lemma BlockAtEnd(toks: seq<Token>, blk: Block, b: nat)
    requires BlockEnd(toks, |toks|, blk) == EndsAt(b)
    ensures b == |toks|
  {
    assert ConstsEnd(toks, |toks|, blk.consts) == EndsAt(|toks|);
    assert VarsEnd(toks, |toks|, blk.vars) == EndsAt(|toks|);
    assert ProcsEnd(toks, |toks|, blk.procs) == EndsAt(|toks|);
  }

  lemma ProcDeclMatches(toks: seq<Token>, pos: nat, blk: Block, b: nat)
    requires pos + 3 < |toks| && toks[pos].Procedure? && toks[pos + 1].Ident? && toks[pos + 2].Semicolon?
    requires BlockEnd(toks, pos + 3, blk) == EndsAt(b) && b < |toks| && toks[b].Semicolon?
    ensures ProcDeclEnd(toks, pos, toks[pos + 1].name, blk) == EndsAt(b + 1)
  {
    hide BlockEnd;
    assert TokenEnd(toks, pos, Procedure) == EndsAt(pos + 1);
    assert TokenEnd(toks, pos + 1, Ident(toks[pos + 1].name)) == EndsAt(pos + 2);
    assert TokenEnd(toks, pos + 2, Semicolon) == EndsAt(pos + 3);
    assert TokenEnd(toks, b, Semicolon) == EndsAt(b + 1);
  }

  lemma ConstsEnds(toks: seq<Token>, pos: nat, cs: seq<ConstDecl>, j: nat) returns (e: nat)
    requires |cs| > 0 && ConstsEnd(toks, pos, cs) == EndsAt(j)
    ensures pos + 3 < |toks| && toks[pos].Const? && toks[pos + 1] == Ident(cs[0].name)
    ensures toks[pos + 2].Equal? && toks[pos + 3] == Number(cs[0].value)
    ensures ConstTailEnd(toks, pos + 4, cs[1..]) == EndsAt(e) && e < |toks| && toks[e].Semicolon? && j == e + 1
  {
    hide ConstTailEnd;
    assert TokenEnd(toks, pos, Const) == EndsAt(pos + 1);
    assert TokenEnd(toks, pos + 1, Ident(cs[0].name)) == EndsAt(pos + 2);
    assert TokenEnd(toks, pos + 2, Equal) == EndsAt(pos + 3);
    assert TokenEnd(toks, pos + 3, Number(cs[0].value)) == EndsAt(pos + 4);
    e := ConstTailEnd(toks, pos + 4, cs[1..]).end;
    assert TokenEnd(toks, e, Semicolon) == EndsAt(j);
  }
}
