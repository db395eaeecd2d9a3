/** What the parser accepts, proved against the grammar of `Grammar`:
    every accepted stretch of tokens is the token sequence of a syntax tree
    (soundness), the tokens of every tree are accepted when the token after
    them is one the grammar lets follow (completeness), and so `parse`
    accepts a token sequence exactly when it is a well-nested block followed
    by `.`. */
module ParserProps {
  import opened Wrappers
  import opened Tokens
  import S = ParserSpec
  import opened ParserSteps
  import opened Grammar
  import opened GrammarSteps

  // ---------------------------------------------------------------------
  // Soundness: an accepted stretch is the token sequence of a tree. Each
  // lemma is given the position `j` the production returned.
  // ---------------------------------------------------------------------

  /** A successful `factor` consumed exactly the tokens of a factor. */
  lemma {:induction false} FactorSound(toks: seq<Token>, pos: nat, j: nat) returns (f: Factor)
    requires S.Factor(toks, pos) == Ok(j)
    ensures FactorEnd(toks, pos, f) == EndsAt(j)
    decreases |toks| - pos, 0
  {
    if toks[pos].Ident? {
      f := NameRef(toks[pos].name);
    } else if toks[pos].Number? {
      f := Literal(toks[pos].value);
    } else {
      var q := ParenSplit(toks, pos, j);
      var e := ExprSound(toks, pos + 1, q);
      f := Paren(e);
    }
  }

  /** The `* /` loop consumed exactly the tokens of a factor list. */
  lemma {:induction false} FactorsSound(toks: seq<Token>, pos: nat, j: nat) returns (fs: FactorList)
    requires pos < |toks| && S.Factors(toks, pos) == Ok(j)
    ensures FactorsEnd(toks, pos, fs) == EndsAt(j)
    decreases |toks| - pos, 1
  {
    if !S.IsMulOp(toks[pos]) {
      fs := NoFactors;
    } else {
      var op := if toks[pos].Multiply? then Mul else Div;
      var p := FactorsSplit(toks, pos, j);
      var f := FactorSound(toks, pos + 1, p);
      var rest := FactorsSound(toks, p, j);
      fs := MulFactor(op, f, rest);
    }
  }

  /** A successful `term` consumed exactly the tokens of a term. */
  lemma {:induction false} TermSound(toks: seq<Token>, pos: nat, j: nat) returns (t: Term)
    requires S.Term(toks, pos) == Ok(j)
    ensures TermEnd(toks, pos, t) == EndsAt(j)
    decreases |toks| - pos, 1
  {
    var p := TermSplit(toks, pos, j);
    var f := FactorSound(toks, pos, p);
    var fs := FactorsSound(toks, p, j);
    t := Term(f, fs);
  }

  /** The `+ -` loop consumed exactly the tokens of a term list. */
  lemma {:induction false} TermsSound(toks: seq<Token>, pos: nat, j: nat) returns (ts: TermList)
    requires pos < |toks| && S.Terms(toks, pos) == Ok(j)
    ensures TermsEnd(toks, pos, ts) == EndsAt(j)
    decreases |toks| - pos, 2
  {
    if !S.IsAddOp(toks[pos]) {
      ts := NoTerms;
    } else {
      var op := if toks[pos].Plus? then Add else Sub;
      var p := TermsSplit(toks, pos, j);
      var t := TermSound(toks, pos + 1, p);
      var rest := TermsSound(toks, p, j);
      ts := AddTerm(op, t, rest);
    }
  }

  /** A successful `expression` consumed exactly the tokens of an expression. */
  lemma {:induction false} ExprSound(toks: seq<Token>, pos: nat, j: nat) returns (e: Expr)
    requires S.Expression(toks, pos) == Ok(j)
    ensures ExprEnd(toks, pos, e) == EndsAt(j)
    decreases |toks| - pos, 2
  {
    var sign: Option<AddOp> := None;
    var p := pos;
    if S.IsAddOp(toks[pos]) {
      sign := Some(if toks[pos].Plus? then Add else Sub);
      p := pos + 1;
    }
    var q := ExpressionSplit(toks, pos, p, j);
    var t := TermSound(toks, p, q);
    var ts := TermsSound(toks, q, j);
    e := Expr(sign, t, ts);
  }

  /** A successful `condition` consumed exactly the tokens of a condition. */
  lemma {:induction false} CondSound(toks: seq<Token>, pos: nat, j: nat) returns (c: Condition)
    requires S.Condition(toks, pos) == Ok(j)
    ensures CondEnd(toks, pos, c) == EndsAt(j)
    decreases |toks| - pos, 3
  {
    if toks[pos].Odd? {
      OddSplit(toks, pos, j);
      var e := ExprSound(toks, pos + 1, j);
      c := OddCond(e);
    } else {
      var p := ComparisonSplit(toks, pos, j);
      var l := ExprSound(toks, pos, p);
      var rel := if toks[p].Equal? then Eq else if toks[p].Hash? then Ne else if toks[p].LessThan? then Lt else Gt;
      var r := ExprSound(toks, p + 1, j);
      c := Comparison(l, rel, r);
      assert TokenEnd(toks, p, RelationToken(rel)) == EndsAt(p + 1);
    }
  }

  /** A successful `statement` consumed exactly the tokens of a statement
      (the empty statement when it consumed nothing). */
  lemma {:induction false} StmtSound(toks: seq<Token>, pos: nat, j: nat) returns (s: Statement)
    requires S.Statement(toks, pos) == Ok(j)
    ensures StmtEnd(toks, pos, s) == EndsAt(j)
    decreases |toks| - pos, 4
  {
    var t := toks[pos];
    if t.Ident? {
      AssignSplit(toks, pos, j);
      var e := ExprSound(toks, pos + 2, j);
      s := AssignStmt(t.name, e);
    } else if t.Call? {
      CallStep(toks, pos);
      s := CallStmt(toks[pos + 1].name);
    } else if t.Begin? {
      s := BeginSound(toks, pos, j);
    } else if t.If? {
      s := IfSound(toks, pos, j);
    } else if t.While? {
      s := WhileSound(toks, pos, j);
    } else {
      s := EmptyStmt;
    }
  }

  lemma {:induction false} BeginSound(toks: seq<Token>, pos: nat, j: nat) returns (s: Statement)
    requires pos < |toks| && toks[pos].Begin? && S.Statement(toks, pos) == Ok(j)
    ensures StmtEnd(toks, pos, s) == EndsAt(j)
    decreases |toks| - pos, 3
  {
    hide S.Statement, S.Statements, S.Compound, StmtEnd, StmtsEnd;
    var p, e := BeginSplit(toks, pos, j);
    var first := StmtSound(toks, pos + 1, p);
    var rest := StmtsSound(toks, p, e);
    s := BeginStmt(first, rest);
    BeginMatches(toks, pos, first, rest, p, e);
  }

  lemma {:induction false} IfSound(toks: seq<Token>, pos: nat, j: nat) returns (s: Statement)
    requires pos < |toks| && toks[pos].If? && S.Statement(toks, pos) == Ok(j)
    ensures StmtEnd(toks, pos, s) == EndsAt(j)
    decreases |toks| - pos, 3
  {
    hide S.Statement, S.Guarded, S.Condition, StmtEnd, CondEnd;
    var q := GuardedSplit(toks, pos, Then, j);
    var c := CondSound(toks, pos + 1, q);
    var body := StmtSound(toks, q + 1, j);
    s := IfStmt(c, body);
    IfMatches(toks, pos, c, body, q, j);
  }

  lemma {:induction false} WhileSound(toks: seq<Token>, pos: nat, j: nat) returns (s: Statement)
    requires pos < |toks| && toks[pos].While? && S.Statement(toks, pos) == Ok(j)
    ensures StmtEnd(toks, pos, s) == EndsAt(j)
    decreases |toks| - pos, 3
  {
    hide S.Statement, S.Guarded, S.Condition, StmtEnd, CondEnd;
    var q := GuardedSplit(toks, pos, Do, j);
    var c := CondSound(toks, pos + 1, q);
    var body := StmtSound(toks, q + 1, j);
    s := WhileStmt(c, body);
    WhileMatches(toks, pos, c, body, q, j);
  }

  /** The `; statement` loop of `begin ... end` consumed exactly the tokens
      of a statement list. */
  lemma {:induction false} StmtsSound(toks: seq<Token>, pos: nat, j: nat) returns (ss: StmtList)
    requires pos < |toks| && S.Statements(toks, pos) == Ok(j)
    ensures StmtsEnd(toks, pos, ss) == EndsAt(j)
    decreases |toks| - pos, 4
  {
    if !toks[pos].Semicolon? {
      ss := NoMore;
    } else {
      var p := StatementsSplit(toks, pos, j);
      var s := StmtSound(toks, pos + 1, p);
      var rest := StmtsSound(toks, p, j);
      ss := Another(s, rest);
    }
  }

  /** A successful `const` clause loop consumed the tokens of its definitions. */
  lemma {:induction false} ConstTailSound(toks: seq<Token>, pos: nat, j: nat) returns (cs: seq<ConstDecl>)
    requires pos < |toks| && S.ConstDefs(toks, pos) == Ok(j)
    ensures ConstTailEnd(toks, pos, cs) == EndsAt(j)
    decreases |toks| - pos
  {
    if !toks[pos].Comma? {
      cs := [];
    } else {
      ConstDefsSplit(toks, pos, j);
      ConstDefStep(toks, pos, Comma);
      var d := ConstDecl(toks[pos + 1].name, toks[pos + 3].value);
      var rest := ConstTailSound(toks, pos + 4, j);
      cs := [d] + rest;
      assert cs[0] == d && cs[1..] == rest;
      assert ConstDefEnd(toks, pos, Comma, d) == EndsAt(pos + 4);
    }
  }

  lemma ConstsSound(toks: seq<Token>, pos: nat, j: nat) returns (cs: seq<ConstDecl>)
    requires pos < |toks| && S.Consts(toks, pos) == Ok(j)
    ensures ConstsEnd(toks, pos, cs) == EndsAt(j)
  {
    if !toks[pos].Const? {
      cs := [];
    } else {
      var e := ConstsSplit(toks, pos, j);
      ConstDefStep(toks, pos, Const);
      var d := ConstDecl(toks[pos + 1].name, toks[pos + 3].value);
      var rest := ConstTailSound(toks, pos + 4, e);
      cs := [d] + rest;
      assert cs[0] == d && cs[1..] == rest;
      assert ConstDefEnd(toks, pos, Const, d) == EndsAt(pos + 4);
    }
  }

  lemma {:induction false} VarTailSound(toks: seq<Token>, pos: nat, j: nat) returns (vs: seq<string>)
    requires pos < |toks| && S.VarNames(toks, pos) == Ok(j)
    ensures VarTailEnd(toks, pos, vs) == EndsAt(j)
    decreases |toks| - pos
  {
    if !toks[pos].Comma? {
      vs := [];
    } else {
      VarNamesSplit(toks, pos, j);
      var rest := VarTailSound(toks, pos + 2, j);
      vs := [toks[pos + 1].name] + rest;
      assert vs[1..] == rest;
    }
  }

  lemma VarsSound(toks: seq<Token>, pos: nat, j: nat) returns (vs: seq<string>)
    requires pos < |toks| && S.Vars(toks, pos) == Ok(j)
    ensures VarsEnd(toks, pos, vs) == EndsAt(j)
  {
    if !toks[pos].Var? {
      vs := [];
    } else {
      var e := VarsSplit(toks, pos, j);
      var rest := VarTailSound(toks, pos + 2, e);
      vs := [toks[pos + 1].name] + rest;
      assert vs[1..] == rest;
    }
  }

  /** The procedure declarations of a block at `depth` are well nested. */
  lemma {:induction false} ProcsSound(toks: seq<Token>, pos: nat, depth: nat, j: nat) returns (ps: ProcList)
    requires pos < |toks| && S.Procedures(toks, pos, depth) == Ok(j)
    ensures ProcsNested(ps, depth) && ProcsEnd(toks, pos, ps) == EndsAt(j)
    decreases |toks| - pos, 5
  {
    if !toks[pos].Procedure? {
      ps := NoProcs;
    } else {
      var f := ProceduresSplit(toks, pos, depth, j);
      var blk := ProcDeclSound(toks, pos, depth, f);
      var rest := ProcsSound(toks, f, depth, j);
      ps := Proc(toks[pos + 1].name, blk, rest);
    }
  }

  /** A successful procedure declaration holds a well-nested block. */
  lemma {:induction false} ProcDeclSound(toks: seq<Token>, pos: nat, depth: nat, f: nat) returns (blk: Block)
    requires S.ProcedureDecl(toks, pos, depth) == Ok(f)
    ensures pos + 1 < |toks| && toks[pos + 1].Ident?
    ensures Nested(blk, depth) && ProcDeclEnd(toks, pos, toks[pos + 1].name, blk) == EndsAt(f)
    decreases |toks| - pos, 4
  {
    hide S.ProcedureDecl, S.Block, ProcDeclEnd, BlockEnd;
    var b := ProcedureDeclSplit(toks, pos, depth, f);
    blk := BlockSound(toks, pos + 3, depth, b);
    ProcDeclMatches(toks, pos, blk, b);
  }

  /** A successful `block` consumed exactly the tokens of a block whose
      procedures nest within the limit. */
  lemma {:induction false} BlockSound(toks: seq<Token>, pos: nat, depth: nat, j: nat) returns (b: Block)
    requires S.Block(toks, pos, depth) == Ok(j)
    ensures Nested(b, depth) && BlockEnd(toks, pos, b) == EndsAt(j)
    decreases |toks| - pos, 6
  {
    var p1, p2, p3 := BlockSplit(toks, pos, depth, j);
    var cs := ConstsSound(toks, pos, p1);
    var vs := VarsSound(toks, p1, p2);
    var ps := ProcsSound(toks, p2, depth + 1, p3);
    var body := StmtSound(toks, p3, j);
    b := Block(cs, vs, ps, body);
  }

  // ---------------------------------------------------------------------
  // The token a tree starts with.
  // ---------------------------------------------------------------------

  lemma TermStart(toks: seq<Token>, pos: nat, t: Term)
    requires TermEnd(toks, pos, t).EndsAt?
    ensures pos < |toks| && (toks[pos].Ident? || toks[pos].Number? || toks[pos].LParen?)
  {
    assert FactorEnd(toks, pos, t.first).EndsAt?;
  }

  lemma ExprStart(toks: seq<Token>, pos: nat, e: Expr)
    requires ExprEnd(toks, pos, e).EndsAt?
    ensures pos < |toks| && StartsExpression(toks[pos])
  {
    if e.sign.None? {
      TermStart(toks, pos, e.first);
    }
  }

  lemma TermsStart(toks: seq<Token>, pos: nat, ts: TermList, j: nat)
    requires TermsEnd(toks, pos, ts) == EndsAt(j)
    ensures (ts.NoTerms? && j == pos) || (pos < |toks| && S.IsAddOp(toks[pos]))
  {
  }

  lemma FactorsStart(toks: seq<Token>, pos: nat, fs: FactorList, j: nat)
    requires FactorsEnd(toks, pos, fs) == EndsAt(j)
    ensures (fs.NoFactors? && j == pos) || (pos < |toks| && S.IsMulOp(toks[pos]))
  {
  }

  lemma StmtStart(toks: seq<Token>, pos: nat, s: Statement, j: nat)
    requires StmtEnd(toks, pos, s) == EndsAt(j)
    ensures (s.EmptyStmt? && j == pos) || (pos < |toks| && S.StartsStatement(toks[pos]))
  {
  }

  lemma StmtsStart(toks: seq<Token>, pos: nat, ss: StmtList, j: nat)
    requires StmtsEnd(toks, pos, ss) == EndsAt(j)
    ensures (ss.NoMore? && j == pos) || (pos < |toks| && toks[pos].Semicolon?)
  {
  }

  lemma ProcsStart(toks: seq<Token>, pos: nat, ps: ProcList, j: nat)
    requires ProcsEnd(toks, pos, ps) == EndsAt(j)
    ensures (ps.NoProcs? && j == pos) || (pos < |toks| && toks[pos].Procedure?)
  {
  }

  // ---------------------------------------------------------------------
  // Completeness: the tokens of a tree are accepted, provided the token
  // after them is one that may follow the tree.
  // ---------------------------------------------------------------------

  lemma {:induction false} FactorComplete(toks: seq<Token>, pos: nat, f: Factor, j: nat)
    requires FactorEnd(toks, pos, f) == EndsAt(j) && j < |toks|
    ensures pos < j && S.Factor(toks, pos) == Ok(j)
    decreases f
  {
    match f
    case NameRef(_) =>
    case Literal(_) =>
    case Paren(e) =>
      var q := ExprEnd(toks, pos + 1, e).end;
      ExprComplete(toks, pos + 1, e, q);
      ParenJoin(toks, pos, q);
  }

  lemma {:induction false} FactorsComplete(toks: seq<Token>, pos: nat, fs: FactorList, j: nat)
    requires FactorsEnd(toks, pos, fs) == EndsAt(j) && j < |toks| && !S.IsMulOp(toks[j])
    ensures pos <= j && S.Factors(toks, pos) == Ok(j)
    decreases fs
  {
    match fs
    case NoFactors =>
    case MulFactor(_, f, rest) =>
      var q := FactorEnd(toks, pos + 1, f).end;
      FactorsComplete(toks, q, rest, j);
      FactorComplete(toks, pos + 1, f, q);
      FactorsJoin(toks, pos, q, j);
  }

  lemma {:induction false} TermComplete(toks: seq<Token>, pos: nat, t: Term, j: nat)
    requires TermEnd(toks, pos, t) == EndsAt(j) && j < |toks| && !S.IsMulOp(toks[j])
    ensures pos < j && S.Term(toks, pos) == Ok(j)
    decreases t
  {
    var p := FactorEnd(toks, pos, t.first).end;
    FactorsComplete(toks, p, t.rest, j);
    FactorComplete(toks, pos, t.first, p);
    TermJoin(toks, pos, p, j);
  }

  lemma {:induction false} TermsComplete(toks: seq<Token>, pos: nat, ts: TermList, j: nat)
    requires TermsEnd(toks, pos, ts) == EndsAt(j) && j < |toks| && !S.IsAddOp(toks[j]) && !S.IsMulOp(toks[j])
    ensures pos <= j && S.Terms(toks, pos) == Ok(j)
    decreases ts
  {
    match ts
    case NoTerms =>
    case AddTerm(_, t, rest) =>
      var q := TermEnd(toks, pos + 1, t).end;
      TermsComplete(toks, q, rest, j);
      TermsStart(toks, q, rest, j);
      TermComplete(toks, pos + 1, t, q);
      TermsJoin(toks, pos, q, j);
  }

  lemma {:induction false} ExprComplete(toks: seq<Token>, pos: nat, e: Expr, j: nat)
    requires ExprEnd(toks, pos, e) == EndsAt(j) && j < |toks| && !S.IsAddOp(toks[j]) && !S.IsMulOp(toks[j])
    ensures pos < j && S.Expression(toks, pos) == Ok(j)
    decreases e
  {
    var p := if e.sign.Some? then pos + 1 else pos;
    var q := TermEnd(toks, p, e.first).end;
    TermsComplete(toks, q, e.rest, j);
    TermsStart(toks, q, e.rest, j);
    TermComplete(toks, p, e.first, q);
    if e.sign.None? {
      TermStart(toks, pos, e.first);
    }
    ExpressionJoin(toks, pos, p, q, j);
  }

  lemma {:induction false} CondComplete(toks: seq<Token>, pos: nat, c: Condition, j: nat)
    requires CondEnd(toks, pos, c) == EndsAt(j) && j < |toks| && !S.IsAddOp(toks[j]) && !S.IsMulOp(toks[j])
    ensures pos < j && S.Condition(toks, pos) == Ok(j)
    decreases c
  {
    match c
    case OddCond(e) =>
      ExprComplete(toks, pos + 1, e, j);
      OddJoin(toks, pos, j);
    case Comparison(l, rel, r) =>
      var p := ExprEnd(toks, pos, l).end;
      ExprComplete(toks, p + 1, r, j);
      ExprComplete(toks, pos, l, p);
      ExprStart(toks, pos, l);
      ComparisonJoin(toks, pos, p, j);
  }

  lemma {:induction false} StmtComplete(toks: seq<Token>, pos: nat, s: Statement, j: nat)
    requires StmtEnd(toks, pos, s) == EndsAt(j) && j < |toks| && EndsStatement(toks[j])
    ensures pos <= j && S.Statement(toks, pos) == Ok(j)
    decreases s, 1
  {
    match s
    case AssignStmt(_, e) =>
      ExprComplete(toks, pos + 2, e, j);
      AssignJoin(toks, pos, j);
    case CallStmt(_) =>
      CallStep(toks, pos);
    case BeginStmt(_, _) =>
      BeginComplete(toks, pos, s, j);
    case IfStmt(_, _) =>
      IfComplete(toks, pos, s, j);
    case WhileStmt(_, _) =>
      WhileComplete(toks, pos, s, j);
    case EmptyStmt =>
  }

  lemma {:induction false} BeginComplete(toks: seq<Token>, pos: nat, s: Statement, j: nat)
    requires s.BeginStmt? && StmtEnd(toks, pos, s) == EndsAt(j) && j < |toks| && EndsStatement(toks[j])
    ensures pos < j && S.Statement(toks, pos) == Ok(j)
    decreases s, 0
  {
    hide S.Statement, S.Statements, S.Compound, StmtEnd, StmtsEnd;
    var q, e := BeginEnds(toks, pos, s, j);
    StmtsComplete(toks, q, s.rest, e);
    StmtsStart(toks, q, s.rest, e);
    StmtComplete(toks, pos + 1, s.first, q);
    BeginJoin(toks, pos, q, e);
  }

  lemma {:induction false} IfComplete(toks: seq<Token>, pos: nat, s: Statement, j: nat)
    requires s.IfStmt? && StmtEnd(toks, pos, s) == EndsAt(j) && j < |toks| && EndsStatement(toks[j])
    ensures pos < j && S.Statement(toks, pos) == Ok(j)
    decreases s, 0
  {
    hide S.Statement, S.Guarded, S.Condition, StmtEnd, CondEnd;
    var q := IfEnds(toks, pos, s, j);
    StmtComplete(toks, q + 1, s.thenBranch, j);
    CondComplete(toks, pos + 1, s.cond, q);
    GuardedJoin(toks, pos, Then, q, j);
  }

  lemma {:induction false} WhileComplete(toks: seq<Token>, pos: nat, s: Statement, j: nat)
    requires s.WhileStmt? && StmtEnd(toks, pos, s) == EndsAt(j) && j < |toks| && EndsStatement(toks[j])
    ensures pos < j && S.Statement(toks, pos) == Ok(j)
    decreases s, 0
  {
    hide S.Statement, S.Guarded, S.Condition, StmtEnd, CondEnd;
    var q := WhileEnds(toks, pos, s, j);
    StmtComplete(toks, q + 1, s.loopBody, j);
    CondComplete(toks, pos + 1, s.cond, q);
    GuardedJoin(toks, pos, Do, q, j);
  }

  lemma {:induction false} StmtsComplete(toks: seq<Token>, pos: nat, ss: StmtList, j: nat)
    requires StmtsEnd(toks, pos, ss) == EndsAt(j) && j < |toks| && EndsStatement(toks[j]) && !toks[j].Semicolon?
    ensures pos <= j && S.Statements(toks, pos) == Ok(j)
    decreases ss
  {
    match ss
    case NoMore =>
    case Another(s, rest) =>
      var q := StmtEnd(toks, pos + 1, s).end;
      StmtsComplete(toks, q, rest, j);
      StmtsStart(toks, q, rest, j);
      StmtComplete(toks, pos + 1, s, q);
      StatementsJoin(toks, pos, q, j);
  }

  lemma ConstsStart(toks: seq<Token>, pos: nat, cs: seq<ConstDecl>, j: nat)
    requires ConstsEnd(toks, pos, cs) == EndsAt(j)
    ensures (|cs| == 0 && j == pos) || (pos < |toks| && toks[pos].Const?)
  {
  }

  lemma VarsStart(toks: seq<Token>, pos: nat, vs: seq<string>, j: nat)
    requires VarsEnd(toks, pos, vs) == EndsAt(j)
    ensures (|vs| == 0 && j == pos) || (pos < |toks| && toks[pos].Var?)
  {
  }

  lemma {:induction false} ConstTailComplete(toks: seq<Token>, pos: nat, cs: seq<ConstDecl>, j: nat)
    requires ConstTailEnd(toks, pos, cs) == EndsAt(j) && j < |toks| && !toks[j].Comma?
    ensures pos <= j && S.ConstDefs(toks, pos) == Ok(j)
    decreases |cs|
  {
    if |cs| > 0 {
      assert ConstDefEnd(toks, pos, Comma, cs[0]) == EndsAt(pos + 4);
      ConstTailComplete(toks, pos + 4, cs[1..], j);
      ConstDefStep(toks, pos, Comma);
      ConstDefsJoin(toks, pos, j);
    }
  }

  lemma ConstsComplete(toks: seq<Token>, pos: nat, cs: seq<ConstDecl>, j: nat)
    requires ConstsEnd(toks, pos, cs) == EndsAt(j) && j < |toks| && (|cs| == 0 ==> !toks[pos].Const?)
    ensures pos <= j && S.Consts(toks, pos) == Ok(j)
  {
    if |cs| > 0 {
      ConstClauseComplete(toks, pos, cs, j);
    }
  }

  /** A nonempty `const` clause. */
  lemma ConstClauseComplete(toks: seq<Token>, pos: nat, cs: seq<ConstDecl>, j: nat)
    requires |cs| > 0 && ConstsEnd(toks, pos, cs) == EndsAt(j) && j < |toks|
    ensures pos < j && S.Consts(toks, pos) == Ok(j)
  {
    hide *;
    var e := ConstsEnds(toks, pos, cs, j);
    ConstTailComplete(toks, pos + 4, cs[1..], e);
    ConstDefStep(toks, pos, Const);
    ConstsJoin(toks, pos, e);
  }

  lemma {:induction false} VarTailComplete(toks: seq<Token>, pos: nat, vs: seq<string>, j: nat)
    requires VarTailEnd(toks, pos, vs) == EndsAt(j) && j < |toks| && !toks[j].Comma?
    ensures pos <= j && S.VarNames(toks, pos) == Ok(j)
    decreases |vs|
  {
    if |vs| > 0 {
      assert TokenEnd(toks, pos, Comma) == EndsAt(pos + 1);
      assert TokenEnd(toks, pos + 1, Ident(vs[0])) == EndsAt(pos + 2);
      VarTailComplete(toks, pos + 2, vs[1..], j);
      VarNamesJoin(toks, pos, j);
    }
  }

  lemma VarsComplete(toks: seq<Token>, pos: nat, vs: seq<string>, j: nat)
    requires VarsEnd(toks, pos, vs) == EndsAt(j) && j < |toks| && (|vs| == 0 ==> !toks[pos].Var?)
    ensures pos <= j && S.Vars(toks, pos) == Ok(j)
  {
    if |vs| > 0 {
      assert TokenEnd(toks, pos, Var) == EndsAt(pos + 1);
      assert TokenEnd(toks, pos + 1, Ident(vs[0])) == EndsAt(pos + 2);
      var e := VarTailEnd(toks, pos + 2, vs[1..]).end;
      VarTailComplete(toks, pos + 2, vs[1..], e);
      VarsJoin(toks, pos, e);
    }
  }

  lemma {:induction false} ProcsComplete(toks: seq<Token>, pos: nat, ps: ProcList, depth: nat, j: nat)
    requires ProcsEnd(toks, pos, ps) == EndsAt(j) && ProcsNested(ps, depth) && j < |toks| && !toks[j].Procedure?
    ensures pos <= j && S.Procedures(toks, pos, depth) == Ok(j)
    decreases ps
  {
    if ps.Proc? {
      var f := ProcDeclEnd(toks, pos, ps.name, ps.block).end;
      ProcsComplete(toks, f, ps.rest, depth, j);
      ProcDeclComplete(toks, pos, ps.name, ps.block, depth, f);
      ProceduresJoin(toks, pos, depth, f, j);
    }
  }

  lemma {:induction false} ProcDeclComplete(toks: seq<Token>, pos: nat, name: string, blk: Block, depth: nat, f: nat)
    requires ProcDeclEnd(toks, pos, name, blk) == EndsAt(f) && Nested(blk, depth) && f < |toks|
    ensures pos < f && toks[pos].Procedure? && S.ProcedureDecl(toks, pos, depth) == Ok(f)
    decreases blk, 1
  {
    hide S.ProcedureDecl, S.Block, ProcDeclEnd, BlockEnd;
    var b := ProcDeclEnds(toks, pos, name, blk, f);
    BlockComplete(toks, pos + 3, blk, depth, b);
    ProcedureDeclJoin(toks, pos, depth, b);
  }

  /** The tokens of a well-nested block are accepted by `block` when a `;`,
      `end` or `.` follows them. */
  lemma {:induction false} BlockComplete(toks: seq<Token>, pos: nat, b: Block, depth: nat, j: nat)
    requires BlockEnd(toks, pos, b) == EndsAt(j) && Nested(b, depth) && j < |toks| && EndsStatement(toks[j])
    ensures pos <= j && S.Block(toks, pos, depth) == Ok(j)
    decreases b, 0
  {
    var p1 := ConstsEnd(toks, pos, b.consts).end;
    var p2 := VarsEnd(toks, p1, b.vars).end;
    var p3 := ProcsEnd(toks, p2, b.procs).end;
    StmtComplete(toks, p3, b.body, j);
    StmtStart(toks, p3, b.body, j);
    ProcsComplete(toks, p2, b.procs, depth + 1, p3);
    ProcsStart(toks, p2, b.procs, p3);
    VarsComplete(toks, p1, b.vars, p2);
    VarsStart(toks, p1, b.vars, p2);
    ConstsComplete(toks, pos, b.consts, p1);
    BlockJoin(toks, pos, depth, p1, p2, p3, j);
  }

  /** In the comparison form of `condition`, a left operand that is not
      followed by one of `= # < >` is an invalid condition. */
  lemma ConditionWithoutRelation(toks: seq<Token>, pos: nat)
    requires pos < |toks| && !toks[pos].Odd? && S.Expression(toks, pos).Ok?
    requires !S.IsRelation(toks[S.Expression(toks, pos).value])
    ensures S.Condition(toks, pos) == Err(S.InvalidCondition)
  {
  }

  // ---------------------------------------------------------------------
  // The nesting bound: the tokens of a block whose procedures nest too
  // deep are rejected with `NestingTooDeep`, whatever follows them.
  // ---------------------------------------------------------------------

  /** At the deepest level a procedure declaration is rejected as soon as
      its heading `procedure ident ;` has been read. */
  lemma NestedProcedureRejected(toks: seq<Token>, pos: nat)
    requires pos + 3 < |toks| && toks[pos].Procedure? && toks[pos + 1].Ident? && toks[pos + 2].Semicolon?
    ensures S.Procedures(toks, pos, S.MaxDepth) == Err(S.NestingTooDeep)
  {
    ProcedureDeclFail(toks, pos, S.MaxDepth, S.NestingTooDeep);
    ProceduresFail(toks, pos, S.MaxDepth, S.NestingTooDeep);
  }

  /** `block` rejects the tokens of a block that breaks the nesting bound. */
  lemma {:induction false} BlockTooDeep(toks: seq<Token>, pos: nat, b: Block, depth: nat, j: nat)
    requires BlockEnd(toks, pos, b) == EndsAt(j) && !Nested(b, depth)
    ensures depth + 1 <= S.MaxDepth ==> pos < |toks|
    ensures S.Block(toks, pos, depth) == Err(S.NestingTooDeep)
    decreases b, 0, 1
  {
    if depth + 1 <= S.MaxDepth {
      BlockProcsTooDeep(toks, pos, b, depth, j);
    }
  }

  /** Within the bound, it is the procedure declarations of the block that
      are rejected. */
  lemma {:induction false} BlockProcsTooDeep(toks: seq<Token>, pos: nat, b: Block, depth: nat, j: nat)
    requires BlockEnd(toks, pos, b) == EndsAt(j) && !Nested(b, depth) && depth + 1 <= S.MaxDepth
    ensures pos < |toks| && S.Block(toks, pos, depth) == Err(S.NestingTooDeep)
    decreases b, 0, 0
  {
    hide S.Block, S.Consts, S.Vars, S.Procedures, StmtEnd, ProcDeclEnd;
    var p1 := ConstsEnd(toks, pos, b.consts).end;
    var p2 := VarsEnd(toks, p1, b.vars).end;
    var p3 := ProcsEnd(toks, p2, b.procs).end;
    ProcsTooDeep(toks, p2, b.procs, depth + 1, p3);
    VarsStart(toks, p1, b.vars, p2);
    VarsComplete(toks, p1, b.vars, p2);
    ConstsStart(toks, pos, b.consts, p1);
    ConstsComplete(toks, pos, b.consts, p1);
    BlockProceduresFail(toks, pos, depth, p1, p2, S.NestingTooDeep);
  }

  /** The procedure loop rejects the first declaration that breaks the
      bound, after accepting the well-nested ones before it. */
  lemma {:induction false} ProcsTooDeep(toks: seq<Token>, pos: nat, ps: ProcList, depth: nat, j: nat)
    requires ProcsEnd(toks, pos, ps) == EndsAt(j) && !ProcsNested(ps, depth)
    ensures pos < |toks| && toks[pos].Procedure? && S.Procedures(toks, pos, depth) == Err(S.NestingTooDeep)
    decreases ps
  {
    var f := ProcDeclEnd(toks, pos, ps.name, ps.block).end;
    if Nested(ps.block, depth) {
      ProcsTooDeep(toks, f, ps.rest, depth, j);
      ProcDeclComplete(toks, pos, ps.name, ps.block, depth, f);
      ProceduresNext(toks, pos, depth, f);
    } else {
      ProcDeclTooDeep(toks, pos, ps.name, ps.block, depth, f);
      ProceduresFail(toks, pos, depth, S.NestingTooDeep);
    }
  }

  /** A declaration whose block breaks the bound is rejected. */
  lemma {:induction false} ProcDeclTooDeep(toks: seq<Token>, pos: nat, name: string, blk: Block, depth: nat, f: nat)
    requires ProcDeclEnd(toks, pos, name, blk) == EndsAt(f) && !Nested(blk, depth)
    ensures pos < |toks| && toks[pos].Procedure? && S.ProcedureDecl(toks, pos, depth) == Err(S.NestingTooDeep)
    decreases blk, 1
  {
    hide S.ProcedureDecl, S.Block, ProcDeclEnd, BlockEnd;
    var b := ProcDeclEnds(toks, pos, name, blk, f);
    if pos + 3 == |toks| {
      BlockAtEnd(toks, blk, b);
    }
    BlockTooDeep(toks, pos + 3, blk, depth, b);
    ProcedureDeclFail(toks, pos, depth, S.NestingTooDeep);
  }

  // ---------------------------------------------------------------------
  // The whole program.
  // ---------------------------------------------------------------------

  /** `parse` accepts only programs, and the tree it accepts spans every
      token but the final `.`. */
  lemma ParseSound(toks: seq<Token>) returns (b: Block)
    requires S.Parse(toks).Ok?
    ensures IsProgram(toks, b)
  {
    var p := S.Block(toks, 0, 0).value;
    b := BlockSound(toks, 0, 0, p);
  }

  /** `parse` accepts every program. */
  lemma ParseComplete(toks: seq<Token>, b: Block)
    requires IsProgram(toks, b)
    ensures S.Parse(toks) == Ok(())
  {
    BlockComplete(toks, 0, b, 0, |toks| - 1);
  }

  /** The procedures of `ps` declare no procedures of their own. */
  predicate NoInnerProcs(ps: ProcList) {
    match ps
    case NoProcs => true
    case Proc(_, blk, rest) => blk.procs.NoProcs? && NoInnerProcs(rest)
  }

  /** The nesting bound of `block`: a program's top-level block may declare
      procedures, but no procedure may declare one of its own. */
  lemma NestingIsOneLevel(b: Block)
    ensures Nested(b, 0) <==> NoInnerProcs(b.procs)
  {
    ProcsOneLevel(b.procs);
  }

  lemma {:induction false} ProcsOneLevel(ps: ProcList)
    ensures ProcsNested(ps, 1) <==> NoInnerProcs(ps)
    decreases ps
  {
    match ps
    case NoProcs =>
    case Proc(_, blk, rest) =>
      ProcsOneLevel(rest);
      assert Nested(blk, 1) <==> ProcsNested(blk.procs, 2);
      assert ProcsNested(blk.procs, 2) <==> blk.procs.NoProcs?;
  }

  /** A token sequence that starts with the tokens of a block in which a
      procedure declares a procedure of its own is rejected with
      `NestingTooDeep`, whatever follows those tokens. */
  lemma ParseRejectsDeepNesting(toks: seq<Token>, b: Block, j: nat)
    requires BlockEnd(toks, 0, b) == EndsAt(j) && !NoInnerProcs(b.procs)
    ensures S.Parse(toks) == Err(S.NestingTooDeep)
  {
    NestingIsOneLevel(b);
    BlockTooDeep(toks, 0, b, 0, j);
  }

  /** `procedure a; procedure b; ; ; .` is rejected for its nesting. */
  lemma NestedProcedureExample()
    ensures S.Parse([Procedure, Ident("a"), Semicolon, Procedure, Ident("b"), Semicolon, Semicolon, Semicolon, Dot])
      == Err(S.NestingTooDeep)
  {
    var toks := [Procedure, Ident("a"), Semicolon, Procedure, Ident("b"), Semicolon, Semicolon, Semicolon, Dot];
    NestedProcedureRejected(toks, 3);
    ProcedureDeclFail(toks, 0, 1, S.NestingTooDeep);
  }

  /** `parse` succeeds exactly on the programs. */
  lemma ParseAcceptsPrograms(toks: seq<Token>)
    ensures S.Parse(toks).Ok? <==> exists b :: IsProgram(toks, b)
  {
    if S.Parse(toks).Ok? {
      var b := ParseSound(toks);
    }
    if b :| IsProgram(toks, b) {
      ParseComplete(toks, b);
    }
  }
}
