/** The language the parser recognises, as syntax trees and the token
    sequences they stand for. The parser builds no tree; these trees are
    the yardstick its accepted inputs are measured against. */
module Grammar {
  import opened Wrappers
  import opened Tokens
  import S = ParserSpec

  datatype AddOp = Add | Sub
  datatype MulOp = Mul | Div
  datatype Relation = Eq | Ne | Lt | Gt

  datatype ConstDecl = ConstDecl(name: string, value: int64)

  /** `[const ...;] [var ...;] {procedure ident; block;} statement` */
  datatype Block = Block(consts: seq<ConstDecl>, vars: seq<string>, procs: ProcList, body: Statement)

  datatype ProcList = NoProcs | Proc(name: string, block: Block, rest: ProcList)

  datatype Statement =
    | AssignStmt(target: string, value: Expr)
    | CallStmt(callee: string)
    | BeginStmt(first: Statement, rest: StmtList)
    | IfStmt(cond: Condition, thenBranch: Statement)
    | WhileStmt(cond: Condition, loopBody: Statement)
    | EmptyStmt

  /** The `; statement` items after the first statement of `begin ... end`. */
  datatype StmtList = NoMore | Another(stmt: Statement, rest: StmtList)

  datatype Condition = OddCond(operand: Expr) | Comparison(left: Expr, rel: Relation, right: Expr)

  datatype Expr = Expr(sign: Option<AddOp>, first: Term, rest: TermList)
  datatype TermList = NoTerms | AddTerm(op: AddOp, term: Term, rest: TermList)
  datatype Term = Term(first: Factor, rest: FactorList)
  datatype FactorList = NoFactors | MulFactor(op: MulOp, factor: Factor, rest: FactorList)
  datatype Factor = NameRef(name: string) | Literal(value: int64) | Paren(inner: Expr)

  function AddOpToken(op: AddOp): Token {
    match op
    case Add => Plus
    case Sub => Minus
  }

  function MulOpToken(op: MulOp): Token {
    match op
    case Mul => Multiply
    case Div => Divide
  }

  function RelationToken(rel: Relation): Token {
    match rel
    case Eq => Equal
    case Ne => Hash
    case Lt => LessThan
    case Gt => GreaterThan
  }

  /** A token that can begin an expression. */
  predicate StartsExpression(t: Token) {
    t.Ident? || t.Number? || t.LParen? || S.IsAddOp(t)
  }

  /** A token that can follow a statement or a block: `;`, `end` or `.`. */
  predicate EndsStatement(t: Token) {
    t.Semicolon? || t.End? || t.Dot?
  }

  // ---------------------------------------------------------------------
  // Matching a tree against the token sequence: `XEnd(toks, pos, x)` is
  // `EndsAt(e)` when the tokens of `x` occur in `toks` from `pos` up to
  // (not including) `e`, and `NoMatch` when they do not occur there.
  // ---------------------------------------------------------------------

  /** The outcome of matching; `:-` stops at the first `NoMatch`. */
  datatype Span = NoMatch | EndsAt(end: nat) {

    predicate IsFailure() {
      NoMatch?
    }

    function PropagateFailure(): Span
      requires NoMatch?
    {
      NoMatch
    }

    function Extract(): nat
      requires EndsAt?
    {
      end
    }
  }

  /** The single token `t` at `pos`. */
  function TokenEnd(toks: seq<Token>, pos: nat, t: Token): Span {
    if pos < |toks| && toks[pos] == t then EndsAt(pos + 1) else NoMatch
  }

  /** `lead ident = number`, where `lead` is `const` or `,`. */
  function ConstDefEnd(toks: seq<Token>, pos: nat, lead: Token, d: ConstDecl): Span {
    var p :- TokenEnd(toks, pos, lead);
    var q :- TokenEnd(toks, p, Ident(d.name));
    var e :- TokenEnd(toks, q, Equal);
    TokenEnd(toks, e, Number(d.value))
  }

  /** `, ident = number` for each of `cs`. */
  function ConstTailEnd(toks: seq<Token>, pos: nat, cs: seq<ConstDecl>): Span
    decreases |cs|
  {
    if |cs| == 0 then EndsAt(pos)
    else
      var p :- ConstDefEnd(toks, pos, Comma, cs[0]);
      ConstTailEnd(toks, p, cs[1..])
  }

  /** The `const` clause; nothing when `cs` is empty. */
  function ConstsEnd(toks: seq<Token>, pos: nat, cs: seq<ConstDecl>): Span {
    if |cs| == 0 then EndsAt(pos)
    else
      var p :- ConstDefEnd(toks, pos, Const, cs[0]);
      var q :- ConstTailEnd(toks, p, cs[1..]);
      TokenEnd(toks, q, Semicolon)
  }

  /** `, ident` for each of `vs`. */
  function VarTailEnd(toks: seq<Token>, pos: nat, vs: seq<string>): Span
    decreases |vs|
  {
    if |vs| == 0 then EndsAt(pos)
    else
      var p :- TokenEnd(toks, pos, Comma);
      var q :- TokenEnd(toks, p, Ident(vs[0]));
      VarTailEnd(toks, q, vs[1..])
  }

  /** The `var` clause; nothing when `vs` is empty. */
  function VarsEnd(toks: seq<Token>, pos: nat, vs: seq<string>): Span {
    if |vs| == 0 then EndsAt(pos)
    else
      var p :- TokenEnd(toks, pos, Var);
      var q :- TokenEnd(toks, p, Ident(vs[0]));
      var e :- VarTailEnd(toks, q, vs[1..]);
      TokenEnd(toks, e, Semicolon)
  }

  function BlockEnd(toks: seq<Token>, pos: nat, b: Block): Span
    decreases b, 0
  {
    var p1 :- ConstsEnd(toks, pos, b.consts);
    var p2 :- VarsEnd(toks, p1, b.vars);
    var p3 :- ProcsEnd(toks, p2, b.procs);
    StmtEnd(toks, p3, b.body)
  }

  function ProcsEnd(toks: seq<Token>, pos: nat, ps: ProcList): Span
    decreases ps
  {
    match ps
    case NoProcs => EndsAt(pos)
    case Proc(name, blk, rest) =>
      var p :- ProcDeclEnd(toks, pos, name, blk);
      ProcsEnd(toks, p, rest)
  }

  /** `procedure name ; blk ;` */
  function ProcDeclEnd(toks: seq<Token>, pos: nat, name: string, blk: Block): Span
    decreases blk, 1
  {
    var p :- TokenEnd(toks, pos, Procedure);
    var q :- TokenEnd(toks, p, Ident(name));
    var e :- TokenEnd(toks, q, Semicolon);
    var b :- BlockEnd(toks, e, blk);
    TokenEnd(toks, b, Semicolon)
  }

  function StmtEnd(toks: seq<Token>, pos: nat, s: Statement): Span
    decreases s
  {
    match s
    case AssignStmt(x, e) =>
      var p :- TokenEnd(toks, pos, Ident(x));
      var q :- TokenEnd(toks, p, Assign);
      ExprEnd(toks, q, e)
    case CallStmt(x) =>
      var p :- TokenEnd(toks, pos, Call);
      TokenEnd(toks, p, Ident(x))
    case BeginStmt(f, rest) =>
      var p :- TokenEnd(toks, pos, Begin);
      var q :- StmtEnd(toks, p, f);
      var e :- StmtsEnd(toks, q, rest);
      TokenEnd(toks, e, End)
    case IfStmt(c, t) =>
      var p :- TokenEnd(toks, pos, If);
      var q :- CondEnd(toks, p, c);
      var e :- TokenEnd(toks, q, Then);
      StmtEnd(toks, e, t)
    case WhileStmt(c, t) =>
      var p :- TokenEnd(toks, pos, While);
      var q :- CondEnd(toks, p, c);
      var e :- TokenEnd(toks, q, Do);
      StmtEnd(toks, e, t)
    case EmptyStmt => EndsAt(pos)
  }

  function StmtsEnd(toks: seq<Token>, pos: nat, ss: StmtList): Span
    decreases ss
  {
    match ss
    case NoMore => EndsAt(pos)
    case Another(s, rest) =>
      var p :- TokenEnd(toks, pos, Semicolon);
      var q :- StmtEnd(toks, p, s);
      StmtsEnd(toks, q, rest)
  }

  function CondEnd(toks: seq<Token>, pos: nat, c: Condition): Span
    decreases c
  {
    match c
    case OddCond(e) =>
      var p :- TokenEnd(toks, pos, Odd);
      ExprEnd(toks, p, e)
    case Comparison(l, rel, r) =>
      var p :- ExprEnd(toks, pos, l);
      var q :- TokenEnd(toks, p, RelationToken(rel));
      ExprEnd(toks, q, r)
  }

  function ExprEnd(toks: seq<Token>, pos: nat, e: Expr): Span
    decreases e
  {
    var p :- if e.sign.Some? then TokenEnd(toks, pos, AddOpToken(e.sign.value)) else EndsAt(pos);
    var q :- TermEnd(toks, p, e.first);
    TermsEnd(toks, q, e.rest)
  }

  function TermsEnd(toks: seq<Token>, pos: nat, ts: TermList): Span
    decreases ts
  {
    match ts
    case NoTerms => EndsAt(pos)
    case AddTerm(op, t, rest) =>
      var p :- TokenEnd(toks, pos, AddOpToken(op));
      var q :- TermEnd(toks, p, t);
      TermsEnd(toks, q, rest)
  }

  function TermEnd(toks: seq<Token>, pos: nat, t: Term): Span
    decreases t
  {
    var p :- FactorEnd(toks, pos, t.first);
    FactorsEnd(toks, p, t.rest)
  }

  function FactorsEnd(toks: seq<Token>, pos: nat, fs: FactorList): Span
    decreases fs
  {
    match fs
    case NoFactors => EndsAt(pos)
    case MulFactor(op, f, rest) =>
      var p :- TokenEnd(toks, pos, MulOpToken(op));
      var q :- FactorEnd(toks, p, f);
      FactorsEnd(toks, q, rest)
  }

  function FactorEnd(toks: seq<Token>, pos: nat, f: Factor): Span
    decreases f
  {
    match f
    case NameRef(x) => TokenEnd(toks, pos, Ident(x))
    case Literal(v) => TokenEnd(toks, pos, Number(v))
    case Paren(e) =>
      var p :- TokenEnd(toks, pos, LParen);
      var q :- ExprEnd(toks, p, e);
      TokenEnd(toks, q, RParen)
  }

  /** A program: a well-nested block at depth 0 spanning every token but
      the last, which is `.`. */
  predicate IsProgram(toks: seq<Token>, b: Block) {
    |toks| > 0 && toks[|toks| - 1] == Dot && Nested(b, 0) && BlockEnd(toks, 0, b) == EndsAt(|toks| - 1)
  }

  /** Procedure nesting within the parser's limit: a block at `depth` is
      accepted when `depth + 1 <= MaxDepth`, and its procedures' blocks sit
      one level deeper. */
  predicate Nested(b: Block, depth: nat) {
    depth + 1 <= S.MaxDepth && ProcsNested(b.procs, depth + 1)
  }

  predicate ProcsNested(ps: ProcList, depth: nat) {
    match ps
    case NoProcs => true
    case Proc(_, blk, rest) => Nested(blk, depth) && ProcsNested(rest, depth)
  }
}
