/** The scanner (src/lexer.rs): one left-to-right pass over the characters
    with one character of lookahead, producing tokens and counting lines.

    The functions here are the reference definition of a scan; the methods
    `Identifier`, `Number`, `Assignment` and `Lex` are the loops of the
    source, each proved to agree with that reference. */
module Lexer {
  import opened Wrappers
  import opened Tokens

  // ---------------------------------------------------------------------
  // Character classes (ASCII letters and digits; Unicode white space)
  // ---------------------------------------------------------------------

  predicate IsAlpha(c: char) { 'a' <= c <= 'z' || 'A' <= c <= 'Z' }

  predicate IsDigit(c: char) { '0' <= c <= '9' }

  /** `char::is_whitespace`: the characters with the Unicode White_Space property. */
  predicate IsWhitespace(c: char) {
    || '\t' <= c <= '\r' || c == ' ' || c == '\U{0085}' || c == '\U{00A0}' || c == '\U{1680}'
    || '\U{2000}' <= c <= '\U{200A}' || c == '\U{2028}' || c == '\U{2029}' || c == '\U{202F}'
    || c == '\U{205F}' || c == '\U{3000}'
  }

  /** A character on which `lex` dispatches to `identifier`. */
  predicate IsIdentStart(c: char) { IsAlpha(c) || c == '_' }

  /** A character that `identifier` keeps collecting. */
  predicate IsIdentChar(c: char) { IsAlpha(c) || IsDigit(c) || c == '_' }

  /** A character that `number` keeps collecting. */
  predicate IsNumberChar(c: char) { IsDigit(c) || c == '_' }

  /** The single-character tokens of the final `match` in `lex`. */
  function Punctuation(c: char): (r: Option<Token>)
    ensures r.Some? ==> 13 <= Discriminant(r.value) && !r.value.Assign?
  {
    match c
    case '.' => Some(Dot)
    case '=' => Some(Equal)
    case ',' => Some(Comma)
    case ';' => Some(Semicolon)
    case '#' => Some(Hash)
    case '<' => Some(LessThan)
    case '>' => Some(GreaterThan)
    case '+' => Some(Plus)
    case '-' => Some(Minus)
    case '*' => Some(Multiply)
    case '/' => Some(Divide)
    case '(' => Some(LParen)
    case ')' => Some(RParen)
    case _ => None
  }

  // ---------------------------------------------------------------------
  // Keywords
  // ---------------------------------------------------------------------

  function LowerChar(c: char): char {
    if 'A' <= c <= 'Z' then (c as int + 32) as char else c
  }

  /** `str::to_lowercase`, on ASCII letters. */
  function ToLower(s: string): (r: string)
    ensures |r| == |s|
    ensures forall k | 0 <= k < |r| :: !('A' <= r[k] <= 'Z')
    ensures forall k | 0 <= k < |s| :: !('A' <= s[k] <= 'Z') ==> r[k] == s[k]
    ensures forall k | 0 <= k < |s| :: 'A' <= s[k] <= 'Z' ==> r[k] as int == s[k] as int + ('a' as int - 'A' as int)
  {
    seq(|s|, k requires 0 <= k < |s| => LowerChar(s[k]))
  }

  /** The lower-case spelling of a keyword token, and nothing for any other token. */
  function KeywordSpelling(t: Token): Option<string> {
    match t
    case Const => Some("const")
    case Var => Some("var")
    case Procedure => Some("procedure")
    case Call => Some("call")
    case Begin => Some("begin")
    case End => Some("end")
    case If => Some("if")
    case Then => Some("then")
    case While => Some("while")
    case Do => Some("do")
    case Odd => Some("odd")
    case _ => None
  }

  /** The keyword table of `identifier`: the lower-cased word is looked up,
      and a word that is not a keyword becomes an identifier holding the
      word as it was written. */
  function Classify(word: string): (r: Token)
    ensures r.Ident? ==> r == Ident(word) && forall t :: KeywordSpelling(t) != Some(ToLower(word))
    ensures !r.Ident? ==> KeywordSpelling(r) == Some(ToLower(word))
  {
    var w := ToLower(word);
    if w == "const" then Const
    else if w == "var" then Var
    else if w == "procedure" then Procedure
    else if w == "call" then Call
    else if w == "begin" then Begin
    else if w == "end" then End
    else if w == "if" then If
    else if w == "then" then Then
    else if w == "while" then While
    else if w == "do" then Do
    else if w == "odd" then Odd
    else Ident(word)
  }

  // ---------------------------------------------------------------------
  // Number literals: `str::parse::<i64>` on a run of digits and underscores
  // ---------------------------------------------------------------------

  predicate AllDigits(s: string) {
    forall k | 0 <= k < |s| :: IsDigit(s[k])
  }

  /** The decimal value of a digit string, read left to right. */
  function DigitsValue(s: string): nat
    requires AllDigits(s)
  {
    if s == [] then 0 else 10 * DigitsValue(s[..|s| - 1]) + (s[|s| - 1] as int - '0' as int)
  }

  /** `<i64 as FromStr>::from_str` on the strings `number` collects (which
      never hold a sign): it succeeds exactly on a non-empty digit string
      whose value fits in an `i64`; an underscore or an overflow fails. */
  function ParseI64(s: string): (r: Option<int64>)
    ensures r.Some? ==> r.value >= 0 && |s| > 0 && AllDigits(s)
  {
    if |s| > 0 && AllDigits(s) && DigitsValue(s) <= I64Max then Some(DigitsValue(s) as int64) else None
  }

  // ---------------------------------------------------------------------
  // The reference scan
  // ---------------------------------------------------------------------

  datatype LexErrorKind =
    | UnterminatedIdentifier
    | UnterminatedNumber
    | InvalidNumber
    | UnknownColon          // ':' followed by something other than '='
    | UnterminatedAssignment
    | UnknownToken

  /** A lexical error and the line it was reported on. */
  datatype LexError = LexError(kind: LexErrorKind, line: nat)

  /** The outcome of a scan together with the line counter's final value. */
  datatype Scan = Scan(result: Result<seq<Token>, LexError>, line: nat)

  /** Puts `ts` in front of the tokens of a successful scan; an error stays
      as it is, so no partial token sequence ever escapes. */
  function Prepend(ts: seq<Token>, sc: Scan): Scan {
    match sc.result
    case Ok(rest) => Scan(Ok(ts + rest), sc.line)
    case Err(e) => sc
  }

  /** The end of the maximal run of `p`-characters starting at `i`. */
  function RunEnd(s: string, i: nat, p: char -> bool): (e: nat)
    requires i <= |s|
    ensures i <= e <= |s|
    ensures forall k | i <= k < e :: p(s[k])
    ensures e < |s| ==> !p(s[e])
    decreases |s| - i
  {
    if i < |s| && p(s[i]) then RunEnd(s, i + 1, p) else i
  }

  /** Where scanning resumes after a comment whose body starts at `i`: just
      past the first `}`, or the end of the text when there is none. */
  function CommentEnd(s: string, i: nat): (e: nat)
    requires i <= |s|
    ensures i <= e <= |s|
    ensures forall k | i <= k < e :: s[k] == '}' ==> k == e - 1
    ensures e < |s| ==> e > i && s[e - 1] == '}'
    decreases |s| - i
  {
    if i == |s| then i else if s[i] == '}' then i + 1 else CommentEnd(s, i + 1)
  }

  /** The identifier or keyword whose lexeme starts at `i`. */
  function IdentifierAt(s: string, i: nat, line: nat): (r: Result<(Token, nat), LexError>)
    requires i < |s| && IsIdentStart(s[i])
    ensures r.Ok? ==> i < r.value.1 < |s|
  {
    var e := RunEnd(s, i, IsIdentChar);
    if e == |s| then Err(LexError(UnterminatedIdentifier, line)) else Ok((Classify(s[i..e]), e))
  }

  /** The number literal whose lexeme starts at `i`. */
  function NumberAt(s: string, i: nat, line: nat): (r: Result<(Token, nat), LexError>)
    requires i < |s| && IsDigit(s[i])
    ensures r.Ok? ==> i < r.value.1 < |s|
    ensures r == Err(LexError(InvalidNumber, line)) <==>
      RunEnd(s, i, IsNumberChar) < |s| && ParseI64(s[i..RunEnd(s, i, IsNumberChar)]).None?
  {
    var e := RunEnd(s, i, IsNumberChar);
    if e == |s| then Err(LexError(UnterminatedNumber, line))
    else match ParseI64(s[i..e])
      case Some(v) => Ok((Token.Number(v), e))
      case None => Err(LexError(InvalidNumber, line))
  }

  /** The `:=` whose lexeme starts at `i`. */
  function AssignmentAt(s: string, i: nat, line: nat): (r: Result<(Token, nat), LexError>)
    requires i < |s|
    ensures r.Ok? <==> i + 1 < |s| && s[i + 1] == '='
    ensures r.Ok? ==> r.value == (Assign, i + 2)
    ensures i + 1 == |s| ==> r == Err(LexError(UnterminatedAssignment, line))
    ensures i + 1 < |s| && s[i + 1] != '=' ==> r == Err(LexError(UnknownColon, line))
  {
    if i + 1 == |s| then Err(LexError(UnterminatedAssignment, line))
    else if s[i + 1] == '=' then Ok((Assign, i + 2))
    else Err(LexError(UnknownColon, line))
  }

  /** The token whose lexeme starts at `i` (not a comment, not white space)
      and where its lexeme ends, or the error `lex` reports there. */
  function LexemeAt(s: string, i: nat, line: nat): (r: Result<(Token, nat), LexError>)
    requires i < |s|
    ensures r.Ok? ==> i < r.value.1 <= |s|
    ensures r.Err? ==> r.error.line == line
  {
    var c := s[i];
    if IsIdentStart(c) then IdentifierAt(s, i, line)
    else if IsDigit(c) then NumberAt(s, i, line)
    else if c == ':' then AssignmentAt(s, i, line)
    else match Punctuation(c)
      case Some(t) => Ok((t, i + 1))
      case None => Err(LexError(UnknownToken, line))
  }

  /** The scan of `s` from position `i` with the line counter at `line`. */
  function ScanFrom(s: string, i: nat, line: nat): (r: Scan)
    requires i <= |s|
    ensures line <= r.line
    ensures r.result.Err? ==> r.result.error.line == r.line
    decreases |s| - i
  {
    if i == |s| then Scan(Ok([]), line)
    else if s[i] == '{' then ScanFrom(s, CommentEnd(s, i + 1), line)
    else if IsWhitespace(s[i]) then ScanFrom(s, i + 1, if s[i] == '\n' then line + 1 else line)
    else match LexemeAt(s, i, line)
      case Err(e) => Scan(Err(e), line)
      case Ok((t, j)) => Prepend([t], ScanFrom(s, j, line))
  }

  /** Nothing is left to scan at the end of the text. */
  lemma ScanAtEnd(s: string, line: nat)
    ensures ScanFrom(s, |s|, line) == Scan(Ok([]), line)
  {
  }

  /** A comment is skipped up to just past its `}`. */
  lemma ScanComment(s: string, i: nat, line: nat)
    requires i < |s| && s[i] == '{'
    ensures ScanFrom(s, i, line) == ScanFrom(s, CommentEnd(s, i + 1), line)
  {
  }

  /** White space is skipped; a newline counts one line. */
  lemma ScanWhitespace(s: string, i: nat, line: nat)
    requires i < |s| && IsWhitespace(s[i])
    ensures ScanFrom(s, i, line) == ScanFrom(s, i + 1, if s[i] == '\n' then line + 1 else line)
  {
  }

  /** A lexeme contributes its token, followed by the scan after it. */
  lemma ScanLexeme(s: string, i: nat, line: nat, t: Token, e: nat)
    requires i < |s| && s[i] != '{' && !IsWhitespace(s[i]) && LexemeAt(s, i, line) == Ok((t, e))
    ensures ScanFrom(s, i, line) == Prepend([t], ScanFrom(s, e, line))
  {
  }

  /** A lexeme in error stops the scan with that error. */
  lemma ScanLexemeError(s: string, i: nat, line: nat, err: LexError)
    requires i < |s| && s[i] != '{' && !IsWhitespace(s[i]) && LexemeAt(s, i, line) == Err(err)
    ensures ScanFrom(s, i, line) == Scan(Err(err), line)
  {
  }

  lemma PrependNothing(sc: Scan)
    ensures Prepend([], sc) == sc
  {
    if sc.result.Ok? {
      assert [] + sc.result.value == sc.result.value;
    }
  }

  lemma PrependPrepend(a: seq<Token>, b: seq<Token>, sc: Scan)
    ensures Prepend(a, Prepend(b, sc)) == Prepend(a + b, sc)
  {
    if sc.result.Ok? {
      assert a + (b + sc.result.value) == (a + b) + sc.result.value;
    }
  }

  // ---------------------------------------------------------------------
  // The scanner's loops
  // ---------------------------------------------------------------------

  /** `identifier`: collects the maximal run of letters, digits and
      underscores at `i`, then classifies it. Running into the end of the
      text is an error. */
  method Identifier(s: string, i: nat, line: nat) returns (r: Result<Token, LexError>, next: nat)
    requires i <= |s|
    ensures i <= next <= |s| && forall k | i <= k < next :: IsIdentChar(s[k])
    ensures r.Ok? <==> next < |s|
    ensures r.Ok? ==> !IsIdentChar(s[next]) && r.value == Classify(s[i..next])
    ensures r.Err? ==> r.error == LexError(UnterminatedIdentifier, line)
    ensures i < |s| && IsIdentStart(s[i]) ==>
      IdentifierAt(s, i, line) == if r.Ok? then Ok((r.value, next)) else Err(r.error)
  {
    var idt := "";
    next := i;
    while true
      invariant i <= next <= |s| && idt == s[i..next]
      invariant forall k | i <= k < next :: IsIdentChar(s[k])
      decreases |s| - next
    {
      if next < |s| {
        if IsIdentChar(s[next]) {
          idt := idt + [s[next]];
          next := next + 1;
        } else {
          break;
        }
      } else {
        return Err(LexError(UnterminatedIdentifier, line)), next;
      }
    }
    r := Ok(Classify(idt));
  }

  /** `number`: collects the maximal run of digits and underscores at `i`,
      then parses it as an `i64`. Running into the end of the text, a
      stray underscore and an overflow are errors. */
  method Number(s: string, i: nat, line: nat) returns (r: Result<Token, LexError>, next: nat)
    requires i <= |s|
    ensures i <= next <= |s| && forall k | i <= k < next :: IsNumberChar(s[k])
    ensures next < |s| ==> !IsNumberChar(s[next])
    ensures next == |s| ==> r == Err(LexError(UnterminatedNumber, line))
    ensures next < |s| ==> (r.Ok? <==> ParseI64(s[i..next]).Some?)
    ensures next < |s| && r.Ok? ==> r.value == Token.Number(ParseI64(s[i..next]).value)
    ensures next < |s| && r.Err? ==> r.error == LexError(InvalidNumber, line)
    ensures i < |s| && IsDigit(s[i]) ==>
      NumberAt(s, i, line) == if r.Ok? then Ok((r.value, next)) else Err(r.error)
  {
    var num := "";
    next := i;
    while true
      invariant i <= next <= |s| && num == s[i..next]
      invariant forall k | i <= k < next :: IsNumberChar(s[k])
      decreases |s| - next
    {
      if next < |s| {
        if IsNumberChar(s[next]) {
          num := num + [s[next]];
          next := next + 1;
        } else {
          break;
        }
      } else {
        return Err(LexError(UnterminatedNumber, line)), next;
      }
    }
    match ParseI64(num)
    case Some(v) => r := Ok(Token.Number(v));
    case None => r := Err(LexError(InvalidNumber, line));
  }

  /** `assignment`: consumes the character at `i` (the `:`) and then
      requires `=`. */
  method Assignment(s: string, i: nat, line: nat) returns (r: Result<Token, LexError>, next: nat)
    requires i < |s|
    ensures r.Ok? <==> i + 1 < |s| && s[i + 1] == '='
    ensures r.Ok? ==> r.value == Assign && next == i + 2
    ensures i + 1 == |s| ==> r == Err(LexError(UnterminatedAssignment, line))
    ensures i + 1 < |s| && s[i + 1] != '=' ==> r == Err(LexError(UnknownColon, line))
    ensures AssignmentAt(s, i, line) == if r.Ok? then Ok((r.value, next)) else Err(r.error)
  {
    next := i + 1;
    if next < |s| {
      if s[next] == '=' {
        next := next + 1;
        r := Ok(Assign);
      } else {
        r := Err(LexError(UnknownColon, line));
      }
    } else {
      r := Err(LexError(UnterminatedAssignment, line));
    }
  }

  /** The dispatch in the body of `lex` for a character that starts a
      token: identifier, number, assignment or punctuation. */
  method Lexeme(s: string, i: nat, line: nat) returns (t: Result<Token, LexError>, next: nat)
    requires i < |s| && s[i] != '{' && !IsWhitespace(s[i])
    ensures LexemeAt(s, i, line) == if t.Ok? then Ok((t.value, next)) else Err(t.error)
  {
    hide Classify, ParseI64, Punctuation;
    var c := s[i];
    if IsIdentStart(c) {
      t, next := Identifier(s, i, line);
    } else if IsDigit(c) {
      t, next := Number(s, i, line);
    } else if c == ':' {
      t, next := Assignment(s, i, line);
    } else {
      match Punctuation(c)
      case Some(p) => t, next := Ok(p), i + 1;
      case None => t, next := Err(LexError(UnknownToken, line)), i;
    }
  }

  /** `lex`: scans the whole text. The state's line counter is threaded
      through and returned, also when an error stops the scan. */
  method Lex(st: State, text: string) returns (r: Result<seq<Token>, LexError>, st': State)
    ensures st'.debug == st.debug
    ensures Scan(r, st'.line) == ScanFrom(text, 0, st.line)
  {
    hide ScanFrom, LexemeAt;
    var i := 0;
    var line := st.line;
    var tokens: seq<Token> := [];
    PrependNothing(ScanFrom(text, 0, line));
    while i < |text|
      invariant i <= |text|
      invariant Prepend(tokens, ScanFrom(text, i, line)) == ScanFrom(text, 0, st.line)
      decreases |text| - i
    {
      var c := text[i];
      ghost var here := ScanFrom(text, i, line);
      if c == '{' {
        ScanComment(text, i, line);
        i := i + 1;
        ghost var body := i;
        while i < |text| && text[i] != '}'
          invariant body <= i <= |text|
          invariant CommentEnd(text, body) == CommentEnd(text, i)
          decreases |text| - i
        {
          i := i + 1;
        }
        if i < |text| {
          i := i + 1;
        }
        assert here == ScanFrom(text, i, line);
      } else if IsWhitespace(c) {
        ScanWhitespace(text, i, line);
        if c == '\n' {
          line := line + 1;
        }
        i := i + 1;
      } else {
        var t, next := Lexeme(text, i, line);
        if t.Err? {
          ScanLexemeError(text, i, line, t.error);
          return Err(t.error), State(st.debug, line);
        }
        ScanLexeme(text, i, line, t.value, next);
        PrependPrepend(tokens, [t.value], ScanFrom(text, next, line));
        tokens := tokens + [t.value];
        i := next;
      }
    }
    ScanAtEnd(text, line);
    assert tokens + [] == tokens;
    r, st' := Ok(tokens), State(st.debug, line);
  }
}
