/** What a scan promises: keyword recognition ignores case, numbers parse
    back from their decimal spelling, line counting, what may appear outside
    comments, and that the scanner inverts a printer of token sequences. */
module LexerProps {
  import opened Wrappers
  import opened Tokens
  import opened Lexer

  // ---------------------------------------------------------------------
  // Keywords
  // ---------------------------------------------------------------------

  lemma ToLowerIdempotent(w: string)
    ensures ToLower(ToLower(w)) == ToLower(w)
  {
  }

  /** Keyword recognition is case-insensitive, and a word that is not a
      keyword becomes an identifier holding the word exactly as written. */
  lemma ClassifyIgnoresCase(word: string)
    ensures SameKind(Classify(word), Classify(ToLower(word)))
    ensures Classify(word).Ident? ==> Classify(word) == Ident(word)
    ensures !Classify(word).Ident? ==> Classify(word) == Classify(ToLower(word))
    ensures !Classify(word).Ident? ==> KeywordSpelling(Classify(word)) == Some(ToLower(word))
  {
    ToLowerIdempotent(word);
  }

  /** Every spelling of a keyword, in any mix of cases, yields that keyword. */
  lemma KeywordAnyCase(t: Token, word: string)
    requires KeywordSpelling(t).Some? && ToLower(word) == KeywordSpelling(t).value
    ensures Classify(word) == t
  {
  }

  // ---------------------------------------------------------------------
  // Numbers
  // ---------------------------------------------------------------------

  function DigitChar(d: nat): (c: char)
    requires d < 10
    ensures IsDigit(c) && c as int - '0' as int == d
  {
    ('0' as int + d) as char
  }

  /** The decimal spelling of a natural number, without leading zeros. */
  function DecimalString(n: nat): (s: string)
    ensures |s| > 0 && AllDigits(s)
    decreases n
  {
    if n < 10 then [DigitChar(n)] else DecimalString(n / 10) + [DigitChar(n % 10)]
  }

  lemma {:induction false} DecimalValue(n: nat)
    ensures DigitsValue(DecimalString(n)) == n
    decreases n
  {
    if n >= 10 {
      var s := DecimalString(n);
      assert s[..|s| - 1] == DecimalString(n / 10);
      DecimalValue(n / 10);
    }
  }

  /** Parsing the decimal spelling of any non-negative `i64` gives it back. */
  lemma ParseI64RoundTrip(v: int64)
    requires v >= 0
    ensures ParseI64(DecimalString(v as nat)) == Some(v)
  {
    DecimalValue(v as nat);
  }

  /** A run holding an underscore, and a value beyond `i64::MAX`, are not
      numbers. */
  lemma ParseI64Rejects(s: string)
    ensures (exists k | 0 <= k < |s| :: s[k] == '_') ==> ParseI64(s) == None
    ensures AllDigits(s) && DigitsValue(s) > I64Max ==> ParseI64(s) == None
    ensures s == [] ==> ParseI64(s) == None
  {
  }

  // ---------------------------------------------------------------------
  // Text outside comments, and line counting
  // ---------------------------------------------------------------------

  /** The characters of `s` from `i` on that lie outside brace comments. */
  function CodeChars(s: string, i: nat): string
    requires i <= |s|
    decreases |s| - i
  {
    if i == |s| then []
    else if s[i] == '{' then CodeChars(s, CommentEnd(s, i + 1))
    else [s[i]] + CodeChars(s, i + 1)
  }

  /** A character that can be part of some lexeme. */
  predicate IsTokenChar(c: char) {
    IsIdentChar(c) || c == ':' || Punctuation(c).Some?
  }

  lemma {:induction false} CodeCharsOfRun(s: string, i: nat, j: nat)
    requires i <= j <= |s|
    requires forall k | i <= k < j :: s[k] != '{'
    ensures CodeChars(s, i) == s[i..j] + CodeChars(s, j)
    decreases j - i
  {
    if i < j {
      CodeCharsOfRun(s, i + 1, j);
      assert s[i..j] == [s[i]] + s[i + 1..j];
      ConsAppend(CodeChars(s, i), s[i], CodeChars(s, i + 1), s[i + 1..j], CodeChars(s, j));
    }
  }

  lemma ConsAppend(whole: string, c: char, tail: string, x: string, y: string)
    requires whole == [c] + tail && tail == x + y
    ensures whole == ([c] + x) + y
  {
  }

  /** A lexeme consists of characters that can be part of a token. */
  lemma LexemeChars(s: string, i: nat, line: nat)
    requires i < |s| && LexemeAt(s, i, line).Ok?
    ensures forall k | i <= k < LexemeAt(s, i, line).value.1 :: IsTokenChar(s[k])
  {
  }

  /** The line counter starts from its incoming value, never decreases, and
      on success has grown by exactly the number of newlines outside
      comments. */
  lemma {:induction false} ScanCountsLines(s: string, i: nat, line: nat)
    requires i <= |s|
    ensures var sc := ScanFrom(s, i, line);
      && line <= sc.line <= line + multiset(CodeChars(s, i))['\n']
      && (sc.result.Ok? ==> sc.line == line + multiset(CodeChars(s, i))['\n'])
    decreases |s| - i, 1
  {
    if i == |s| {
    } else if s[i] == '{' {
      assert ScanFrom(s, i, line) == ScanFrom(s, CommentEnd(s, i + 1), line);
      assert CodeChars(s, i) == CodeChars(s, CommentEnd(s, i + 1));
      ScanCountsLines(s, CommentEnd(s, i + 1), line);
    } else if IsWhitespace(s[i]) {
      var line' := if s[i] == '\n' then line + 1 else line;
      assert ScanFrom(s, i, line) == ScanFrom(s, i + 1, line');
      assert CodeChars(s, i) == [s[i]] + CodeChars(s, i + 1);
      assert multiset(CodeChars(s, i))['\n'] == multiset([s[i]])['\n'] + multiset(CodeChars(s, i + 1))['\n'];
      ScanCountsLines(s, i + 1, line');
    } else {
      LexemeCountsLines(s, i, line);
    }
  }

  lemma {:induction false} LexemeCountsLines(s: string, i: nat, line: nat)
    requires i < |s| && s[i] != '{' && !IsWhitespace(s[i])
    ensures var sc := ScanFrom(s, i, line);
      && line <= sc.line <= line + multiset(CodeChars(s, i))['\n']
      && (sc.result.Ok? ==> sc.line == line + multiset(CodeChars(s, i))['\n'])
    decreases |s| - i, 0
  {
    var r := LexemeAt(s, i, line);
    if r.Ok? {
      var j := r.value.1;
      LexemeIsCode(s, i, line);
      ScanCountsLines(s, j, line);
    }
  }

  /** The characters of a lexeme lie outside comments and are not newlines. */
  lemma LexemeIsCode(s: string, i: nat, line: nat)
    requires i < |s| && LexemeAt(s, i, line).Ok?
    ensures var j := LexemeAt(s, i, line).value.1;
      && CodeChars(s, i) == s[i..j] + CodeChars(s, j)
      && multiset(CodeChars(s, i))['\n'] == multiset(CodeChars(s, j))['\n']
      && forall k | 0 <= k < j - i :: IsTokenChar(CodeChars(s, i)[k])
  {
    hide LexemeAt;
    var j := LexemeAt(s, i, line).value.1;
    LexemeChars(s, i, line);
    CodeCharsOfRun(s, i, j);
    assert '\n' !in s[i..j];
  }

  /** Scanning from the default state, a successful scan ends on line
      1 + the number of newlines outside comments. */
  lemma DefaultStateLines(s: string)
    requires ScanFrom(s, 0, DefaultState().line).result.Ok?
    ensures ScanFrom(s, 0, DefaultState().line).line == 1 + multiset(CodeChars(s, 0))['\n']
  {
    ScanCountsLines(s, 0, DefaultState().line);
  }

  /** A successful scan saw only white space and token characters outside
      comments: any other character there (a `}` or `$`, say) makes the
      scan fail. */
  lemma {:induction false} ScanRejectsStrayChars(s: string, i: nat, line: nat)
    requires i <= |s|
    requires exists k | 0 <= k < |CodeChars(s, i)| :: !IsWhitespace(CodeChars(s, i)[k]) && !IsTokenChar(CodeChars(s, i)[k])
    ensures ScanFrom(s, i, line).result.Err?
    decreases |s| - i
  {
    hide ScanFrom, LexemeAt, IsWhitespace;
    var cs := CodeChars(s, i);
    var k :| 0 <= k < |cs| && !IsWhitespace(cs[k]) && !IsTokenChar(cs[k]);
    if s[i] == '{' {
      ScanComment(s, i, line);
      ScanRejectsStrayChars(s, CommentEnd(s, i + 1), line);
    } else if IsWhitespace(s[i]) {
      assert cs == [s[i]] + CodeChars(s, i + 1);
      assert CodeChars(s, i + 1)[k - 1] == cs[k];
      ScanWhitespace(s, i, line);
      ScanRejectsStrayChars(s, i + 1, if s[i] == '\n' then line + 1 else line);
    } else if LexemeAt(s, i, line).Ok? {
      var (t, j) := LexemeAt(s, i, line).value;
      LexemeChars(s, i, line);
      CodeCharsOfRun(s, i, j);
      assert k >= j - i && CodeChars(s, j)[k - (j - i)] == cs[k];
      ScanLexeme(s, i, line, t, j);
      ScanRejectsStrayChars(s, j, line);
    } else {
      ScanLexemeError(s, i, line, LexemeAt(s, i, line).error);
    }
  }

  /** White space and comments produce no tokens: a text that is all layout
      outside comments scans to the empty sequence. An unterminated `{`
      swallows the rest of the text without an error. */
  lemma {:induction false} LayoutHasNoTokens(s: string, i: nat, line: nat)
    requires i <= |s|
    requires forall k | 0 <= k < |CodeChars(s, i)| :: IsWhitespace(CodeChars(s, i)[k])
    ensures ScanFrom(s, i, line).result == Ok([])
    decreases |s| - i
  {
    if i < |s| {
      if s[i] == '{' {
        assert CodeChars(s, i) == CodeChars(s, CommentEnd(s, i + 1));
        LayoutHasNoTokens(s, CommentEnd(s, i + 1), line);
      } else {
        var cs := CodeChars(s, i + 1);
        assert CodeChars(s, i) == [s[i]] + cs;
        assert IsWhitespace(CodeChars(s, i)[0]);
        assert forall k | 0 <= k < |cs| :: cs[k] == CodeChars(s, i)[k + 1];
        LayoutHasNoTokens(s, i + 1, if s[i] == '\n' then line + 1 else line);
      }
    }
  }

  lemma UnterminatedCommentSwallowsRest(s: string, i: nat, line: nat)
    requires i < |s| && s[i] == '{'
    requires forall k | i < k < |s| :: s[k] != '}'
    ensures ScanFrom(s, i, line) == Scan(Ok([]), line)
  {
    assert CommentEnd(s, i + 1) == |s|;
  }

  // ---------------------------------------------------------------------
  // The scanner inverts a printer
  // ---------------------------------------------------------------------

  /** A token the printer below can spell so that it scans back: an
      identifier must be a well-formed name that is not a keyword in any
      case, and a number must be non-negative (`-` is its own token). */
  predicate Printable(t: Token) {
    match t
    case Ident(name) =>
      |name| > 0 && IsIdentStart(name[0]) && (forall k | 0 <= k < |name| :: IsIdentChar(name[k]))
      && Classify(name) == Ident(name)
    case Number(v) => v >= 0
    case _ => true
  }

  /** The character of a punctuation token: the inverse of `Punctuation`. */
  function PunctuationChar(t: Token): Option<char> {
    match t
    case Dot => Some('.')
    case Equal => Some('=')
    case Comma => Some(',')
    case Semicolon => Some(';')
    case Hash => Some('#')
    case LessThan => Some('<')
    case GreaterThan => Some('>')
    case Plus => Some('+')
    case Minus => Some('-')
    case Multiply => Some('*')
    case Divide => Some('/')
    case LParen => Some('(')
    case RParen => Some(')')
    case _ => None
  }

  /** Each punctuation character maps to exactly one token and each
      punctuation token comes from exactly one character. */
  lemma PunctuationIsBijective(c: char, t: Token)
    ensures Punctuation(c) == Some(t) <==> PunctuationChar(t) == Some(c)
  {
  }

  /** The lexeme of a token. */
  function Spelling(t: Token): (w: string)
    requires Printable(t)
    ensures |w| > 0
  {
    if t.Ident? then t.name
    else if t.Number? then DecimalString(t.value as nat)
    else if t.Assign? then ":="
    else if KeywordSpelling(t).Some? then KeywordSpelling(t).value
    else
      assert PunctuationChar(t).Some?;
      [PunctuationChar(t).value]
  }

  /** Each token on a line of its own. */
  function Render(ts: seq<Token>): string
    requires forall k | 0 <= k < |ts| :: Printable(ts[k])
  {
    if ts == [] then "" else Spelling(ts[0]) + "\n" + Render(ts[1..])
  }

  lemma {:induction false} RunEndAt(s: string, i: nat, e: nat, p: char -> bool)
    requires i <= e <= |s|
    requires forall k | i <= k < e :: p(s[k])
    requires e < |s| ==> !p(s[e])
    ensures RunEnd(s, i, p) == e
    decreases e - i
  {
    if i < e {
      RunEndAt(s, i + 1, e, p);
    }
  }

  /** A printed token, followed by a newline, scans back to the token. */
  lemma SpellingScans(s: string, i: nat, t: Token, line: nat)
    requires Printable(t)
    requires i + |Spelling(t)| < |s| && s[i..i + |Spelling(t)|] == Spelling(t) && s[i + |Spelling(t)|] == '\n'
    ensures LexemeAt(s, i, line) == Ok((t, i + |Spelling(t)|))
  {
    var w := Spelling(t);
    var e := i + |w|;
    assert forall k | i <= k < e :: s[k] == w[k - i];
    if t.Ident? {
      assert s[i..e] == t.name;
      IdentifierLexeme(s, i, line, e);
    } else if t.Number? {
      assert s[i..e] == w;
      ParseI64RoundTrip(t.value);
      NumberLexeme(s, i, line, e, t.value);
    } else if t.Assign? {
      AssignLexeme(s, i, line);
    } else if KeywordSpelling(t).Some? {
      KeywordScans(s, i, t, line);
    } else {
      PunctuationLexeme(s, i, line, t);
    }
  }

  lemma AssignLexeme(s: string, i: nat, line: nat)
    requires i + 1 < |s| && s[i] == ':' && s[i + 1] == '='
    ensures LexemeAt(s, i, line) == Ok((Assign, i + 2))
  {
  }

  lemma PunctuationLexeme(s: string, i: nat, line: nat, t: Token)
    requires i < |s| && PunctuationChar(t) == Some(s[i])
    ensures LexemeAt(s, i, line) == Ok((t, i + 1))
  {
    PunctuationIsBijective(s[i], t);
  }

  /** A maximal run of digits and underscores, not at the end of the text,
      that parses to `v` is one lexeme: the number `v`. */
  lemma NumberLexeme(s: string, i: nat, line: nat, e: nat, v: int64)
    requires i < e < |s| && IsDigit(s[i]) && !IsNumberChar(s[e])
    requires forall k | i <= k < e :: IsNumberChar(s[k])
    requires ParseI64(s[i..e]) == Some(v)
    ensures LexemeAt(s, i, line) == Ok((Number(v), e))
  {
    RunEndAt(s, i, e, IsNumberChar);
  }

  lemma KeywordScans(s: string, i: nat, t: Token, line: nat)
    requires KeywordSpelling(t).Some?
    requires var w := KeywordSpelling(t).value;
      i + |w| < |s| && s[i..i + |w|] == w && s[i + |w|] == '\n'
    ensures LexemeAt(s, i, line) == Ok((t, i + |KeywordSpelling(t).value|))
  {
    hide KeywordSpelling, Classify, ToLower, LexemeAt, IdentifierAt, NumberAt, AssignmentAt;
    var w := KeywordSpelling(t).value;
    var e := i + |w|;
    KeywordLetters(t);
    assert forall k | i <= k < e :: s[k] == w[k - i];
    assert s[i..e] == w;
    IdentifierLexeme(s, i, line, e);
    KeywordAnyCase(t, w);
  }

  /** A keyword is spelt in lower-case letters. */
  lemma KeywordLetters(t: Token)
    requires KeywordSpelling(t).Some?
    ensures var w := KeywordSpelling(t).value;
      |w| > 0 && IsIdentStart(w[0]) && (forall k | 0 <= k < |w| :: IsIdentChar(w[k])) && ToLower(w) == w
  {
    var w := KeywordSpelling(t).value;
    assert forall k | 0 <= k < |w| :: 'a' <= w[k] <= 'z';
    assert ToLower(w) == w;
  }

  /** A maximal run of identifier characters, not at the end of the text,
      is one lexeme, classified by its spelling. */
  lemma IdentifierLexeme(s: string, i: nat, line: nat, e: nat)
    requires i < e < |s| && IsIdentStart(s[i]) && !IsIdentChar(s[e])
    requires forall k | i <= k < e :: IsIdentChar(s[k])
    ensures LexemeAt(s, i, line) == Ok((Classify(s[i..e]), e))
  {
    RunEndAt(s, i, e, IsIdentChar);
  }

  /** The scanner inverts the printer: scanning the rendering of a sequence
      of printable tokens gives back the same tokens, in order, and counts
      one line per token. */
  lemma {:induction false} ScanRender(s: string, i: nat, ts: seq<Token>, line: nat)
    requires forall k | 0 <= k < |ts| :: Printable(ts[k])
    requires i <= |s| && s[i..] == Render(ts)
    ensures ScanFrom(s, i, line) == Scan(Ok(ts), line + |ts|)
    decreases ts
  {
    hide *;
    if ts == [] {
      ScanRenderNothing(s, i, line);
    } else {
      var e := ScanRenderHead(s, i, ts, line);
      ScanRender(s, e + 1, ts[1..], line + 1);
      PrependHead(ScanFrom(s, i, line), ScanFrom(s, e + 1, line + 1), ts, line + |ts|);
    }
  }

  /** The rendering of no tokens is empty and scans to nothing. */
  lemma ScanRenderNothing(s: string, i: nat, line: nat)
    requires i <= |s| && s[i..] == Render([])
    ensures ScanFrom(s, i, line) == Scan(Ok([]), line)
  {
    assert i == |s|;
  }

  lemma PrependHead(whole: Scan, tail: Scan, ts: seq<Token>, n: nat)
    requires |ts| > 0 && whole == Prepend([ts[0]], tail) && tail == Scan(Ok(ts[1..]), n)
    ensures whole == Scan(Ok(ts), n)
  {
    assert [ts[0]] + ts[1..] == ts;
  }

  /** One step of `ScanRender`: the first printed token and its newline. */
  lemma ScanRenderHead(s: string, i: nat, ts: seq<Token>, line: nat) returns (e: nat)
    requires forall k | 0 <= k < |ts| :: Printable(ts[k])
    requires |ts| > 0 && i <= |s| && s[i..] == Render(ts)
    ensures e < |s| && s[e + 1..] == Render(ts[1..])
    ensures ScanFrom(s, i, line) == Prepend([ts[0]], ScanFrom(s, e + 1, line + 1))
  {
    hide *;
    e := RenderHead(s, i, ts);
    SpellingScans(s, i, ts[0], line);
    SpellingStartsToken(ts[0]);
    assert s[i] == Spelling(ts[0])[0];
    ScanLexeme(s, i, line, ts[0], e);
    ScanNewline(s, e, line);
  }

  /** A rendering starts with the first token's spelling and a newline. */
  lemma RenderHead(s: string, i: nat, ts: seq<Token>) returns (e: nat)
    requires forall k | 0 <= k < |ts| :: Printable(ts[k])
    requires |ts| > 0 && i <= |s| && s[i..] == Render(ts)
    ensures e == i + |Spelling(ts[0])| < |s| && s[i..e] == Spelling(ts[0]) && s[e] == '\n'
    ensures s[e + 1..] == Render(ts[1..])
  {
    hide Spelling, Printable;
    var w := Spelling(ts[0]);
    e := i + |w|;
    assert s[i..] == w + "\n" + Render(ts[1..]);
    assert s[i..e] == w && s[e] == '\n';
    assert s[e + 1..] == Render(ts[1..]);
  }

  /** `ScanFrom` on a newline: the scan after it, one line further on. */
  lemma ScanNewline(s: string, i: nat, line: nat)
    requires i < |s| && s[i] == '\n'
    ensures ScanFrom(s, i, line) == ScanFrom(s, i + 1, line + 1)
  {
  }

  lemma SpellingStartsToken(t: Token)
    requires Printable(t)
    ensures Spelling(t)[0] != '{' && !IsWhitespace(Spelling(t)[0])
  {
    if KeywordSpelling(t).Some? {
      assert 'a' <= Spelling(t)[0] <= 'z';
    }
  }

  /** `lex` on a rendering returns the rendered tokens. */
  lemma LexRender(ts: seq<Token>, st: State)
    requires forall k | 0 <= k < |ts| :: Printable(ts[k])
    ensures ScanFrom(Render(ts), 0, st.line) == Scan(Ok(ts), st.line + |ts|)
  {
    ScanRender(Render(ts), 0, ts, st.line);
  }

  // ---------------------------------------------------------------------
  // Lexemes that run into the end of the text
  // ---------------------------------------------------------------------

  /** An identifier whose run of letters, digits and underscores reaches
      the end of the text stops the scan with an unterminated-identifier
      error on the current line. */
  lemma IdentifierAtEndFails(s: string, i: nat, line: nat)
    requires i < |s| && IsIdentStart(s[i]) && forall k | i <= k < |s| :: IsIdentChar(s[k])
    ensures ScanFrom(s, i, line) == Scan(Err(LexError(UnterminatedIdentifier, line)), line)
  {
    RunEndAt(s, i, |s|, IsIdentChar);
    ScanLexemeError(s, i, line, LexError(UnterminatedIdentifier, line));
  }

  /** A number whose run of digits and underscores reaches the end of the
      text stops the scan with an unterminated-number error. */
  lemma NumberAtEndFails(s: string, i: nat, line: nat)
    requires i < |s| && IsDigit(s[i]) && forall k | i <= k < |s| :: IsNumberChar(s[k])
    ensures ScanFrom(s, i, line) == Scan(Err(LexError(UnterminatedNumber, line)), line)
  {
    RunEndAt(s, i, |s|, IsNumberChar);
    ScanLexemeError(s, i, line, LexError(UnterminatedNumber, line));
  }

  /** A word that runs into the end of the text is an error even when a
      number comes before it: "1abc" lexes the number 1, and then "abc"
      fails as an unterminated identifier, so the scan yields no tokens. */
  lemma WordAtEndFails(line: nat)
    ensures ScanFrom("1abc", 0, line) == Scan(Err(LexError(UnterminatedIdentifier, line)), line)
  {
    var s := "1abc";
    RunEndAt(s, 0, 1, IsNumberChar);
    assert DigitsValue(s[0..1]) == 1 by {
      assert s[0..1][..0] == [];
    }
    ScanLexeme(s, 0, line, Number(1), 1);
    IdentifierAtEndFails(s, 1, line);
  }

  /** A character that starts no lexeme, reached outside a comment, stops
      the scan with an unknown-token error on the current line. */
  lemma StrayCharError(s: string, i: nat, line: nat)
    requires i < |s| && s[i] != '{' && !IsWhitespace(s[i]) && !IsTokenChar(s[i])
    ensures ScanFrom(s, i, line) == Scan(Err(LexError(UnknownToken, line)), line)
  {
    ScanLexemeError(s, i, line, LexError(UnknownToken, line));
  }

  /** A `:` followed by anything but `=` stops the scan with an
      unknown-token error for the colon, on the current line. */
  lemma ColonWithoutEquals(s: string, i: nat, line: nat)
    requires i + 1 < |s| && s[i] == ':' && s[i + 1] != '='
    ensures ScanFrom(s, i, line) == Scan(Err(LexError(UnknownColon, line)), line)
  {
    ScanLexemeError(s, i, line, LexError(UnknownColon, line));
  }

  /** A `:` that ends the text is an unterminated assignment. */
  lemma ColonAtEnd(s: string, line: nat)
    requires |s| > 0 && s[|s| - 1] == ':'
    ensures ScanFrom(s, |s| - 1, line) == Scan(Err(LexError(UnterminatedAssignment, line)), line)
  {
    ScanLexemeError(s, |s| - 1, line, LexError(UnterminatedAssignment, line));
  }

  /** A maximal run of digits and underscores, not at the end of the text,
      that does not parse as an `i64` (it holds an underscore, or its value
      is too large) stops the scan with an invalid-number error. */
  lemma InvalidNumberFails(s: string, i: nat, e: nat, line: nat)
    requires i < e < |s| && IsDigit(s[i]) && !IsNumberChar(s[e])
    requires forall k | i <= k < e :: IsNumberChar(s[k])
    requires ParseI64(s[i..e]).None?
    ensures ScanFrom(s, i, line) == Scan(Err(LexError(InvalidNumber, line)), line)
  {
    RunEndAt(s, i, e, IsNumberChar);
    ScanLexemeError(s, i, line, LexError(InvalidNumber, line));
  }
}
