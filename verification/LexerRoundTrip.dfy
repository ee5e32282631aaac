/**
 Every token has a spelling that lexes back to it, and so has every list of tokens, one per line.
 This pins down the operator, keyword and number tables independently of the functions that
 read them.
 */
module LexerRoundTrip {
  import opened Numbers
  import opened Wrappers
  import opened LexerSpec
  import opened LexerComposition
  import opened LexerTemplates

  /** The characters that start an operator, a quoted identifier or a bind variable. */
  predicate Punctuation(c: char) {
    Operator(c, None).Some? || c == '`' || c == '@'
  }

  predicate UpperChar(c: char) {
    'A' <= c <= 'Z' || c == '_'
  }

  predicate UpperWord(w: string) {
    w != "" && forall k :: 0 <= k < |w| ==> UpperChar(w[k])
  }

  /** Tables that agree with Unicode on ASCII. */
  ghost predicate AsciiTables(cc: CharClasses) {
    match cc
    case CharClasses(whitespace, numeric, alphabetic, upper) =>
      && Sane(cc)
      && (forall c :: Punctuation(c) ==> !whitespace(c) && !numeric(c) && !alphabetic(c))
      && (forall c :: IsDigit(c) ==> numeric(c) && !whitespace(c))
      && (forall c :: UpperChar(c) ==> !whitespace(c) && !numeric(c) && (alphabetic(c) || c == '_'))
      && (forall w {:trigger upper(w)} :: UpperWord(w) ==> upper(w) == w)
  }

  /** The operator and delimiter spellings of the language. */
  function Spelling(t: Token): string {
    match t
    case Equal => "==" case Assign => "=" case NotEqual => "!="
    case LessThan => "<" case LessThanEq => "<=" case GreaterThan => ">" case GreaterThanEq => ">="
    case Plus => "+" case Minus => "-" case Star => "*" case Slash => "/" case Percent => "%"
    case RegEx => "=~" case NotRegEx => "!~"
    case Ampersand => "&" case Pipe => "|" case Caret => "^" case Tilde => "~" case FuzzyEqual => "~="
    case LeftShift => "<<" case RightShift => ">>"
    case PipeRight => "|>" case Arrow => "->" case NullCoalesce => "??" case DoublePipe => "||"
    case Dot => "." case DotDot => ".." case Comma => "," case LeftBrace => "{" case RightBrace => "}"
    case LeftBracket => "[" case RightBracket => "]" case LeftParen => "(" case RightParen => ")"
    case Colon => ":" case Question => "?" case QuestionDot => "?."
    case _ => ""
  }

  lemma SpellingReads(t: Token)
    requires Spelling(t) != ""
    ensures OperatorAt(Spelling(t)) == Ok((t, [])) && Operator(Spelling(t)[0], None).Some?
    ensures !(|Spelling(t)| > 1 && Spelling(t)[0] == '-' && Spelling(t)[1] == '-')
  {
    var s := Spelling(t);
    assert s[|s|..] == [];
  }

  lemma OperatorStarts(cc: CharClasses, s: string)
    requires AsciiTables(cc) && s != "" && Operator(s[0], None).Some?
    requires !(|s| > 1 && s[0] == '-' && s[1] == '-')
    ensures NextToken(cc, s) == OperatorAt(s)
  {
    var c := s[0];
    assert Punctuation(c);
    assert c != '$' && c != '"' && c != '\'' && c != '`' && c != '_' && c != '@';
    assert SkipWhitespace(cc, s) == s && !IsComment(cc, s);
  }

  lemma OperatorRoundTrip(cc: CharClasses, t: Token)
    requires AsciiTables(cc) && Spelling(t) != ""
    ensures NextToken(cc, Spelling(t)) == Ok((t, []))
  {
    SpellingReads(t);
    OperatorStarts(cc, Spelling(t));
  }

  // ---------------------------------------------------------------------------
  // Numbers
  // ---------------------------------------------------------------------------

  lemma {:induction false} DecimalValue(n: nat)
    ensures DigitsValue(Decimal(n)) == n
  {
    var s := Decimal(n);
    if n < 10 {
      assert s[..0] == "";
    } else {
      DecimalValue(n / 10);
      assert s[..|s| - 1] == Decimal(n / 10);
    }
  }

  /** Digits, one point, digits: the point may be last but not first. */
  ghost predicate FloatText(s: string) {
    && s != "" && IsDigit(s[0])
    && exists k :: 0 < k < |s| && s[k] == '.' && forall j :: 0 <= j < |s| && j != k ==> IsDigit(s[j])
  }

  lemma {:induction false} ScansDigits(cc: CharClasses, s: string, hasDot: bool)
    requires AsciiTables(cc) && forall k :: 0 <= k < |s| ==> IsDigit(s[k])
    ensures NumberLength(cc, s, hasDot) == (|s|, hasDot)
  {
    if s != [] {
      assert IsDigit(s[0]);
      ScansDigits(cc, s[1..], hasDot);
    }
  }

  lemma {:induction false} ScansFloat(cc: CharClasses, s: string, k: nat)
    requires AsciiTables(cc) && k < |s| && s[k] == '.'
    requires forall j :: 0 <= j < |s| && j != k ==> IsDigit(s[j])
    ensures NumberLength(cc, s, false) == (|s|, true)
  {
    if k == 0 {
      assert Punctuation('.');
      assert forall j :: 0 <= j < |s[1..]| ==> IsDigit(s[1..][j]);
      ScansDigits(cc, s[1..], true);
    } else {
      assert IsDigit(s[0]);
      assert forall j :: 0 <= j < |s[1..]| && j != k - 1 ==> IsDigit(s[1..][j]);
      ScansFloat(cc, s[1..], k - 1);
    }
  }

  lemma NumberStarts(cc: CharClasses, s: string)
    requires AsciiTables(cc) && s != "" && IsDigit(s[0])
    ensures NextToken(cc, s) == Number(cc, s)
  {
    assert SkipWhitespace(cc, s) == s && !IsComment(cc, s);
  }

  lemma NumberRoundTrip(cc: CharClasses, t: Token)
    requires AsciiTables(cc)
    requires (t.Integer? && 0 <= t.value < I64_LIMIT) || (t.Float? && FloatText(t.digits))
    ensures NextToken(cc, if t.Integer? then Decimal(t.value) else t.digits) == Ok((t, []))
  {
    var s := if t.Integer? then Decimal(t.value) else t.digits;
    NumberStarts(cc, s);
    assert s[..|s|] == s && s[|s|..] == [];
    if t.Integer? {
      ScansDigits(cc, s, false);
      DecimalValue(t.value);
    } else {
      var k :| 0 < k < |s| && s[k] == '.' && forall j :: 0 <= j < |s| && j != k ==> IsDigit(s[j]);
      ScansFloat(cc, s, k);
      assert ParsesAsFloat(s) by { assert IsDigit(s[0]); }
    }
  }

  // ---------------------------------------------------------------------------
  // Words
  // ---------------------------------------------------------------------------

  lemma QueryKeywordsAreUpper(w: string)
    requires QueryKeyword(w)
    ensures UpperWord(w) && w != "ORDER"
  {
  }

  lemma ValueKeywordsAreUpper(w: string)
    requires ValueKeyword(w)
    ensures UpperWord(w) && w != "ORDER"
  {
  }

  lemma ChangeKeywordsAreUpper(w: string)
    requires ChangeKeyword(w)
    ensures UpperWord(w) && w != "ORDER"
  {
  }

  lemma GraphKeywordsAreUpper(w: string)
    requires GraphKeyword(w)
    ensures UpperWord(w) && w != "ORDER"
  {
  }

  lemma StreamKeywordsAreUpper(w: string)
    requires StreamKeyword(w)
    ensures UpperWord(w) && w != "ORDER"
  {
  }

  lemma KeywordsAreUpper(w: string)
    requires IsKeyword(w)
    ensures UpperWord(w) && w != "ORDER"
  {
    if QueryKeyword(w) { QueryKeywordsAreUpper(w); }
    else if ValueKeyword(w) { ValueKeywordsAreUpper(w); }
    else if ChangeKeyword(w) { ChangeKeywordsAreUpper(w); }
    else if GraphKeyword(w) { GraphKeywordsAreUpper(w); }
    else { StreamKeywordsAreUpper(w); }
  }

  lemma {:induction false} ScansWord(cc: CharClasses, s: string)
    requires forall k :: 0 <= k < |s| ==> WordChar(cc, s[k])
    ensures WordLength(cc, s) == |s|
  {
    if s != [] {
      assert WordChar(cc, s[0]);
      ScansWord(cc, s[1..]);
    }
  }

  lemma WordStarts(cc: CharClasses, w: string)
    requires AsciiTables(cc) && UpperWord(w)
    ensures NextToken(cc, w) == Ok((WordToken(cc, w), []))
  {
    assert UpperChar(w[0]);
    assert SkipWhitespace(cc, w) == w && !IsComment(cc, w);
    ScansWord(cc, w);
    assert w[..|w|] == w && w[|w|..] == [];
  }

  lemma KeywordRoundTrip(cc: CharClasses, w: string)
    requires AsciiTables(cc) && IsKeyword(w)
    ensures NextToken(cc, w) == Ok((Keyword(w), []))
  {
    KeywordsAreUpper(w);
    WordStarts(cc, w);
    assert cc.upper(w) == w;
  }

  lemma BindVarRoundTrip(cc: CharClasses, name: string)
    requires AsciiTables(cc) && name != "" && forall k :: 0 <= k < |name| ==> WordChar(cc, name[k])
    ensures NextToken(cc, "@" + name) == Ok((BindVar(name), []))
  {
    var s := "@" + name;
    assert Punctuation('@');
    assert s[0] == '@' && s[1..] == name && SkipWhitespace(cc, s) == s;
    ScansWord(cc, name);
    assert name[..|name|] == name && name[|name|..] == [];
  }

  lemma {:induction false} QuotedReads(name: string)
    requires '`' !in name
    ensures QuotedBody(name + "`") == Ok((name, []))
  {
    var s := name + "`";
    if name == [] {
      assert s == "`" && s[1..] == [];
    } else {
      assert s[0] == name[0] && s[1..] == name[1..] + "`";
      assert name[0] in name && forall c :: c in name[1..] ==> c in name;
      QuotedReads(name[1..]);
      assert name == [name[0]] + name[1..];
    }
  }

  lemma IdentifierRoundTrip(cc: CharClasses, name: string)
    requires AsciiTables(cc) && '`' !in name
    ensures NextToken(cc, "`" + (name + "`")) == Ok((Identifier(name), []))
  {
    var s := "`" + (name + "`");
    assert Punctuation('`');
    assert s[0] == '`' && s[1..] == name + "`" && SkipWhitespace(cc, s) == s;
    QuotedReads(name);
  }

  // ---------------------------------------------------------------------------
  // Any token, any list of tokens
  // ---------------------------------------------------------------------------

  /** Tokens other than end-of-input whose content the lexer can produce. */
  ghost predicate Printable(cc: CharClasses, t: Token) {
    match t
    case Keyword(w) => IsKeyword(w)
    case Identifier(name) => '`' !in name
    case BindVar(name) => name != "" && forall k :: 0 <= k < |name| ==> WordChar(cc, name[k])
    case Integer(v) => 0 <= v < I64_LIMIT
    case Float(digits) => FloatText(digits)
    case Text(_) => true
    case TemplateString(parts) => NormalForm(parts)
    case Eof => false
    case _ => true
  }

  function Print(t: Token): string {
    match t
    case Keyword(w) => w
    case Identifier(name) => "`" + (name + "`")
    case BindVar(name) => "@" + name
    case Integer(v) => if v >= 0 then Decimal(v) else ""
    case Float(digits) => digits
    case Text(text) => ['"'] + Escaped('"', {}, text) + (['"'] + [])
    case TemplateString(parts) => PrintTemplate('"', parts, [])
    case _ => Spelling(t)
  }

  /** The spelling of any printable token lexes to exactly that token. */
  lemma TokenRoundTrip(cc: CharClasses, t: Token)
    requires AsciiTables(cc) && Printable(cc, t)
    ensures NextToken(cc, Print(t)) == Ok((t, []))
  {
    match t
    case Keyword(w) => KeywordRoundTrip(cc, w);
    case Identifier(name) => IdentifierRoundTrip(cc, name);
    case BindVar(name) => BindVarRoundTrip(cc, name);
    case Integer(v) => NumberRoundTrip(cc, t);
    case Float(digits) => NumberRoundTrip(cc, t);
    case Text(text) => StringTokenRoundTrip(cc, '"', text, []);
    case TemplateString(parts) => TemplateRoundTrip(cc, '"', parts, []);
    case _ => OperatorRoundTrip(cc, t);
  }

  function PrintAll(ts: seq<Token>): string {
    if ts == [] then [] else Print(ts[0]) + ("\n" + PrintAll(ts[1..]))
  }

  /** A line that is one token, before any continuation. */
  lemma LineReads(cc: CharClasses, line: string, t: Token, rest: string)
    requires Sane(cc) && NextToken(cc, line) == Ok((t, [])) && t != Eof
    ensures Tokenize(cc, line + ("\n" + rest)) == Prefixed(t, Tokenize(cc, rest))
  {
    assert NextToken(cc, []) == Ok((Eof, []));
    TokenizeStep(cc, line, t, []);
    assert Tokenize(cc, line) == Ok([t] + [Eof]);
    TokenizeJoin(cc, line, rest);
    JoinedMore(t, [Eof], Tokenize(cc, rest));
    JoinedOne(Eof, Tokenize(cc, rest));
  }

  lemma FirstLineReads(cc: CharClasses, t: Token, rest: string)
    requires AsciiTables(cc) && Printable(cc, t)
    ensures Tokenize(cc, Print(t) + ("\n" + rest)) == Prefixed(t, Tokenize(cc, rest))
  {
    TokenRoundTrip(cc, t);
    LineReads(cc, Print(t), t, rest);
  }

  ghost predicate AllPrintable(cc: CharClasses, ts: seq<Token>) {
    ts == [] || (Printable(cc, ts[0]) && AllPrintable(cc, ts[1..]))
  }

  lemma PrefixedAll(t: Token, ts: seq<Token>, r: Result<seq<Token>, LexError>)
    requires ts != [] && ts[0] == t && r == Ok(ts[1..] + [Eof])
    ensures Prefixed(t, r) == Ok(ts + [Eof])
  {
    assert [t] + (ts[1..] + [Eof]) == ts + [Eof];
  }

  /** Any list of printable tokens, one per line, tokenizes to that list and the end of input. */
  lemma {:induction false} TokensRoundTrip(cc: CharClasses, ts: seq<Token>)
    requires AsciiTables(cc) && AllPrintable(cc, ts)
    ensures Tokenize(cc, PrintAll(ts)) == Ok(ts + [Eof])
  {
    if ts == [] {
      assert NextToken(cc, []) == Ok((Eof, []));
      assert [] + [Eof] == [Eof];
    } else {
      FirstLineReads(cc, ts[0], PrintAll(ts[1..]));
      TokensRoundTrip(cc, ts[1..]);
      PrefixedAll(ts[0], ts, Tokenize(cc, PrintAll(ts[1..])));
    }
  }

  // ---------------------------------------------------------------------------
  // Whatever the lexer produces can be printed
  // ---------------------------------------------------------------------------

  lemma {:induction false} WordIsWordChars(cc: CharClasses, s: string)
    ensures forall k :: 0 <= k < WordLength(cc, s) ==> WordChar(cc, s[k])
  {
    if s != [] && WordChar(cc, s[0]) {
      WordIsWordChars(cc, s[1..]);
      assert forall k :: 0 < k < WordLength(cc, s) ==> s[k] == s[1..][k - 1];
    }
  }

  lemma WordPrints(cc: CharClasses, t: string)
    requires AsciiTables(cc)
    ensures Printable(cc, WordToken(cc, t[..WordLength(cc, t)]))
  {
    WordIsWordChars(cc, t);
    assert Punctuation('`');
    assert forall k :: 0 <= k < WordLength(cc, t) ==> t[..WordLength(cc, t)][k] == t[k];
  }

  lemma {:induction false} QuotedPrints(s: string)
    requires QuotedBody(s).Ok?
    ensures '`' !in QuotedBody(s).value.0
  {
    if s[0] != '`' {
      QuotedPrints(s[1..]);
    }
  }

  /** A number that has taken its point takes no other. */
  lemma {:induction false} NoSecondPoint(cc: CharClasses, s: string)
    requires AsciiTables(cc)
    ensures NumberLength(cc, s, true).1
    ensures forall k :: 0 <= k < NumberLength(cc, s, true).0 ==> s[k] != '.'
  {
    assert Punctuation('.');
    if s != [] && cc.numeric(s[0]) {
      NoSecondPoint(cc, s[1..]);
      assert forall k :: 0 < k < NumberLength(cc, s, true).0 ==> s[k] == s[1..][k - 1];
    }
  }

  lemma {:induction false} OnePoint(cc: CharClasses, s: string) returns (k: nat)
    requires AsciiTables(cc) && NumberLength(cc, s, false).1
    ensures k < NumberLength(cc, s, false).0 && s[k] == '.'
    ensures forall j :: 0 <= j < NumberLength(cc, s, false).0 && j != k ==> s[j] != '.'
  {
    assert Punctuation('.');
    if cc.numeric(s[0]) {
      var i := OnePoint(cc, s[1..]);
      k := i + 1;
      assert forall j :: 0 < j < NumberLength(cc, s, false).0 ==> s[j] == s[1..][j - 1];
    } else {
      NoSecondPoint(cc, s[1..]);
      k := 0;
      assert forall j :: 0 < j < NumberLength(cc, s, false).0 ==> s[j] == s[1..][j - 1];
    }
  }

  lemma FloatPrints(cc: CharClasses, t: string, text: string)
    requires AsciiTables(cc) && t != [] && cc.numeric(t[0]) && NumberLength(cc, t, false).1
    requires text == t[..NumberLength(cc, t, false).0] && ParsesAsFloat(text)
    ensures FloatText(text)
  {
    var k := OnePoint(cc, t);
    assert Punctuation('.');
    assert text[0] == t[0] && text[k] == '.';
    assert forall j :: 0 <= j < |text| && j != k ==> text[j] == t[j] && IsDigit(text[j]);
  }

  lemma NumberPrints(cc: CharClasses, t: string)
    requires AsciiTables(cc) && t != [] && cc.numeric(t[0]) && Number(cc, t).Ok?
    ensures Printable(cc, Number(cc, t).value.0)
  {
    var (n, hasDot) := NumberLength(cc, t, false);
    if hasDot {
      FloatPrints(cc, t, t[..n]);
    }
  }

  lemma OperatorPrints(cc: CharClasses, t: string)
    requires t != [] && OperatorAt(t).Ok?
    ensures Printable(cc, OperatorAt(t).value.0)
  {
  }

  lemma TokenPrints(cc: CharClasses, t: string)
    requires AsciiTables(cc) && t != [] && TokenAt(cc, t).Ok?
    ensures Printable(cc, TokenAt(cc, t).value.0)
  {
    var c, rest := t[0], t[1..];
    if cc.numeric(c) {
      NumberPrints(cc, t);
    } else if c == '$' && (Head(rest) == Some('"') || Head(rest) == Some('\'')) {
      TemplateBodyNormal(rest[0], rest[1..], "");
    } else if c == '"' || c == '\'' {
    } else if c == '`' {
      QuotedPrints(rest);
    } else if cc.alphabetic(c) || c == '_' {
      WordPrints(cc, t);
    } else if c == '@' {
      WordIsWordChars(cc, rest);
    } else {
      OperatorPrints(cc, t);
    }
  }

  lemma {:induction false} NextTokenPrints(cc: CharClasses, s: string)
    requires AsciiTables(cc) && NextToken(cc, s).Ok? && NextToken(cc, s).value.0 != Eof
    ensures Printable(cc, NextToken(cc, s).value.0)
    decreases |s|
  {
    var t := SkipWhitespace(cc, s);
    if IsComment(cc, t) {
      NextTokenPrints(cc, AfterLine(t[2..]));
    } else {
      TokenPrints(cc, t);
    }
  }

  /** A successful run of the lexer gives printable tokens and the end of input. */
  lemma {:induction false} TokensPrint(cc: CharClasses, s: string) returns (ts: seq<Token>)
    requires AsciiTables(cc) && Tokenize(cc, s).Ok?
    ensures Tokenize(cc, s) == Ok(ts + [Eof]) && AllPrintable(cc, ts)
    decreases |s|
  {
    var (token, rest) := NextToken(cc, s).value;
    if token == Eof {
      ts := [];
      assert ts + [Eof] == [Eof];
    } else {
      NextTokenPrints(cc, s);
      TokenizeStep(cc, s, token, rest);
      var more := TokensPrint(cc, rest);
      ts := [token] + more;
      assert ts[1..] == more && [token] + (more + [Eof]) == ts + [Eof];
    }
  }

  /** Printing what was read, one token per line, and reading it again changes nothing. */
  lemma ReadPrintRead(cc: CharClasses, s: string) returns (ts: seq<Token>)
    requires AsciiTables(cc) && Tokenize(cc, s).Ok?
    ensures Tokenize(cc, s) == Ok(ts + [Eof]) && Tokenize(cc, PrintAll(ts)) == Tokenize(cc, s)
  {
    ts := TokensPrint(cc, s);
    TokensRoundTrip(cc, ts);
  }
}
