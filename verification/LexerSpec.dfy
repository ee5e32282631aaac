/**
 The SDBQL lexer (src/sdbql/lexer.rs) as functions of the text that is left to read: what one
 call of `next_token` returns and what it leaves. The Unicode character classes the lexer calls
 are parameters; floats are kept as their digit text.
 */
module LexerSpec {
  import opened Numbers
  import opened Wrappers

  datatype TemplatePart = Literal(text: string) | Expression(text: string)

  datatype Token =
    | Keyword(word: string)
    | Identifier(name: string)
    | BindVar(name: string)
    | Integer(value: int)
    | Float(digits: string)
    | Text(text: string)
    | TemplateString(parts: seq<TemplatePart>)
    | Equal | Assign | NotEqual | LessThan | LessThanEq | GreaterThan | GreaterThanEq
    | Plus | Minus | Star | Slash | Percent | RegEx | NotRegEx
    | Ampersand | Pipe | Caret | Tilde | FuzzyEqual | LeftShift | RightShift
    | PipeRight | Arrow | NullCoalesce | DoublePipe
    | Dot | DotDot | Comma | LeftBrace | RightBrace | LeftBracket | RightBracket
    | LeftParen | RightParen | Colon | Question | QuestionDot
    | Eof

  datatype LexError =
    | InvalidFloat(text: string)
    | InvalidInteger(text: string)
    | UnterminatedString
    | UnterminatedTemplate
    | UnterminatedInterpolation
    | UnterminatedIdentifier
    | MissingBindName
    | UnexpectedChar(c: char)

  /** A value read and the text left after it, or an error. */
  type Lexed<T> = Result<(T, string), LexError>

  /** The character tables of the platform. */
  datatype CharClasses = CharClasses(
    whitespace: char -> bool, numeric: char -> bool, alphabetic: char -> bool, upper: string -> string)

  /** The few facts about the tables that the theorems need. */
  predicate Sane(cc: CharClasses) {
    && cc.whitespace('\n') && !cc.numeric('\n') && !cc.alphabetic('\n')
    && !cc.whitespace('$') && !cc.numeric('$')
    && !cc.whitespace('"') && !cc.numeric('"') && !cc.whitespace('\'') && !cc.numeric('\'')
  }

  predicate WordChar(cc: CharClasses, c: char) {
    cc.alphabetic(c) || cc.numeric(c) || c == '_'
  }

  function SkipWhitespace(cc: CharClasses, s: string): (r: string)
    ensures |r| <= |s|
  {
    if s != [] && cc.whitespace(s[0]) then SkipWhitespace(cc, s[1..]) else s
  }

  /** The text after the line a comment starts on. */
  function AfterLine(s: string): (r: string)
    ensures |r| <= |s|
  {
    if s == [] then [] else if s[0] == '\n' then s[1..] else AfterLine(s[1..])
  }

  function WordLength(cc: CharClasses, s: string): (n: nat)
    ensures n <= |s|
  {
    if s != [] && WordChar(cc, s[0]) then 1 + WordLength(cc, s[1..]) else 0
  }

  /** Characters of a number, and whether a decimal point was taken; a point before a point ends the number. */
  function NumberLength(cc: CharClasses, s: string, hasDot: bool): (r: (nat, bool))
    ensures r.0 <= |s|
  {
    if s == [] then (0, hasDot)
    else if cc.numeric(s[0]) then
      var (n, dot) := NumberLength(cc, s[1..], hasDot);
      (n + 1, dot)
    else if s[0] == '.' && !hasDot && !(|s| > 1 && s[1] == '.') then
      var (n, dot) := NumberLength(cc, s[1..], true);
      (n + 1, dot)
    else (0, hasDot)
  }

  predicate IsDigit(c: char) {
    '0' <= c <= '9'
  }

  function DigitsValue(text: string): nat
    requires forall k :: 0 <= k < |text| ==> IsDigit(text[k])
  {
    if text == "" then 0
    else
      assert IsDigit(text[|text| - 1]);
      10 * DigitsValue(text[..|text| - 1]) + (text[|text| - 1] as int - '0' as int)
  }

  /** `parse::<i64>` on a text without sign. */
  function ParseInteger(text: string): Option<int> {
    if text != "" && (forall k :: 0 <= k < |text| ==> IsDigit(text[k])) && DigitsValue(text) < I64_LIMIT
    then Some(DigitsValue(text)) else None
  }

  /** Whether `parse::<f64>` takes a text of digits and points with at most one point. */
  predicate ParsesAsFloat(text: string) {
    && (forall k :: 0 <= k < |text| ==> IsDigit(text[k]) || text[k] == '.')
    && exists k :: 0 <= k < |text| && IsDigit(text[k])
  }

  function NumberToken(text: string, hasDot: bool): Result<Token, LexError> {
    if hasDot then (if ParsesAsFloat(text) then Ok(Float(text)) else Err(InvalidFloat(text)))
    else match ParseInteger(text)
      case Some(v) => Ok(Integer(v))
      case None => Err(InvalidInteger(text))
  }

  function Number(cc: CharClasses, s: string): Lexed<Token> {
    var (n, hasDot) := NumberLength(cc, s, false);
    match NumberToken(s[..n], hasDot)
    case Ok(t) => Ok((t, s[n..]))
    case Err(e) => Err(e)
  }

  function Unescape(c: char): char {
    match c
    case 'n' => '\n'
    case 't' => '\t'
    case 'r' => '\r'
    case _ => c
  }

  /** The body of a string literal, after its opening quote. */
  function StringBody(q: char, s: string): (r: Lexed<string>)
    ensures r.Ok? ==> |r.value.1| < |s|
  {
    if s == [] then Err(UnterminatedString)
    else if s[0] == q then Ok(("", s[1..]))
    else if s[0] == '\\' then
      if |s| == 1 then Err(UnterminatedString)
      else match StringBody(q, s[2..])
        case Ok((text, rest)) => Ok(([Unescape(s[1])] + text, rest))
        case Err(e) => Err(e)
    else match StringBody(q, s[1..])
      case Ok((text, rest)) => Ok(([s[0]] + text, rest))
      case Err(e) => Err(e)
  }

  /** The text up to the brace that closes an interpolation, `depth` braces being open. */
  function BraceBody(s: string, depth: nat): (r: Lexed<string>)
    requires depth >= 1
    ensures r.Ok? ==> |r.value.1| < |s|
  {
    if s == [] then Err(UnterminatedInterpolation)
    else if s[0] == '}' && depth == 1 then Ok(("", s[1..]))
    else
      var depth' := if s[0] == '{' then depth + 1 else if s[0] == '}' then depth - 1 else depth;
      match BraceBody(s[1..], depth')
      case Ok((text, rest)) => Ok(([s[0]] + text, rest))
      case Err(e) => Err(e)
  }

  function Flush(literal: string): seq<TemplatePart> {
    if literal == "" then [] else [Literal(literal)]
  }

  /** The body of a template string, with the literal collected since the last interpolation. */
  function TemplateBody(q: char, s: string, literal: string): (r: Lexed<seq<TemplatePart>>)
    ensures r.Ok? ==> |r.value.1| < |s|
    decreases |s|
  {
    if s == [] then Err(UnterminatedTemplate)
    else if s[0] == q then Ok((Flush(literal), s[1..]))
    else if s[0] == '$' && |s| > 1 && s[1] == '{' then
      match BraceBody(s[2..], 1)
      case Err(e) => Err(e)
      case Ok((expr, rest)) =>
        (match TemplateBody(q, rest, "")
         case Ok((parts, rest')) => Ok((Flush(literal) + [Expression(expr)] + parts, rest'))
         case Err(e) => Err(e))
    else if s[0] == '$' && |s| > 1 && s[1] == '$' then TemplateBody(q, s[2..], literal + "$")
    else if s[0] == '\\' then
      if |s| == 1 then Err(UnterminatedTemplate) else TemplateBody(q, s[2..], literal + [Unescape(s[1])])
    else TemplateBody(q, s[1..], literal + [s[0]])
  }

  function QuotedBody(s: string): (r: Lexed<string>)
    ensures r.Ok? ==> |r.value.1| < |s|
  {
    if s == [] then Err(UnterminatedIdentifier)
    else if s[0] == '`' then Ok(("", s[1..]))
    else match QuotedBody(s[1..])
      case Ok((text, rest)) => Ok(([s[0]] + text, rest))
      case Err(e) => Err(e)
  }

  predicate QueryKeyword(w: string) {
    || w == "FOR" || w == "IN" || w == "FILTER" || w == "SORT" || w == "LIMIT"
    || w == "RETURN" || w == "LET" || w == "ASC" || w == "DESC" || w == "LIKE"
    || w == "COLLECT" || w == "AGGREGATE" || w == "COUNT" || w == "SATISFIES" || w == "OVER"
    || w == "PARTITION"
  }

  predicate ValueKeyword(w: string) {
    || w == "AND" || w == "OR" || w == "NOT" || w == "TRUE" || w == "FALSE"
    || w == "NULL" || w == "CASE" || w == "WHEN" || w == "THEN" || w == "ELSE"
    || w == "END"
  }

  predicate ChangeKeyword(w: string) {
    || w == "INSERT" || w == "INTO" || w == "UPDATE" || w == "UPSERT" || w == "WITH"
    || w == "REMOVE" || w == "REPLACE"
  }

  predicate GraphKeyword(w: string) {
    || w == "OUTBOUND" || w == "INBOUND" || w == "ANY" || w == "SHORTEST_PATH" || w == "GRAPH"
    || w == "TO" || w == "JOIN" || w == "LEFT" || w == "RIGHT" || w == "FULL"
    || w == "OUTER" || w == "ON"
  }

  predicate StreamKeyword(w: string) {
    || w == "CREATE" || w == "STREAM" || w == "AS" || w == "WINDOW" || w == "TUMBLING"
    || w == "SLIDING" || w == "SIZE" || w == "MATERIALIZED" || w == "VIEW" || w == "REFRESH"
  }

  predicate IsKeyword(w: string) {
    QueryKeyword(w) || ValueKeyword(w) || ChangeKeyword(w) || GraphKeyword(w) || StreamKeyword(w)
  }

  /** Keywords are recognised whatever their case; ORDER is another spelling of SORT. */
  function WordToken(cc: CharClasses, word: string): (t: Token)
    ensures t.Keyword? || t == Identifier(word)
  {
    var u := cc.upper(word);
    if u == "ORDER" then Keyword("SORT") else if IsKeyword(u) then Keyword(u) else Identifier(word)
  }

  function After<T, U>(r: Lexed<T>, wrap: T -> U): Lexed<U> {
    match r
    case Ok((v, rest)) => Ok((wrap(v), rest))
    case Err(e) => Err(e)
  }

  /** The operator tokens: the token and how many characters it takes, if `c` starts one. */
  function Operator(c: char, next: Option<char>): Option<(Token, nat)> {
    match c
    case '=' => Some(if next == Some('=') then (Equal, 2) else if next == Some('~') then (RegEx, 2) else (Assign, 1))
    case '!' => Some(if next == Some('=') then (NotEqual, 2)
                     else if next == Some('~') then (NotRegEx, 2) else (Keyword("NOT"), 1))
    case '<' => Some(if next == Some('=') then (LessThanEq, 2)
                     else if next == Some('<') then (LeftShift, 2) else (LessThan, 1))
    case '>' => Some(if next == Some('=') then (GreaterThanEq, 2)
                     else if next == Some('>') then (RightShift, 2) else (GreaterThan, 1))
    case '+' => Some((Plus, 1))
    case '-' => Some(if next == Some('>') then (Arrow, 2) else (Minus, 1))
    case '*' => Some((Star, 1))
    case '/' => Some((Slash, 1))
    case '%' => Some((Percent, 1))
    case '&' => Some((Ampersand, 1))
    case '|' => Some(if next == Some('>') then (PipeRight, 2)
                     else if next == Some('|') then (DoublePipe, 2) else (Pipe, 1))
    case '^' => Some((Caret, 1))
    case '~' => Some(if next == Some('=') then (FuzzyEqual, 2) else (Tilde, 1))
    case '.' => Some(if next == Some('.') then (DotDot, 2) else (Dot, 1))
    case ',' => Some((Comma, 1))
    case '{' => Some((LeftBrace, 1))
    case '}' => Some((RightBrace, 1))
    case '[' => Some((LeftBracket, 1))
    case ']' => Some((RightBracket, 1))
    case '(' => Some((LeftParen, 1))
    case ')' => Some((RightParen, 1))
    case ':' => Some((Colon, 1))
    case '?' => Some(if next == Some('?') then (NullCoalesce, 2)
                     else if next == Some('.') then (QuestionDot, 2) else (Question, 1))
    case _ => None
  }

  function Head(s: string): Option<char> {
    if s == [] then None else Some(s[0])
  }

  lemma OperatorLength(c: char, rest: string)
    requires Operator(c, Head(rest)).Some?
    ensures 1 <= Operator(c, Head(rest)).value.1 <= 1 + |rest|
    ensures Operator(c, Head(rest)).value.0 != Eof
  {
  }

  function OperatorAt(t: string): Lexed<Token>
    requires t != []
  {
    match Operator(t[0], Head(t[1..]))
    case None => Err(UnexpectedChar(t[0]))
    case Some((token, n)) =>
      OperatorLength(t[0], t[1..]);
      Ok((token, t[n..]))
  }

  /** A token that starts at the first character, which is neither white space nor a comment. */
  function TokenAt(cc: CharClasses, t: string): Lexed<Token>
    requires t != []
  {
    var c, rest := t[0], t[1..];
    if cc.numeric(c) then Number(cc, t)
    else if c == '$' && (Head(rest) == Some('"') || Head(rest) == Some('\'')) then
      After(TemplateBody(rest[0], rest[1..], ""), parts => TemplateString(parts))
    else if c == '"' || c == '\'' then After(StringBody(c, rest), text => Text(text))
    else if c == '`' then After(QuotedBody(rest), name => Identifier(name))
    else if cc.alphabetic(c) || c == '_' then
      var n := WordLength(cc, t);
      Ok((WordToken(cc, t[..n]), t[n..]))
    else if c == '@' then
      var n := WordLength(cc, rest);
      if n == 0 then Err(MissingBindName) else Ok((BindVar(rest[..n]), rest[n..]))
    else OperatorAt(t)
  }

  predicate IsComment(cc: CharClasses, t: string) {
    && |t| > 1 && t[0] == '-' && t[1] == '-'
    && !cc.numeric('-') && !cc.alphabetic('-')
  }

  function NextToken(cc: CharClasses, s: string): Lexed<Token>
    decreases |s|
  {
    var t := SkipWhitespace(cc, s);
    if t == [] then Ok((Eof, []))
    else if IsComment(cc, t) then NextToken(cc, AfterLine(t[2..]))
    else TokenAt(cc, t)
  }

  lemma NumberProgress(cc: CharClasses, s: string)
    requires s != [] && cc.numeric(s[0])
    ensures NumberLength(cc, s, false).0 > 0
  {
  }

  lemma TokenAtProgress(cc: CharClasses, t: string)
    requires t != [] && TokenAt(cc, t).Ok?
    ensures TokenAt(cc, t).value.0 != Eof && |TokenAt(cc, t).value.1| < |t|
  {
    var c, rest := t[0], t[1..];
    if cc.numeric(c) {
      NumberProgress(cc, t);
    } else if Operator(c, Head(rest)).Some? {
      OperatorLength(c, rest);
    }
  }

  /** Every token but the end of input takes at least one character. */
  lemma {:induction false} NextTokenProgress(cc: CharClasses, s: string)
    requires NextToken(cc, s).Ok? && NextToken(cc, s).value.0 != Eof
    ensures |NextToken(cc, s).value.1| < |s|
    decreases |s|
  {
    var t := SkipWhitespace(cc, s);
    if IsComment(cc, t) {
      NextTokenProgress(cc, AfterLine(t[2..]));
    } else {
      TokenAtProgress(cc, t);
    }
  }

  function Tokenize(cc: CharClasses, s: string): Result<seq<Token>, LexError>
    decreases |s|
  {
    match NextToken(cc, s)
    case Err(e) => Err(e)
    case Ok((token, rest)) =>
      if token == Eof then Ok([Eof])
      else
        NextTokenProgress(cc, s);
        (match Tokenize(cc, rest)
         case Err(e) => Err(e)
         case Ok(tokens) => Ok([token] + tokens))
  }

  function Prefixed(token: Token, r: Result<seq<Token>, LexError>): Result<seq<Token>, LexError> {
    match r
    case Ok(tokens) => Ok([token] + tokens)
    case Err(e) => Err(e)
  }

  lemma TokenizeStep(cc: CharClasses, s: string, token: Token, rest: string)
    requires NextToken(cc, s) == Ok((token, rest)) && token != Eof
    ensures |rest| < |s| && Tokenize(cc, s) == Prefixed(token, Tokenize(cc, rest))
  {
    NextTokenProgress(cc, s);
  }

  lemma TokenizeStops(cc: CharClasses, s: string)
    ensures NextToken(cc, s).Err? ==> Tokenize(cc, s) == Err(NextToken(cc, s).error)
    ensures NextToken(cc, s).Ok? && NextToken(cc, s).value.0 == Eof ==> Tokenize(cc, s) == Ok([Eof])
  {
  }
}
