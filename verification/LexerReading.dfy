/**
 What the lexer reads, character by character: white space and comment lines, then a written form
 of the token, as long as possible, then the rest. Nothing is lost and nothing else is accepted.
 The written forms are given by spellings and character classes, not by the functions that read.
 */
module LexerReading {
  import opened Numbers
  import opened Wrappers
  import opened LexerSpec
  import opened LexerTemplates
  import opened LexerRoundTrip
  import opened LexerMeaning

  /** As in Unicode, neither the dollar sign nor quotes are letters. */
  ghost predicate UsualTables(cc: CharClasses) {
    AsciiTables(cc) && !cc.alphabetic('$') && !cc.alphabetic('"') && !cc.alphabetic('\'')
  }

  // ---------------------------------------------------------------------------
  // Between tokens
  // ---------------------------------------------------------------------------

  /** A comment with its newline. */
  ghost predicate CommentLine(x: string) {
    |x| > 2 && x[0] == '-' && x[1] == '-' && x[|x| - 1] == '\n' && '\n' !in x[..|x| - 1]
  }

  /** White space and comment lines, in any order. */
  ghost predicate Gap(cc: CharClasses, g: string)
    decreases |g|
  {
    || g == []
    || (cc.whitespace(g[0]) && Gap(cc, g[1..]))
    || exists n :: 0 < n <= |g| && CommentLine(g[..n]) && Gap(cc, g[n..])
  }

  /** A gap, and perhaps a last comment without newline. */
  ghost predicate Blank(cc: CharClasses, s: string) {
    exists n :: 0 <= n <= |s| && Gap(cc, s[..n]) && LastComment(s[n..])
  }

  predicate LastComment(x: string) {
    x == [] || (|x| > 1 && x[0] == '-' && x[1] == '-' && '\n' !in x)
  }

  // ---------------------------------------------------------------------------
  // Written forms
  // ---------------------------------------------------------------------------

  predicate Quoted(x: string, q: char, body: string) {
    x == [q] + (body + [q])
  }

  predicate IsWord(cc: CharClasses, x: string) {
    && x != "" && (cc.alphabetic(x[0]) || x[0] == '_') && !cc.numeric(x[0]) && !cc.whitespace(x[0]) && x[0] != '`'
    && forall k :: 0 <= k < |x| ==> WordChar(cc, x[k])
  }

  // The reserved words.

  const QUERY_WORDS: set<string> := {
    "AGGREGATE", "ASC", "COLLECT", "COUNT", "DESC", "FILTER", "FOR", "IN", "LET", "LIKE", "LIMIT", "OVER",
    "PARTITION", "RETURN", "SATISFIES", "SORT"
  }

  const VALUE_WORDS: set<string> := {
    "AND", "CASE", "ELSE", "END", "FALSE", "NOT", "NULL", "OR", "THEN", "TRUE", "WHEN"
  }

  const CHANGE_WORDS: set<string> := {
    "INSERT", "INTO", "REMOVE", "REPLACE", "UPDATE", "UPSERT", "WITH"
  }

  const GRAPH_WORDS: set<string> := {
    "ANY", "FULL", "GRAPH", "INBOUND", "JOIN", "LEFT", "ON", "OUTBOUND", "OUTER", "RIGHT", "SHORTEST_PATH",
    "TO"
  }

  const STREAM_WORDS: set<string> := {
    "AS", "CREATE", "MATERIALIZED", "REFRESH", "SIZE", "SLIDING", "STREAM", "TUMBLING", "VIEW", "WINDOW"
  }

  predicate Reserved(w: string) {
    w in QUERY_WORDS || w in VALUE_WORDS || w in CHANGE_WORDS || w in GRAPH_WORDS || w in STREAM_WORDS
  }

  /** The keyword a word stands for, whatever its case; ORDER is another spelling of SORT. */
  predicate WordMeans(cc: CharClasses, x: string, w: string) {
    if cc.upper(x) == "ORDER" then w == "SORT" else w == cc.upper(x) && Reserved(w)
  }

  predicate Zeros(z: string) {
    forall k :: 0 <= k < |z| ==> z[k] == '0'
  }

  /** Decimal digits, perhaps with leading zeros. */
  ghost predicate Numeral(x: string, v: nat) {
    exists z: string :: Zeros(z) && x == z + Decimal(v)
  }

  ghost predicate StringMeans(x: string, text: string) {
    exists q: char, body: string :: IsQuote(q) && Quoted(x, q, body) && QuotedMeans(q, body, text)
  }

  ghost predicate TemplateMeans(x: string, parts: seq<TemplatePart>) {
    && NormalForm(parts)
    && exists q: char, body: string :: IsQuote(q) && x == TemplateText(q, body) && BodyMeans(q, body, Flatten(parts))
  }

  /** The text `x` is a way to write token `t`. */
  ghost predicate Written(cc: CharClasses, t: Token, x: string) {
    match t
    case Keyword(w) => (x == "!" && w == "NOT") || (IsWord(cc, x) && WordMeans(cc, x, w))
    case Identifier(name) =>
      || (Quoted(x, '`', name) && '`' !in name)
      || (IsWord(cc, x) && x == name && cc.upper(x) != "ORDER" && !Reserved(cc.upper(x)))
    case BindVar(name) => x == "@" + name && name != "" && forall k :: 0 <= k < |name| ==> WordChar(cc, name[k])
    case Integer(v) => 0 <= v < I64_LIMIT && Numeral(x, v)
    case Float(digits) => x == digits && FloatText(digits)
    case Text(text) => StringMeans(x, text)
    case TemplateString(parts) => TemplateMeans(x, parts)
    case Eof => false
    case _ => x == Spelling(t)
  }

  /** A number goes on as long as it can. */
  predicate NumberEnds(cc: CharClasses, t: Token, x: string, rest: string)
    requires x != [] && rest != []
  {
    && !cc.numeric(rest[0])
    && (t.Integer? ==> rest[0] == '.' ==> StartsWith(rest, '.', '.'))
    && (x[|x| - 1] == '.' ==> rest[0] != '.')
  }

  /** No operator starts with all of `x` and the next character, and two dashes start a comment. */
  ghost predicate OperatorEnds(x: string, c: char) {
    (forall t :: Spelling(t) != x + [c]) && !(x == "-" && c == '-')
  }

  /** The written form could not have gone on. */
  ghost predicate Longest(cc: CharClasses, t: Token, x: string, rest: string)
    requires x != []
  {
    rest == [] ||
    if cc.numeric(x[0]) then NumberEnds(cc, t, x, rest)
    else if x[0] == '"' || x[0] == '\'' || x[0] == '$' || x[0] == '`' then true
    else if cc.alphabetic(x[0]) || x[0] == '_' || x[0] == '@' then !WordChar(cc, rest[0])
    else OperatorEnds(x, rest[0])
  }

  /** After `gap` the text goes on with `x`, which writes `t`, and then `rest`. */
  ghost predicate Reads(cc: CharClasses, s: string, gap: string, x: string, t: Token, rest: string) {
    s == gap + (x + rest) && Gap(cc, gap) && x != [] && Written(cc, t, x) && Longest(cc, t, x, rest)
  }

  // ---------------------------------------------------------------------------
  // Gaps
  // ---------------------------------------------------------------------------

  lemma GapSpace(cc: CharClasses, c: char, g: string)
    requires cc.whitespace(c) && Gap(cc, g)
    ensures Gap(cc, [c] + g)
  {
    assert ([c] + g)[1..] == g;
  }

  lemma GapComment(cc: CharClasses, line: string, g: string)
    requires CommentLine(line) && Gap(cc, g)
    ensures Gap(cc, line + g)
  {
    assert (line + g)[..|line|] == line && (line + g)[|line|..] == g;
  }

  lemma {:induction false} AfterLineSplits(s: string) returns (line: string)
    requires '\n' in s
    ensures s == line + (['\n'] + AfterLine(s)) && '\n' !in line
  {
    if s[0] == '\n' {
      line := [];
    } else {
      var more := AfterLineSplits(s[1..]);
      line := [s[0]] + more;
    }
  }

  lemma {:induction false} AfterLineOf(line: string, rest: string)
    requires '\n' !in line
    ensures AfterLine(line + (['\n'] + rest)) == rest
  {
    var s := line + (['\n'] + rest);
    if line == [] {
      assert s[0] == '\n' && s[1..] == rest;
    } else {
      assert s[0] == line[0] && s[1..] == line[1..] + (['\n'] + rest);
      assert line[0] in line && forall c :: c in line[1..] ==> c in line;
      AfterLineOf(line[1..], rest);
    }
  }

  lemma {:induction false} NoLineLeft(s: string)
    requires '\n' !in s
    ensures AfterLine(s) == []
  {
    if s != [] {
      assert s[0] in s && forall c :: c in s[1..] ==> c in s;
      NoLineLeft(s[1..]);
    }
  }

  /** The first white space character or comment line of a gap. */
  lemma GapHead(cc: CharClasses, gap: string) returns (n: nat)
    requires Gap(cc, gap) && gap != []
    ensures 0 < n <= |gap| && Gap(cc, gap[n..])
    ensures (n == 1 && cc.whitespace(gap[0])) || CommentLine(gap[..n])
  {
    if cc.whitespace(gap[0]) && Gap(cc, gap[1..]) {
      n := 1;
    } else {
      n :| 0 < n <= |gap| && CommentLine(gap[..n]) && Gap(cc, gap[n..]);
    }
  }

  lemma SpaceSkipped(cc: CharClasses, c: char, s: string, t: string)
    requires cc.whitespace(c) && t == [c] + s
    ensures NextToken(cc, t) == NextToken(cc, s)
  {
    assert t[1..] == s && SkipWhitespace(cc, t) == SkipWhitespace(cc, s);
  }

  lemma GapSkipped(cc: CharClasses, gap: string, n: nat, s: string)
    requires AsciiTables(cc) && 0 < n <= |gap|
    requires (n == 1 && cc.whitespace(gap[0])) || CommentLine(gap[..n])
    ensures NextToken(cc, gap + s) == NextToken(cc, gap[n..] + s)
  {
    assert gap + s == gap[..n] + (gap[n..] + s);
    if CommentLine(gap[..n]) {
      CommentSkipped(cc, gap[..n], gap[n..] + s);
    } else {
      assert gap[..n] == [gap[0]];
      SpaceSkipped(cc, gap[0], gap[n..] + s, gap + s);
    }
  }

  /** A gap in front changes nothing. */
  lemma {:induction false} NextAfterGap(cc: CharClasses, gap: string, s: string, t: string)
    requires AsciiTables(cc) && Gap(cc, gap) && t == gap + s
    ensures NextToken(cc, t) == NextToken(cc, s)
    decreases |gap|
  {
    if gap == [] {
      assert t == s;
    } else {
      var n := GapHead(cc, gap);
      GapSkipped(cc, gap, n, s);
      NextAfterGap(cc, gap[n..], s, gap[n..] + s);
    }
  }

  lemma CommentSkipped(cc: CharClasses, line: string, s: string)
    requires AsciiTables(cc) && CommentLine(line)
    ensures NextToken(cc, line + s) == NextToken(cc, s)
  {
    var t, inner := line + s, line[2..|line| - 1];
    assert Punctuation('-') && t[0] == '-' && t[1] == '-';
    assert SkipWhitespace(cc, t) == t && IsComment(cc, t);
    assert t[2..] == inner + (['\n'] + s);
    assert forall c :: c in inner ==> c in line[..|line| - 1];
    AfterLineOf(inner, s);
  }

  // ---------------------------------------------------------------------------
  // Operators
  // ---------------------------------------------------------------------------

  /** The token an operator character starts is spelled with it, or with it and the next one. */
  lemma OperatorSpelled(c: char, next: Option<char>)
    requires Operator(c, next).Some?
    ensures SpelledBy(c, next, Operator(c, next).value)
  {
    if c in {'=', '!', '<'} {
      ThreeWaysSpelled(c, next);
    } else if c in {'>', '|', '?'} {
      TwoWaysSpelled(c, next);
    } else {
      OneWaySpelled(c, next);
    }
  }

  predicate SpelledBy(c: char, next: Option<char>, op: (Token, nat)) {
    || (op.1 == 1 && (Spelling(op.0) == [c] || (op.0 == Keyword("NOT") && c == '!')))
    || (op.1 == 2 && next.Some? && Spelling(op.0) == [c, next.value])
  }

  lemma ThreeWaysSpelled(c: char, next: Option<char>)
    requires c in {'=', '!', '<'}
    ensures Operator(c, next).Some? && SpelledBy(c, next, Operator(c, next).value)
  {
  }

  lemma TwoWaysSpelled(c: char, next: Option<char>)
    requires c in {'>', '|', '?'}
    ensures Operator(c, next).Some? && SpelledBy(c, next, Operator(c, next).value)
  {
  }

  lemma OneWaySpelled(c: char, next: Option<char>)
    requires c !in {'=', '!', '<', '>', '|', '?'} && Operator(c, next).Some?
    ensures SpelledBy(c, next, Operator(c, next).value)
  {
  }

  lemma SpellingShort(t: Token)
    ensures |Spelling(t)| <= 2
    ensures Spelling(t) != "!" && Spelling(t) != "--"
  {
  }

  lemma SpellingPair(t: Token, c: char, d: char)
    requires Spelling(t) == [c, d]
    ensures Operator(c, Some(d)) == Some((t, 2))
  {
    SpellingReads(t);
    assert [c, d][1..] == [d];
  }

  lemma SpellingOne(t: Token, c: char)
    requires Spelling(t) == [c]
    ensures Operator(c, None) == Some((t, 1))
  {
    SpellingReads(t);
    assert [c][1..] == [];
  }

  /** Two tokens that one character starts, with and without a look at the next one. */
  lemma OneOrTwo(c: char, d: char)
    requires Operator(c, None).Some? && Operator(c, Some(d)).Some? && Operator(c, Some(d)).value.1 == 1
    ensures Operator(c, Some(d)) == Operator(c, None)
  {
  }

  lemma OperatorStart(c: char, next: Option<char>)
    ensures Operator(c, next).Some? <==> Operator(c, None).Some?
  {
  }

  lemma OperatorWritten(cc: CharClasses, s: string) returns (x: string)
    requires UsualTables(cc) && s != [] && OperatorAt(s).Ok? && !StartsWith(s, '-', '-')
    ensures s == x + OperatorAt(s).value.1 && x != [] && x[0] == s[0]
    ensures x == Spelling(OperatorAt(s).value.0) || (x == "!" && OperatorAt(s).value.0 == Keyword("NOT"))
    ensures OperatorAt(s).value.1 != [] ==> OperatorEnds(x, OperatorAt(s).value.1[0])
  {
    var next := Head(s[1..]);
    var (t, n) := Operator(s[0], next).value;
    OperatorLength(s[0], s[1..]);
    OperatorSpelled(s[0], next);
    x := s[..n];
    var rest := s[n..];
    assert n == 2 ==> x == [s[0], s[1]];
    assert n == 1 ==> x == [s[0]];
    if rest != [] {
      forall u ensures Spelling(u) != x + [rest[0]] {
        SpellingShort(u);
        if Spelling(u) == x + [rest[0]] {
          assert n == 1 && Spelling(u) == [s[0], s[1]];
          SpellingPair(u, s[0], s[1]);
        }
      }
    }
  }

  lemma OperatorComplete(x: string, t: Token, rest: string)
    requires x != [] && (x == Spelling(t) || (x == "!" && t == Keyword("NOT")))
    requires rest != [] ==> OperatorEnds(x, rest[0])
    ensures OperatorAt(x + rest) == Ok((t, rest)) && Operator(x[0], None).Some?
  {
    var s := x + rest;
    SpellingShort(t);
    if |x| == 2 {
      SpellingPair(t, x[0], x[1]);
      OperatorStart(x[0], Some(x[1]));
      assert s[1..][0] == x[1] && s[2..] == rest;
    } else {
      if x == Spelling(t) {
        SpellingOne(t, x[0]);
      }
      assert s[1..] == rest;
      if rest != [] {
        OperatorStart(x[0], Some(rest[0]));
        OperatorSpelled(x[0], Some(rest[0]));
        assert Operator(x[0], Some(rest[0])).value.1 == 1 by {
          var u := Operator(x[0], Some(rest[0])).value.0;
          assert x + [rest[0]] == [x[0], rest[0]];
          assert Spelling(u) != x + [rest[0]];
        }
        OneOrTwo(x[0], rest[0]);
      }
    }
  }

  // ---------------------------------------------------------------------------
  // Numbers
  // ---------------------------------------------------------------------------

  /** Where the scan of a number stops, and that a point is never taken before a point. */
  lemma {:induction false} NumberStops(cc: CharClasses, s: string, hasDot: bool)
    requires UsualTables(cc)
    ensures var (n, dot) := NumberLength(cc, s, hasDot);
            && (n < |s| ==> !cc.numeric(s[n]) && (!dot && s[n] == '.' ==> n + 1 < |s| && s[n + 1] == '.'))
            && (0 < n < |s| && s[n - 1] == '.' ==> s[n] != '.')
            && (hasDot ==> dot)
  {
    assert Punctuation('.');
    if s != [] && cc.numeric(s[0]) {
      NumberStops(cc, s[1..], hasDot);
    } else if s != [] && s[0] == '.' && !hasDot && !(|s| > 1 && s[1] == '.') {
      NumberStops(cc, s[1..], true);
    }
  }

  lemma DecimalMore(v: nat, d: nat)
    requires d < 10
    ensures Decimal(d) == [Digit(d)] && Decimal(0) == "0"
    ensures v > 0 ==> Decimal(10 * v + d) == Decimal(v) + [Digit(d)]
  {
    assert v > 0 ==> (10 * v + d) / 10 == v && (10 * v + d) % 10 == d;
  }

  /** One more digit after a numeral: leading zeros stay leading zeros. */
  lemma NumeralMore(z: string, v: nat, d: nat) returns (z': string)
    requires Zeros(z) && d < 10
    ensures Zeros(z') && z + Decimal(v) + [Digit(d)] == z' + Decimal(10 * v + d)
  {
    DecimalMore(v, d);
    z' := if v == 0 then z + "0" else z;
    assert z + Decimal(v) + [Digit(d)] == z + (Decimal(v) + [Digit(d)]);
  }

  lemma {:induction false} DigitsSplit(x: string) returns (z: string)
    requires x != [] && forall k :: 0 <= k < |x| ==> IsDigit(x[k])
    ensures Zeros(z) && x == z + Decimal(DigitsValue(x))
  {
    var n := |x| - 1;
    var front, d := x[..n], x[n] as int - '0' as int;
    assert IsDigit(x[n]) && Digit(d) == x[n] && x == front + [x[n]];
    if n == 0 {
      assert front == [] && DigitsValue(x) == d;
      DecimalMore(0, d);
      z := [];
    } else {
      assert forall k :: 0 <= k < n ==> front[k] == x[k];
      var z0 := DigitsSplit(front);
      z := NumeralMore(z0, DigitsValue(front), d);
    }
  }

  lemma {:induction false} ZerosMean(z: string, x: string)
    requires Zeros(z) && forall k :: 0 <= k < |x| ==> IsDigit(x[k])
    ensures (forall k :: 0 <= k < |z + x| ==> IsDigit((z + x)[k])) && DigitsValue(z + x) == DigitsValue(x)
    decreases |z| + |x|
  {
    var s := z + x;
    if x != [] {
      ZerosMean(z, x[..|x| - 1]);
      assert s[..|s| - 1] == z + x[..|x| - 1];
    } else if z != [] {
      ZerosMean(z[..|z| - 1], x);
      assert s[..|s| - 1] == z[..|z| - 1] + x;
    }
  }

  lemma NumeralValue(x: string, v: nat)
    requires Numeral(x, v)
    ensures x != [] && (forall k :: 0 <= k < |x| ==> IsDigit(x[k])) && DigitsValue(x) == v
  {
    var z: string :| Zeros(z) && x == z + Decimal(v);
    var digits := Decimal(v);
    assert forall k :: 0 <= k < |digits| ==> IsDigit(digits[k]);
    DecimalValue(v);
    ZerosMean(z, digits);
  }

  lemma NumberEndsThere(cc: CharClasses, t: Token, s: string, n: nat)
    requires UsualTables(cc) && s != [] && cc.numeric(s[0]) && n == NumberLength(cc, s, false).0
    requires t.Integer? ==> !NumberLength(cc, s, false).1
    ensures 0 < n <= |s| && Longest(cc, t, s[..n], s[n..])
  {
    NumberProgress(cc, s);
    NumberStops(cc, s, false);
  }

  lemma IntegerIsNumeral(x: string)
    requires ParseInteger(x).Some?
    ensures 0 <= ParseInteger(x).value < I64_LIMIT && Numeral(x, ParseInteger(x).value)
  {
    var z := DigitsSplit(x);
  }

  lemma NumberWritten(cc: CharClasses, s: string) returns (x: string)
    requires UsualTables(cc) && s != [] && cc.numeric(s[0]) && Number(cc, s).Ok?
    ensures var (t, rest) := Number(cc, s).value;
            s == x + rest && x != [] && Written(cc, t, x) && Longest(cc, t, x, rest)
  {
    var (n, hasDot) := NumberLength(cc, s, false);
    x := s[..n];
    if hasDot {
      FloatPrints(cc, s, x);
      NumberEndsThere(cc, Float(x), s, n);
    } else {
      IntegerIsNumeral(x);
      NumberEndsThere(cc, Integer(ParseInteger(x).value), s, n);
    }
  }

  lemma {:induction false} ScanGoesOn(cc: CharClasses, x: string, rest: string, hasDot: bool)
    requires UsualTables(cc) && x != [] && NumberLength(cc, x, hasDot).0 == |x|
    requires rest != [] ==> !cc.numeric(rest[0]) && (x[|x| - 1] == '.' ==> rest[0] != '.')
    requires rest != [] && rest[0] == '.' && !NumberLength(cc, x, hasDot).1 ==> |rest| > 1 && rest[1] == '.'
    ensures NumberLength(cc, x + rest, hasDot) == NumberLength(cc, x, hasDot)
  {
    var s := x + rest;
    assert Punctuation('.');
    assert s[1..] == x[1..] + rest;
    var dot := if cc.numeric(x[0]) then hasDot else true;
    if |x| > 1 {
      assert s[1] == x[1];
      ScanGoesOn(cc, x[1..], rest, dot);
    } else {
      assert x[1..] == [] && s[1..] == rest;
    }
  }

  lemma NumberComplete(cc: CharClasses, x: string, t: Token, rest: string)
    requires UsualTables(cc) && (t.Integer? || t.Float?) && x != [] && Written(cc, t, x) && Longest(cc, t, x, rest)
    ensures IsDigit(x[0]) && Number(cc, x + rest) == Ok((t, rest))
  {
    if t.Integer? {
      NumeralValue(x, t.value);
      ScansDigits(cc, x, false);
      assert IsDigit(x[0]) && IsDigit(x[|x| - 1]);
    } else {
      var k :| 0 < k < |x| && x[k] == '.' && forall j :: 0 <= j < |x| && j != k ==> IsDigit(x[j]);
      ScansFloat(cc, x, k);
      assert ParsesAsFloat(x);
    }
    ScanGoesOn(cc, x, rest, false);
    assert (x + rest)[..|x|] == x && (x + rest)[|x|..] == rest;
  }

  // ---------------------------------------------------------------------------
  // Words, names and quoted texts
  // ---------------------------------------------------------------------------

  lemma {:induction false} WordStops(cc: CharClasses, s: string)
    ensures WordLength(cc, s) < |s| ==> !WordChar(cc, s[WordLength(cc, s)])
  {
    if s != [] && WordChar(cc, s[0]) {
      WordStops(cc, s[1..]);
    }
  }

  lemma {:induction false} WordGoesOn(cc: CharClasses, x: string, rest: string)
    requires (forall k :: 0 <= k < |x| ==> WordChar(cc, x[k])) && (rest != [] ==> !WordChar(cc, rest[0]))
    ensures WordLength(cc, x + rest) == |x|
  {
    if x == [] {
      assert x + rest == rest;
    } else {
      assert (x + rest)[1..] == x[1..] + rest && WordChar(cc, x[0]);
      WordGoesOn(cc, x[1..], rest);
    }
  }

  lemma {:induction false} QuotedBodySound(s: string)
    requires QuotedBody(s).Ok?
    ensures s == QuotedBody(s).value.0 + (['`'] + QuotedBody(s).value.1) && '`' !in QuotedBody(s).value.0
  {
    if s[0] != '`' {
      QuotedBodySound(s[1..]);
    }
  }

  lemma {:induction false} QuotedBodyComplete(name: string, rest: string)
    requires '`' !in name
    ensures QuotedBody(name + (['`'] + rest)) == Ok((name, rest))
  {
    var s := name + (['`'] + rest);
    if name == [] {
      assert s[0] == '`' && s[1..] == rest;
    } else {
      assert s[0] == name[0] && s[1..] == name[1..] + (['`'] + rest);
      assert name[0] in name && forall c :: c in name[1..] ==> c in name;
      QuotedBodyComplete(name[1..], rest);
      assert name == [name[0]] + name[1..];
    }
  }

  lemma QueryWords(w: string)
    ensures QueryKeyword(w) <==> w in QUERY_WORDS
  {
  }

  lemma ValueWords(w: string)
    ensures ValueKeyword(w) <==> w in VALUE_WORDS
  {
  }

  lemma ChangeWords(w: string)
    ensures ChangeKeyword(w) <==> w in CHANGE_WORDS
  {
  }

  lemma GraphWords(w: string)
    ensures GraphKeyword(w) <==> w in GRAPH_WORDS
  {
  }

  lemma StreamWords(w: string)
    ensures StreamKeyword(w) <==> w in STREAM_WORDS
  {
  }

  /** The keywords are exactly the reserved words. */
  lemma KeywordsAreReserved(w: string)
    ensures IsKeyword(w) <==> Reserved(w)
  {
    QueryWords(w);
    ValueWords(w);
    ChangeWords(w);
    GraphWords(w);
    StreamWords(w);
  }

  /** A word is read as the keyword it stands for, or as an identifier if it stands for none. */
  lemma WordTokenMeans(cc: CharClasses, x: string)
    ensures WordToken(cc, x).Keyword? ==> WordMeans(cc, x, WordToken(cc, x).word)
    ensures WordToken(cc, x).Identifier? ==> cc.upper(x) != "ORDER" && !Reserved(cc.upper(x))
    ensures forall w :: WordMeans(cc, x, w) ==> WordToken(cc, x) == Keyword(w)
    ensures cc.upper(x) != "ORDER" && !Reserved(cc.upper(x)) ==> WordToken(cc, x) == Identifier(x)
  {
    KeywordsAreReserved(cc.upper(x));
  }

  lemma WordWritten(cc: CharClasses, s: string) returns (x: string)
    requires UsualTables(cc) && s != [] && !cc.whitespace(s[0]) && !cc.numeric(s[0])
    requires (cc.alphabetic(s[0]) || s[0] == '_') && s[0] != '`'
    ensures var n := WordLength(cc, s);
            s == x + s[n..] && x == s[..n] && x != [] && Longest(cc, WordToken(cc, x), x, s[n..])
            && Written(cc, WordToken(cc, x), x)
  {
    var n := WordLength(cc, s);
    WordIsWordChars(cc, s);
    WordStops(cc, s);
    x := s[..n];
    assert IsWord(cc, x);
    WordTokenMeans(cc, x);
  }

  lemma BindWritten(cc: CharClasses, s: string) returns (x: string)
    requires UsualTables(cc) && s != [] && s[0] == '@' && WordLength(cc, s[1..]) > 0
    ensures var n := WordLength(cc, s[1..]);
            var t := BindVar(s[1..][..n]);
            s == x + s[1..][n..] && x != [] && Written(cc, t, x) && Longest(cc, t, x, s[1..][n..])
  {
    var rest := s[1..];
    var n := WordLength(cc, rest);
    WordIsWordChars(cc, rest);
    WordStops(cc, rest);
    x := "@" + rest[..n];
    assert Punctuation('@');
  }

  lemma QuotedWritten(cc: CharClasses, s: string) returns (x: string)
    requires UsualTables(cc) && s != [] && s[0] == '`' && QuotedBody(s[1..]).Ok?
    ensures var (name, rest) := QuotedBody(s[1..]).value;
            s == x + rest && x != [] && Written(cc, Identifier(name), x) && Longest(cc, Identifier(name), x, rest)
  {
    QuotedBodySound(s[1..]);
    var name := QuotedBody(s[1..]).value.0;
    x := ['`'] + (name + ['`']);
    assert Punctuation('`') && Quoted(x, '`', name);
  }

  lemma StringWritten(cc: CharClasses, s: string) returns (x: string)
    requires UsualTables(cc) && s != [] && IsQuote(s[0]) && StringBody(s[0], s[1..]).Ok?
    ensures var (text, rest) := StringBody(s[0], s[1..]).value;
            s == x + rest && x != [] && Written(cc, Text(text), x) && Longest(cc, Text(text), x, rest)
  {
    var body := StringBodySound(s[0], s[1..]);
    x := [s[0]] + (body + [s[0]]);
    assert Quoted(x, s[0], body);
  }

  /** A template's text: a dollar sign, and its body between quotes. */
  function TemplateText(q: char, body: string): string {
    ['$'] + ([q] + (body + [q]))
  }

  lemma TemplateSplits(s: string, q: char, body: string, rest: string)
    requires |s| > 1 && s[0] == '$' && s[1] == q && s[2..] == body + ([q] + rest)
    ensures s == TemplateText(q, body) + rest
  {
    assert s == [s[0], s[1]] + s[2..];
  }

  lemma TemplateWritten(cc: CharClasses, s: string) returns (x: string)
    requires UsualTables(cc) && |s| > 1 && s[0] == '$' && IsQuote(s[1]) && TemplateBody(s[1], s[2..], "").Ok?
    ensures var (parts, rest) := TemplateBody(s[1], s[2..], "").value;
            && s == x + rest && x != [] && Written(cc, TemplateString(parts), x)
            && Longest(cc, TemplateString(parts), x, rest)
  {
    var q, after := s[1], s[2..];
    var body, atoms := TemplateBodySound(q, after, "");
    TemplateBodyNormal(q, after, "");
    var (parts, rest) := TemplateBody(q, after, "").value;
    assert Chars("") + atoms == atoms;
    TemplateSplits(s, q, body, rest);
    x := TemplateText(q, body);
    assert TemplateMeans(x, parts);
  }

  // ---------------------------------------------------------------------------
  // One token
  // ---------------------------------------------------------------------------

  /** The token at the first character is written there, as long as it can be. */
  lemma TokenWritten(cc: CharClasses, s: string) returns (x: string)
    requires UsualTables(cc) && s != [] && !cc.whitespace(s[0]) && !IsComment(cc, s) && TokenAt(cc, s).Ok?
    ensures var (t, rest) := TokenAt(cc, s).value;
            s == x + rest && x != [] && Written(cc, t, x) && Longest(cc, t, x, rest)
  {
    var c, rest := s[0], s[1..];
    if cc.numeric(c) {
      x := NumberWritten(cc, s);
    } else if c == '$' && (Head(rest) == Some('"') || Head(rest) == Some('\'')) {
      assert s[2..] == rest[1..];
      x := TemplateWritten(cc, s);
    } else if c == '"' || c == '\'' {
      x := StringWritten(cc, s);
    } else if c == '`' {
      x := QuotedWritten(cc, s);
    } else if cc.alphabetic(c) || c == '_' {
      x := WordWritten(cc, s);
    } else if c == '@' {
      x := BindWritten(cc, s);
    } else {
      assert Punctuation('-');
      OperatorStart(c, Head(rest));
      assert Punctuation(c);
      x := OperatorWritten(cc, s);
      assert Longest(cc, OperatorAt(s).value.0, x, OperatorAt(s).value.1);
      OperatorIsWritten(cc, OperatorAt(s).value.0, x);
    }
  }

  lemma OperatorIsWritten(cc: CharClasses, t: Token, x: string)
    requires x != [] && (x == Spelling(t) || (x == "!" && t == Keyword("NOT")))
    ensures Written(cc, t, x)
  {
  }

  lemma WordReads(cc: CharClasses, x: string, rest: string)
    requires UsualTables(cc) && IsWord(cc, x) && (rest != [] ==> !WordChar(cc, rest[0]))
    ensures TokenAt(cc, x + rest) == Ok((WordToken(cc, x), rest))
  {
    WordGoesOn(cc, x, rest);
    assert (x + rest)[0] == x[0] && (x + rest)[..|x|] == x && (x + rest)[|x|..] == rest;
  }

  lemma BindReads(cc: CharClasses, name: string, rest: string)
    requires UsualTables(cc) && name != "" && forall k :: 0 <= k < |name| ==> WordChar(cc, name[k])
    requires rest != [] ==> !WordChar(cc, rest[0])
    ensures TokenAt(cc, "@" + name + rest) == Ok((BindVar(name), rest))
  {
    var s := "@" + name + rest;
    WordGoesOn(cc, name, rest);
    assert Punctuation('@') && s[0] == '@' && s[1..] == name + rest;
    assert s[1..][..|name|] == name && s[1..][|name|..] == rest;
  }

  lemma QuotedReadsBack(cc: CharClasses, name: string, rest: string)
    requires UsualTables(cc) && '`' !in name
    ensures TokenAt(cc, ['`'] + (name + ['`']) + rest) == Ok((Identifier(name), rest))
  {
    var s := ['`'] + (name + ['`']) + rest;
    assert Punctuation('`') && s[0] == '`' && s[1..] == name + (['`'] + rest);
    QuotedBodyComplete(name, rest);
  }

  lemma StringReadsBack(cc: CharClasses, q: char, body: string, text: string, rest: string)
    requires UsualTables(cc) && IsQuote(q) && QuotedMeans(q, body, text)
    ensures TokenAt(cc, [q] + (body + [q]) + rest) == Ok((Text(text), rest))
  {
    var s := [q] + (body + [q]) + rest;
    assert s[0] == q && s[1..] == body + ([q] + rest);
    StringBodyComplete(q, body, text, rest);
  }

  lemma TemplateReadsBack(cc: CharClasses, q: char, body: string, parts: seq<TemplatePart>, rest: string)
    requires UsualTables(cc) && IsQuote(q) && NormalForm(parts) && BodyMeans(q, body, Flatten(parts))
    ensures TokenAt(cc, TemplateText(q, body) + rest) == Ok((TemplateString(parts), rest))
  {
    var s := TemplateText(q, body) + rest;
    assert s[0] == '$' && s[1] == q && s[1..][1..] == body + ([q] + rest);
    TemplateBodyComplete(q, body, parts, rest);
  }

  lemma NumberReads(cc: CharClasses, x: string, t: Token, rest: string)
    requires UsualTables(cc) && (t.Integer? || t.Float?) && x != [] && Written(cc, t, x) && Longest(cc, t, x, rest)
    ensures TokenAt(cc, x + rest) == Ok((t, rest)) && IsDigit(x[0])
  {
    NumberComplete(cc, x, t, rest);
    assert (x + rest)[0] == x[0];
  }

  lemma OperatorDispatch(cc: CharClasses, s: string)
    requires UsualTables(cc) && s != [] && Operator(s[0], None).Some?
    ensures TokenAt(cc, s) == OperatorAt(s) && !cc.whitespace(s[0])
  {
    assert Punctuation(s[0]);
    assert s[0] != '$' && s[0] != '"' && s[0] != '\'' && s[0] != '`' && s[0] != '_' && s[0] != '@';
  }

  lemma OperatorLongest(cc: CharClasses, x: string, t: Token, rest: string)
    requires UsualTables(cc) && x != [] && Operator(x[0], None).Some? && Longest(cc, t, x, rest)
    ensures rest != [] ==> OperatorEnds(x, rest[0])
  {
    assert Punctuation(x[0]);
    assert x[0] != '$' && x[0] != '"' && x[0] != '\'' && x[0] != '`' && x[0] != '_' && x[0] != '@';
  }

  predicate WritesOperator(x: string, t: Token) {
    x != [] && (x == Spelling(t) || (x == "!" && t == Keyword("NOT")))
  }

  lemma OperatorFirst(x: string, t: Token)
    requires WritesOperator(x, t)
    ensures Operator(x[0], None).Some? && |x| <= 2 && (|x| == 2 ==> !(x[0] == '-' && x[1] == '-'))
  {
    if x == Spelling(t) {
      SpellingReads(t);
      SpellingShort(t);
      assert |x| == 2 ==> x == [x[0], x[1]];
    }
  }

  lemma OperatorReads(cc: CharClasses, x: string, t: Token, rest: string)
    requires UsualTables(cc) && WritesOperator(x, t) && Longest(cc, t, x, rest)
    ensures TokenAt(cc, x + rest) == Ok((t, rest))
  {
    OperatorFirst(x, t);
    OperatorLongest(cc, x, t, rest);
    OperatorComplete(x, t, rest);
    assert (x + rest)[0] == x[0];
    OperatorDispatch(cc, x + rest);
  }

  lemma NoComment(cc: CharClasses, x: string, rest: string, s: string)
    requires s == x + rest && 0 < |x| <= 2 && (|x| == 2 ==> !(x[0] == '-' && x[1] == '-'))
    requires rest != [] ==> OperatorEnds(x, rest[0])
    ensures !IsComment(cc, s)
  {
    if |x| == 1 && x[0] == '-' {
      assert x == "-" && s[1..] == rest;
    }
  }

  lemma OperatorNoComment(cc: CharClasses, x: string, t: Token, rest: string)
    requires UsualTables(cc) && WritesOperator(x, t) && Longest(cc, t, x, rest)
    ensures !cc.whitespace(x[0]) && !IsComment(cc, x + rest)
  {
    OperatorFirst(x, t);
    OperatorLongest(cc, x, t, rest);
    NoComment(cc, x, rest, x + rest);
    assert Punctuation(x[0]);
  }

  lemma WordFormReads(cc: CharClasses, t: Token, x: string, rest: string)
    requires UsualTables(cc) && (t.Keyword? || t.Identifier?) && x != [] && Written(cc, t, x) && Longest(cc, t, x, rest)
    ensures TokenAt(cc, x + rest) == Ok((t, rest))
  {
    if WritesOperator(x, t) {
      OperatorReads(cc, x, t, rest);
    } else if t.Identifier? && Quoted(x, '`', t.name) && '`' !in t.name {
      QuotedReadsBack(cc, t.name, rest);
    } else {
      WordReads(cc, x, rest);
      WordTokenMeans(cc, x);
    }
  }

  lemma StringFormReads(cc: CharClasses, x: string, text: string, rest: string)
    requires UsualTables(cc) && StringMeans(x, text)
    ensures TokenAt(cc, x + rest) == Ok((Text(text), rest))
  {
    var q: char, body: string :| IsQuote(q) && Quoted(x, q, body) && QuotedMeans(q, body, text);
    StringReadsBack(cc, q, body, text, rest);
  }

  lemma TemplateFormReads(cc: CharClasses, x: string, parts: seq<TemplatePart>, rest: string)
    requires UsualTables(cc) && TemplateMeans(x, parts)
    ensures TokenAt(cc, x + rest) == Ok((TemplateString(parts), rest))
  {
    var q: char, body: string :| IsQuote(q) && x == TemplateText(q, body) && BodyMeans(q, body, Flatten(parts));
    TemplateReadsBack(cc, q, body, parts, rest);
  }

  /** A written form, as long as it can be, is read as its token. */
  lemma WrittenReads(cc: CharClasses, t: Token, x: string, rest: string)
    requires UsualTables(cc) && x != [] && Written(cc, t, x) && Longest(cc, t, x, rest)
    ensures TokenAt(cc, x + rest) == Ok((t, rest))
  {
    if t.Keyword? || t.Identifier? {
      WordFormReads(cc, t, x, rest);
    } else if t.BindVar? {
      assert Punctuation('@');
      BindReads(cc, t.name, rest);
    } else if t.Integer? || t.Float? {
      NumberReads(cc, x, t, rest);
    } else if t.Text? {
      StringFormReads(cc, x, t.text, rest);
    } else if t.TemplateString? {
      TemplateFormReads(cc, x, t.parts, rest);
    } else {
      OperatorForm(cc, t, x);
      OperatorReads(cc, x, t, rest);
    }
  }

  lemma OperatorForm(cc: CharClasses, t: Token, x: string)
    requires x != [] && Written(cc, t, x) && !t.Keyword? && !t.Identifier? && !t.BindVar?
    requires !t.Integer? && !t.Float? && !t.Text? && !t.TemplateString?
    ensures WritesOperator(x, t)
  {
  }

  /** A written form starts with neither white space nor a comment. */
  lemma WrittenStarts(cc: CharClasses, t: Token, x: string, rest: string)
    requires UsualTables(cc) && x != [] && Written(cc, t, x) && Longest(cc, t, x, rest)
    ensures !cc.whitespace(x[0]) && !IsComment(cc, x + rest)
  {
    if t.Integer? || t.Float? {
      NumberReads(cc, x, t, rest);
      assert (x + rest)[0] == x[0];
    } else if WritesOperator(x, t) {
      OperatorNoComment(cc, x, t, rest);
    } else {
      OtherStarts(cc, t, x, rest);
    }
  }

  lemma OtherStarts(cc: CharClasses, t: Token, x: string, rest: string)
    requires UsualTables(cc) && x != [] && Written(cc, t, x)
    requires !t.Integer? && !t.Float? && !WritesOperator(x, t)
    ensures !cc.whitespace(x[0]) && !IsComment(cc, x + rest)
  {
    assert (x + rest)[0] == x[0] && Punctuation('@') && Punctuation('`') && Punctuation('-');
  }
}
