/**
 What the lexer makes of any text: which texts have which next token, which tokenize to which list,
 and what an error says about the place where it occurs.
 */
module LexerTexts {
  import opened Numbers
  import opened Wrappers
  import opened LexerSpec
  import opened LexerTemplates
  import opened LexerRoundTrip
  import opened LexerMeaning
  import opened LexerReading

  // ---------------------------------------------------------------------------
  // The next token of a text
  // ---------------------------------------------------------------------------

  lemma CommentGap(cc: CharClasses, t: string) returns (line: string, after: string)
    requires |t| > 1 && t[0] == '-' && t[1] == '-' && '\n' in t[2..]
    ensures t == line + after && CommentLine(line) && after == AfterLine(t[2..])
  {
    var inner := AfterLineSplits(t[2..]);
    after := AfterLine(t[2..]);
    line := ['-', '-'] + inner + ['\n'];
    assert t == ['-', '-'] + t[2..] && t == line + after;
    assert line[..|line| - 1] == ['-', '-'] + inner;
  }

  /** What is left behind the gap at the start: the end of the input or the next token. */
  ghost predicate Starts(cc: CharClasses, y: string) {
    y != [] && !cc.whitespace(y[0]) && !StartsWith(y, '-', '-')
  }

  lemma {:induction false} SkipSplits(cc: CharClasses, s: string) returns (gap: string)
    ensures s == gap + SkipWhitespace(cc, s) && Gap(cc, gap)
    ensures SkipWhitespace(cc, s) == [] || !cc.whitespace(SkipWhitespace(cc, s)[0])
  {
    if s != [] && cc.whitespace(s[0]) {
      var more := SkipSplits(cc, s[1..]);
      gap := [s[0]] + more;
      GapSpace(cc, s[0], more);
    } else {
      gap := [];
    }
  }

  lemma {:induction false} GapJoin(cc: CharClasses, a: string, b: string)
    requires Gap(cc, a) && Gap(cc, b)
    ensures Gap(cc, a + b)
    decreases |a|
  {
    if a == [] {
      assert a + b == b;
    } else {
      var n := GapHead(cc, a);
      GapJoin(cc, a[n..], b);
      assert a + b == a[..n] + (a[n..] + b);
      if CommentLine(a[..n]) {
        GapComment(cc, a[..n], a[n..] + b);
      } else {
        GapSpace(cc, a[0], a[n..] + b);
        assert a[..n] == [a[0]];
      }
    }
  }

  /** Spaces, a comment line and another gap make a gap. */
  lemma GapsJoin(cc: CharClasses, s: string, spaces: string, line: string, more: string, y: string)
    returns (gap: string)
    requires s == spaces + (line + (more + y)) && Gap(cc, spaces) && CommentLine(line) && Gap(cc, more)
    ensures s == gap + y && Gap(cc, gap)
  {
    GapComment(cc, line, more);
    GapJoin(cc, spaces, line + more);
    gap := spaces + (line + more);
  }

  lemma NextIs(cc: CharClasses, s: string, t: string)
    requires t == SkipWhitespace(cc, s)
    ensures NextToken(cc, s)
         == if t == [] then Ok((Eof, []))
            else if IsComment(cc, t) then NextToken(cc, AfterLine(t[2..])) else TokenAt(cc, t)
  {
  }

  lemma CommentEnds(cc: CharClasses, t: string)
    requires |t| > 1 && t[0] == '-' && t[1] == '-' && '\n' !in t[2..]
    ensures LastComment(t) && NextToken(cc, AfterLine(t[2..])) == Ok((Eof, []))
  {
    NoLineLeft(t[2..]);
    assert t == ['-', '-'] + t[2..];
  }

  lemma {:induction false} SplitGap(cc: CharClasses, s: string) returns (gap: string, y: string)
    requires UsualTables(cc)
    ensures s == gap + y && Gap(cc, gap) && (LastComment(y) || Starts(cc, y))
    ensures NextToken(cc, s) == if LastComment(y) then Ok((Eof, [])) else TokenAt(cc, y)
    decreases |s|
  {
    var spaces := SkipSplits(cc, s);
    var t := SkipWhitespace(cc, s);
    assert Punctuation('-');
    NextIs(cc, s, t);
    gap, y := spaces, t;
    if IsComment(cc, t) {
      if '\n' in t[2..] {
        var line, after := CommentGap(cc, t);
        var more, rest := SplitGap(cc, after);
        gap := GapsJoin(cc, s, spaces, line, more, rest);
        y := rest;
      } else {
        CommentEnds(cc, t);
      }
    }
  }

  lemma BlankAfter(cc: CharClasses, gap: string, y: string)
    requires Gap(cc, gap) && LastComment(y)
    ensures Blank(cc, gap + y)
  {
    var s, n := gap + y, |gap|;
    assert s[..n] == gap && s[n..] == y;
  }

  lemma BlankEnds(cc: CharClasses, s: string)
    requires UsualTables(cc) && Blank(cc, s)
    ensures NextToken(cc, s) == Ok((Eof, []))
  {
    var n :| 0 <= n <= |s| && Gap(cc, s[..n]) && LastComment(s[n..]);
    var y := s[n..];
    NextAfterGap(cc, s[..n], y, s);
    assert Punctuation('-');
    if y != [] {
      assert SkipWhitespace(cc, y) == y && IsComment(cc, y);
      NoLineLeft(y[2..]);
    }
  }

  /** The input ends exactly when nothing but white space and comments is left. */
  lemma EofIff(cc: CharClasses, s: string, rest: string)
    requires UsualTables(cc)
    ensures NextToken(cc, s) == Ok((Eof, rest)) <==> Blank(cc, s) && rest == []
  {
    var gap, y := SplitGap(cc, s);
    if LastComment(y) {
      BlankAfter(cc, gap, y);
    } else if TokenAt(cc, y).Ok? {
      TokenAtProgress(cc, y);
    }
    if Blank(cc, s) {
      BlankEnds(cc, s);
    }
  }

  lemma ReadsIsRead(cc: CharClasses, s: string, gap: string, x: string, t: Token, rest: string)
    requires UsualTables(cc) && Reads(cc, s, gap, x, t, rest)
    ensures NextToken(cc, s) == Ok((t, rest))
  {
    var y := x + rest;
    NextAfterGap(cc, gap, y, s);
    WrittenStarts(cc, t, x, rest);
    WrittenReads(cc, t, x, rest);
    assert y[0] == x[0] && SkipWhitespace(cc, y) == y;
  }

  /**
   The next token is `t`, with `rest` left, if and only if the text is a gap, a written form of `t`
   that could not go on, and `rest`: no character is lost, and every such text is accepted.
   */
  lemma NextTokenIff(cc: CharClasses, s: string, t: Token, rest: string)
    requires UsualTables(cc) && t != Eof
    ensures NextToken(cc, s) == Ok((t, rest)) <==> exists gap, x :: Reads(cc, s, gap, x, t, rest)
  {
    if NextToken(cc, s) == Ok((t, rest)) {
      var gap, y := SplitGap(cc, s);
      assert Punctuation('-');
      var x := TokenWritten(cc, y);
      assert Reads(cc, s, gap, x, t, rest);
    }
    if exists gap, x :: Reads(cc, s, gap, x, t, rest) {
      var gap, x :| Reads(cc, s, gap, x, t, rest);
      ReadsIsRead(cc, s, gap, x, t, rest);
    }
  }

  // ---------------------------------------------------------------------------
  // Whole texts
  // ---------------------------------------------------------------------------

  /** The text is written forms of these tokens, each as long as possible, with gaps between them. */
  ghost predicate Lexes(cc: CharClasses, s: string, ts: seq<Token>)
    decreases |ts|
  {
    ts != [] &&
    if ts[0] == Eof then ts == [Eof] && Blank(cc, s)
    else exists gap, x, rest :: Reads(cc, s, gap, x, ts[0], rest) && Lexes(cc, rest, ts[1..])
  }

  lemma {:induction false} TokensAreWritten(cc: CharClasses, s: string, ts: seq<Token>)
    requires UsualTables(cc) && Tokenize(cc, s) == Ok(ts)
    ensures Lexes(cc, s, ts)
    decreases |s|
  {
    var (t, rest) := NextToken(cc, s).value;
    if t == Eof {
      EofIff(cc, s, rest);
    } else {
      NextTokenIff(cc, s, t, rest);
      TokenizeStep(cc, s, t, rest);
      var gap, x :| Reads(cc, s, gap, x, t, rest);
      assert ts[0] == t && ts[1..] == Tokenize(cc, rest).value;
      TokensAreWritten(cc, rest, ts[1..]);
      assert Reads(cc, s, gap, x, ts[0], rest) && Lexes(cc, rest, ts[1..]);
    }
  }

  lemma OneMoreToken(cc: CharClasses, s: string, t: Token, rest: string, ts: seq<Token>)
    requires NextToken(cc, s) == Ok((t, rest)) && t != Eof
    requires ts != [] && ts[0] == t && Tokenize(cc, rest) == Ok(ts[1..])
    ensures Tokenize(cc, s) == Ok(ts)
  {
    TokenizeStep(cc, s, t, rest);
    assert [ts[0]] + ts[1..] == ts;
  }

  lemma LexesMore(cc: CharClasses, s: string, ts: seq<Token>) returns (rest: string)
    requires UsualTables(cc) && Lexes(cc, s, ts) && ts[0] != Eof
    ensures NextToken(cc, s) == Ok((ts[0], rest)) && Lexes(cc, rest, ts[1..])
  {
    var gap, x, r :| Reads(cc, s, gap, x, ts[0], r) && Lexes(cc, r, ts[1..]);
    ReadsIsRead(cc, s, gap, x, ts[0], r);
    rest := r;
  }

  lemma {:induction false} WrittenTokenizes(cc: CharClasses, s: string, ts: seq<Token>)
    requires UsualTables(cc) && Lexes(cc, s, ts)
    ensures Tokenize(cc, s) == Ok(ts)
    decreases |ts|
  {
    if ts[0] == Eof {
      EofIff(cc, s, []);
      TokenizeStops(cc, s);
    } else {
      var rest := LexesMore(cc, s, ts);
      WrittenTokenizes(cc, rest, ts[1..]);
      OneMoreToken(cc, s, ts[0], rest, ts);
    }
  }

  /** A text tokenizes to a list exactly when it is those tokens, written out. */
  lemma TokenizeIff(cc: CharClasses, s: string, ts: seq<Token>)
    requires UsualTables(cc)
    ensures Tokenize(cc, s) == Ok(ts) <==> Lexes(cc, s, ts)
  {
    if Tokenize(cc, s) == Ok(ts) {
      TokensAreWritten(cc, s, ts);
    }
    if Lexes(cc, s, ts) {
      WrittenTokenizes(cc, s, ts);
    }
  }

  // ---------------------------------------------------------------------------
  // Errors
  // ---------------------------------------------------------------------------

  /** Nothing starts with this character. */
  ghost predicate StartsNothing(cc: CharClasses, y: string)
    requires y != []
  {
    var c := y[0];
    && !cc.numeric(c) && !cc.alphabetic(c) && c !in {'"', '\'', '`', '_', '@', '!'}
    && !(|y| > 1 && c == '$' && IsQuote(y[1]))
    && forall t :: Spelling(t) == "" || Spelling(t)[0] != c
  }

  /** The text ends inside a string: all of it is part of a body, but for a backslash at the very end. */
  ghost predicate EndsInString(q: char, s: string) {
    exists body: string, text: string, tail: string ::
      s == body + tail && QuotedMeans(q, body, text) && (tail == "" || tail == "\\")
  }

  /** No closing brace of its own follows. */
  ghost predicate NeverCloses(s: string) {
    forall e: string, after: string :: s == e + ("}" + after) ==> !Balanced(e)
  }

  ghost predicate EndsInTemplate(q: char, s: string) {
    exists body: string, atoms: seq<Atom>, tail: string ::
      s == body + tail && BodyMeans(q, body, atoms) && (tail == "" || tail == "\\")
  }

  /** The text is a body up to an interpolation that is never closed. */
  ghost predicate EndsInInterpolation(q: char, s: string) {
    exists body: string, atoms: seq<Atom>, open: string ::
      s == body + ("${" + open) && BodyMeans(q, body, atoms) && NeverCloses(open)
  }

  /** What an error says about the text at which it occurs. */
  ghost predicate ErrorMeans(cc: CharClasses, e: LexError, y: string)
    requires y != []
  {
    match e
    case UnexpectedChar(c) => y[0] == c && StartsNothing(cc, y)
    case MissingBindName => y[0] == '@' && (|y| > 1 ==> !WordChar(cc, y[1]))
    case UnterminatedIdentifier => y[0] == '`' && '`' !in y[1..]
    case UnterminatedString => IsQuote(y[0]) && EndsInString(y[0], y[1..])
    case UnterminatedTemplate => |y| > 1 && y[0] == '$' && IsQuote(y[1]) && EndsInTemplate(y[1], y[2..])
    case UnterminatedInterpolation => |y| > 1 && y[0] == '$' && IsQuote(y[1]) && EndsInInterpolation(y[1], y[2..])
    case InvalidInteger(text) =>
      && cc.numeric(y[0]) && text != [] && text <= y && Longest(cc, Integer(0), text, y[|text|..])
      && '.' !in text && forall v: nat :: v < I64_LIMIT ==> !Numeral(text, v)
    case InvalidFloat(text) =>
      && cc.numeric(y[0]) && text != [] && text <= y && Longest(cc, Float(text), text, y[|text|..])
      && '.' in text && !FloatText(text)
  }

  lemma {:induction false} QuotedFails(s: string)
    requires QuotedBody(s).Err?
    ensures QuotedBody(s) == Err(UnterminatedIdentifier) && '`' !in s
  {
    if s != [] {
      QuotedFails(s[1..]);
    }
  }

  lemma {:induction false} StringFails(q: char, s: string) returns (body: string, text: string, tail: string)
    requires IsQuote(q) && StringBody(q, s).Err?
    ensures StringBody(q, s) == Err(UnterminatedString)
    ensures s == body + tail && QuotedMeans(q, body, text) && (tail == "" || tail == "\\")
  {
    if s == [] || s == "\\" {
      body, text, tail := [], [], s;
    } else {
      var n := if s[0] == '\\' then 2 else 1;
      assert |s| == 1 && s[0] == '\\' ==> s == "\\";
      var more, t;
      more, t, tail := StringFails(q, s[n..]);
      body, text := s[..n] + more, [if n == 2 then Unescape(s[1]) else s[0]] + t;
      assert body[n..] == more && text[1..] == t;
    }
  }

  lemma BraceFails(s: string)
    requires BraceBody(s, 1).Err?
    ensures NeverCloses(s)
  {
    forall e: string, after: string | s == e + ("}" + after) ensures !Balanced(e) {
      if Balanced(e) {
        assert forall k :: 0 <= k <= |e| ==> Depth(e[..k]) >= 0;
        BraceBodyReads(e, 1, after);
      }
    }
  }

  lemma {:induction false} BraceError(s: string, d: nat)
    requires d >= 1 && BraceBody(s, d).Err?
    ensures BraceBody(s, d) == Err(UnterminatedInterpolation)
  {
    if s != [] && !(s[0] == '}' && d == 1) {
      BraceError(s[1..], Deeper(d, s[0]));
    }
  }

  predicate TemplateTail(e: LexError, tail: string) {
    if e == UnterminatedTemplate then tail == "" || tail == "\\"
    else e == UnterminatedInterpolation && StartsWith(tail, '$', '{')
  }

  lemma {:induction false} TemplateFails(q: char, s: string, literal: string)
    returns (body: string, atoms: seq<Atom>, tail: string)
    requires IsQuote(q) && TemplateBody(q, s, literal).Err?
    ensures s == body + tail && BodyMeans(q, body, atoms)
    ensures TemplateTail(TemplateBody(q, s, literal).error, tail)
    ensures TemplateBody(q, s, literal).error == UnterminatedInterpolation ==> NeverCloses(tail[2..])
    decreases |s|
  {
    if s == [] || s == "\\" {
      body, atoms, tail := [], [], s;
    } else if StartsWith(s, '$', '{') {
      if BraceBody(s[2..], 1).Err? {
        BraceError(s[2..], 1);
        BraceFails(s[2..]);
        body, atoms, tail := [], [], s;
      } else {
        var (e, rest) := BraceBody(s[2..], 1).value;
        BraceBodySound(s[2..]);
        var more, as';
        more, as', tail := TemplateFails(q, rest, "");
        BodyInterpolated(q, s, e, rest, more, as', tail);
        body, atoms := "${" + e + "}" + more, [Interpolated(e)] + as';
      }
    } else {
      var n, c := LiteralStep(q, s, literal);
      var more, as';
      more, as', tail := TemplateFails(q, s[n..], literal + [c]);
      BodyLiteral(q, s, n, c, more, as', tail);
      body, atoms := s[..n] + more, [Char(c)] + as';
    }
  }

  lemma TemplateErrorMeans(cc: CharClasses, y: string)
    requires |y| > 1 && y[0] == '$' && IsQuote(y[1]) && TemplateBody(y[1], y[2..], "").Err?
    ensures ErrorMeans(cc, TemplateBody(y[1], y[2..], "").error, y)
  {
    var body, atoms, tail := TemplateFails(y[1], y[2..], "");
    if TemplateBody(y[1], y[2..], "").error == UnterminatedInterpolation {
      assert tail == "${" + tail[2..];
    }
  }

  lemma NumberFails(cc: CharClasses, y: string)
    requires UsualTables(cc) && y != [] && cc.numeric(y[0]) && Number(cc, y).Err?
    ensures ErrorMeans(cc, Number(cc, y).error, y)
  {
    var (n, hasDot) := NumberLength(cc, y, false);
    var text := y[..n];
    if hasDot {
      NumberEndsThere(cc, Float(text), y, n);
      var k := OnePoint(cc, y);
      assert text[k] == '.';
    } else {
      NumberEndsThere(cc, Integer(0), y, n);
      NoPoint(cc, y);
      assert '.' !in text;
      forall v: nat | v < I64_LIMIT ensures !Numeral(text, v) {
        if Numeral(text, v) {
          NumeralValue(text, v);
        }
      }
    }
  }

  lemma {:induction false} NoPoint(cc: CharClasses, s: string)
    requires UsualTables(cc) && !NumberLength(cc, s, false).1
    ensures forall k :: 0 <= k < NumberLength(cc, s, false).0 ==> s[k] != '.'
  {
    assert Punctuation('.');
    if s != [] && cc.numeric(s[0]) {
      NoPoint(cc, s[1..]);
      assert forall k :: 0 < k < NumberLength(cc, s, false).0 ==> s[k] == s[1..][k - 1];
    } else if s != [] && s[0] == '.' && !(|s| > 1 && s[1] == '.') {
      NumberStops(cc, s[1..], true);
    }
  }

  lemma OperatorFails(cc: CharClasses, y: string)
    requires y != [] && OperatorAt(y).Err? && !cc.numeric(y[0]) && !cc.alphabetic(y[0])
    requires y[0] !in {'"', '\'', '`', '_', '@'} && !(|y| > 1 && y[0] == '$' && IsQuote(y[1]))
    ensures ErrorMeans(cc, OperatorAt(y).error, y)
  {
    forall t ensures Spelling(t) == "" || Spelling(t)[0] != y[0] {
      if Spelling(t) != "" {
        SpellingReads(t);
        OperatorStart(y[0], Head(y[1..]));
      }
    }
  }

  /** An error tells the truth about the text behind the gap. */
  lemma ErrorsMean(cc: CharClasses, s: string) returns (gap: string, y: string)
    requires UsualTables(cc) && NextToken(cc, s).Err?
    ensures s == gap + y && Gap(cc, gap) && y != [] && ErrorMeans(cc, NextToken(cc, s).error, y)
  {
    gap, y := SplitGap(cc, s);
    var c, rest := y[0], y[1..];
    if cc.numeric(c) {
      NumberFails(cc, y);
    } else if c == '$' && (Head(rest) == Some('"') || Head(rest) == Some('\'')) {
      assert y[2..] == rest[1..];
      TemplateErrorMeans(cc, y);
    } else if c == '"' || c == '\'' {
      var body, text, tail := StringFails(c, rest);
    } else if c == '`' {
      QuotedFails(rest);
    } else if cc.alphabetic(c) || c == '_' {
      assert false;
    } else if c == '@' {
      assert |y| > 1 ==> rest[0] == y[1];
    } else {
      OperatorFails(cc, y);
    }
  }
}
