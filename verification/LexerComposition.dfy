/**
 Lexing is compositional over lines: what follows a newline cannot change how a complete text
 before it is read, and the other way round.
 */
module LexerComposition {
  import opened Wrappers
  import opened LexerSpec

  /** A continuation that starts on a new line. */
  predicate NewLine(x: string) {
    x != [] && x[0] == '\n'
  }

  lemma {:induction false} SkipAppend(cc: CharClasses, s: string, x: string)
    ensures SkipWhitespace(cc, s + x)
         == if SkipWhitespace(cc, s) == [] then SkipWhitespace(cc, x) else SkipWhitespace(cc, s) + x
  {
    if s == [] {
      assert s + x == x;
    } else {
      assert (s + x)[1..] == s[1..] + x;
      SkipAppend(cc, s[1..], x);
    }
  }

  lemma {:induction false} AfterLineAppend(s: string, x: string)
    requires NewLine(x)
    ensures '\n' in s ==> AfterLine(s + x) == AfterLine(s) + x
    ensures '\n' !in s ==> AfterLine(s) == [] && AfterLine(s + x) == x[1..]
  {
    if s == [] {
      assert s + x == x;
    } else {
      assert (s + x)[1..] == s[1..] + x;
      AfterLineAppend(s[1..], x);
    }
  }

  lemma {:induction false} WordAppend(cc: CharClasses, s: string, x: string)
    requires Sane(cc) && NewLine(x)
    ensures WordLength(cc, s + x) == WordLength(cc, s)
  {
    if s == [] {
      assert s + x == x;
    } else {
      assert (s + x)[1..] == s[1..] + x;
      WordAppend(cc, s[1..], x);
    }
  }

  lemma {:induction false} NumberAppend(cc: CharClasses, s: string, x: string, hasDot: bool)
    requires Sane(cc) && NewLine(x)
    ensures NumberLength(cc, s + x, hasDot) == NumberLength(cc, s, hasDot)
  {
    if s == [] {
      assert s + x == x;
    } else {
      assert (s + x)[0] == s[0] && (s + x)[1..] == s[1..] + x;
      assert (s + x)[1] == if |s| > 1 then s[1] else '\n';
      NumberAppend(cc, s[1..], x, hasDot);
      NumberAppend(cc, s[1..], x, true);
    }
  }

  lemma {:induction false} StringAppend(q: char, s: string, x: string)
    requires StringBody(q, s).Ok?
    ensures StringBody(q, s + x) == Ok((StringBody(q, s).value.0, StringBody(q, s).value.1 + x))
  {
    assert (s + x)[0] == s[0] && (s + x)[1..] == s[1..] + x;
    if s[0] != q {
      if s[0] == '\\' {
        assert (s + x)[1] == s[1] && (s + x)[2..] == s[2..] + x;
        StringAppend(q, s[2..], x);
      } else {
        StringAppend(q, s[1..], x);
      }
    }
  }

  lemma {:induction false} QuotedAppend(s: string, x: string)
    requires QuotedBody(s).Ok?
    ensures QuotedBody(s + x) == Ok((QuotedBody(s).value.0, QuotedBody(s).value.1 + x))
  {
    assert (s + x)[0] == s[0] && (s + x)[1..] == s[1..] + x;
    if s[0] != '`' {
      QuotedAppend(s[1..], x);
    }
  }

  lemma {:induction false} BraceAppend(s: string, depth: nat, x: string)
    requires depth >= 1 && BraceBody(s, depth).Ok?
    ensures BraceBody(s + x, depth) == Ok((BraceBody(s, depth).value.0, BraceBody(s, depth).value.1 + x))
  {
    assert (s + x)[0] == s[0] && (s + x)[1..] == s[1..] + x;
    if !(s[0] == '}' && depth == 1) {
      BraceAppend(s[1..], if s[0] == '{' then depth + 1 else if s[0] == '}' then depth - 1 else depth, x);
    }
  }

  lemma {:induction false} TemplateAppend(q: char, s: string, literal: string, x: string)
    requires TemplateBody(q, s, literal).Ok?
    ensures TemplateBody(q, s + x, literal)
         == Ok((TemplateBody(q, s, literal).value.0, TemplateBody(q, s, literal).value.1 + x))
    decreases |s|
  {
    assert (s + x)[0] == s[0] && (s + x)[1..] == s[1..] + x;
    if |s| > 1 { assert (s + x)[1] == s[1] && (s + x)[2..] == s[2..] + x; }
    if s[0] == q {
    } else if s[0] == '$' && |s| > 1 && s[1] == '{' {
      BraceAppend(s[2..], 1, x);
      TemplateAppend(q, BraceBody(s[2..], 1).value.1, "", x);
    } else if s[0] == '$' && |s| > 1 && s[1] == '$' {
      TemplateAppend(q, s[2..], literal + "$", x);
    } else if s[0] == '\\' {
      TemplateAppend(q, s[2..], literal + [Unescape(s[1])], x);
    } else {
      TemplateAppend(q, s[1..], literal + [s[0]], x);
    }
  }

  /** A newline is never the second half of an operator. */
  lemma OperatorAppend(c: char)
    ensures Operator(c, Some('\n')) == Operator(c, None)
  {
  }

  lemma WordTokenAppend(cc: CharClasses, t: string, x: string)
    requires Sane(cc) && NewLine(x) && t != []
    ensures WordLength(cc, t + x) == WordLength(cc, t)
    ensures (t + x)[..WordLength(cc, t)] == t[..WordLength(cc, t)]
    ensures (t + x)[WordLength(cc, t)..] == t[WordLength(cc, t)..] + x
  {
    WordAppend(cc, t, x);
  }

  lemma NumberTokenAppend(cc: CharClasses, t: string, x: string)
    requires Sane(cc) && NewLine(x) && Number(cc, t).Ok?
    ensures Number(cc, t + x) == Ok((Number(cc, t).value.0, Number(cc, t).value.1 + x))
  {
    NumberAppend(cc, t, x, false);
    var n := NumberLength(cc, t, false).0;
    assert (t + x)[..n] == t[..n] && (t + x)[n..] == t[n..] + x;
  }

  lemma OperatorTokenAppend(t: string, x: string)
    requires NewLine(x) && t != [] && Operator(t[0], Head(t[1..])).Some?
    ensures Operator(t[0], Head((t + x)[1..])) == Operator(t[0], Head(t[1..]))
    ensures var n := Operator(t[0], Head(t[1..])).value.1; n <= |t| && (t + x)[n..] == t[n..] + x
  {
    assert (t + x)[1..] == t[1..] + x;
    OperatorAppend(t[0]);
    OperatorLength(t[0], t[1..]);
  }

  predicate Delimited(t: string)
    requires t != []
  {
    || (t[0] == '$' && (Head(t[1..]) == Some('"') || Head(t[1..]) == Some('\'')))
    || t[0] == '"' || t[0] == '\'' || t[0] == '`'
  }

  lemma DelimitedTokenAppend(cc: CharClasses, t: string, x: string)
    requires NewLine(x) && t != [] && !cc.numeric(t[0]) && Delimited(t) && TokenAt(cc, t).Ok?
    ensures TokenAt(cc, t + x) == Ok((TokenAt(cc, t).value.0, TokenAt(cc, t).value.1 + x))
  {
    var c, rest := t[0], t[1..];
    assert (t + x)[0] == c && (t + x)[1..] == rest + x;
    if c == '$' {
      assert Head(rest + x) == Head(rest) && (rest + x)[1..] == rest[1..] + x;
      TemplateAppend(rest[0], rest[1..], "", x);
    } else if c == '`' {
      QuotedAppend(rest, x);
    } else {
      StringAppend(c, rest, x);
    }
  }

  lemma PlainTokenAppend(cc: CharClasses, t: string, x: string)
    requires Sane(cc) && NewLine(x) && t != [] && !cc.numeric(t[0]) && !Delimited(t) && TokenAt(cc, t).Ok?
    ensures TokenAt(cc, t + x) == Ok((TokenAt(cc, t).value.0, TokenAt(cc, t).value.1 + x))
  {
    var c, rest := t[0], t[1..];
    assert (t + x)[0] == c && (t + x)[1..] == rest + x;
    assert Head(rest + x) == if rest == [] then Some('\n') else Head(rest);
    if cc.alphabetic(c) || c == '_' {
      WordTokenAppend(cc, t, x);
    } else if c == '@' {
      WordTokenAppend(cc, rest, x);
    } else {
      OperatorTokenAppend(t, x);
    }
  }

  lemma TokenAtAppend(cc: CharClasses, t: string, x: string)
    requires Sane(cc) && NewLine(x) && t != [] && TokenAt(cc, t).Ok?
    ensures TokenAt(cc, t + x) == Ok((TokenAt(cc, t).value.0, TokenAt(cc, t).value.1 + x))
  {
    if cc.numeric(t[0]) {
      NumberTokenAppend(cc, t, x);
    } else if Delimited(t) {
      DelimitedTokenAppend(cc, t, x);
    } else {
      PlainTokenAppend(cc, t, x);
    }
  }

  lemma {:induction false} NextTokenAppend(cc: CharClasses, s: string, b: string)
    requires Sane(cc) && NextToken(cc, s).Ok?
    ensures NextToken(cc, s).value.0 == Eof ==> NextToken(cc, s + ("\n" + b)) == NextToken(cc, b)
    ensures NextToken(cc, s).value.0 != Eof ==>
              NextToken(cc, s + ("\n" + b)) == Ok((NextToken(cc, s).value.0, NextToken(cc, s).value.1 + ("\n" + b)))
    decreases |s|
  {
    var x, t := "\n" + b, SkipWhitespace(cc, s);
    assert x[1..] == b;
    SkipAppend(cc, s, x);
    if t == [] {
      assert SkipWhitespace(cc, x) == SkipWhitespace(cc, b);
    } else if IsComment(cc, t) {
      var line := t[2..];
      assert (t + x)[2..] == line + x && (t + x)[0] == t[0] && (t + x)[1] == t[1];
      AfterLineAppend(line, x);
      if '\n' in line {
        NextTokenAppend(cc, AfterLine(line), b);
      } else {
        assert NextToken(cc, []) == Ok((Eof, []));
      }
    } else {
      assert !IsComment(cc, t + x) by {
        assert (t + x)[0] == t[0] && (t + x)[1] == if |t| > 1 then t[1] else '\n';
      }
      TokenAtAppend(cc, t, x);
      TokenAtProgress(cc, t);
    }
  }

  /** A successful token list is some tokens followed by exactly one end-of-input. */
  lemma {:induction false} TokenizeEndsInEof(cc: CharClasses, s: string)
    requires Tokenize(cc, s).Ok?
    ensures var ts := Tokenize(cc, s).value;
            ts != [] && ts[|ts| - 1] == Eof && forall k :: 0 <= k < |ts| - 1 ==> ts[k] != Eof
    decreases |s|
  {
    var (token, rest) := NextToken(cc, s).value;
    if token != Eof {
      NextTokenProgress(cc, s);
      TokenizeEndsInEof(cc, rest);
    }
  }

  lemma SameNextSameTokens(cc: CharClasses, s: string, t: string)
    requires NextToken(cc, s) == NextToken(cc, t)
    ensures Tokenize(cc, s) == Tokenize(cc, t)
  {
  }

  /** Tokens of a complete text put before the tokens of what follows it. */
  function Joined(before: seq<Token>, after: Result<seq<Token>, LexError>): Result<seq<Token>, LexError>
    requires before != []
  {
    match after
    case Ok(tokens) => Ok(before[..|before| - 1] + tokens)
    case Err(e) => Err(e)
  }

  lemma JoinedOne(token: Token, after: Result<seq<Token>, LexError>)
    ensures Joined([token], after) == after
  {
    if after.Ok? { assert [token][..0] + after.value == after.value; }
  }

  lemma JoinedMore(token: Token, tokens: seq<Token>, after: Result<seq<Token>, LexError>)
    requires tokens != []
    ensures Joined([token] + tokens, after) == Prefixed(token, Joined(tokens, after))
  {
    assert ([token] + tokens)[..|tokens|] == [token] + tokens[..|tokens| - 1];
    if after.Ok? {
      assert [token] + tokens[..|tokens| - 1] + after.value == [token] + (tokens[..|tokens| - 1] + after.value);
    }
  }

  /**
   Main theorem. If `a` lexes, then for every `b` the text a, newline, b lexes to the tokens of
   `a` without its end-of-input followed by whatever `b` lexes to, errors included. This holds
   also when `a` ends in a comment, in a number with a trailing point or in half an operator.
   */
  lemma {:induction false} TokenizeJoin(cc: CharClasses, a: string, b: string)
    requires Sane(cc) && Tokenize(cc, a).Ok?
    ensures Tokenize(cc, a).value != []
    ensures Tokenize(cc, a + ("\n" + b)) == Joined(Tokenize(cc, a).value, Tokenize(cc, b))
    decreases |a|
  {
    TokenizeEndsInEof(cc, a);
    NextTokenAppend(cc, a, b);
    var (token, rest) := NextToken(cc, a).value;
    if token == Eof {
      assert Tokenize(cc, a).value == [Eof];
      SameNextSameTokens(cc, a + ("\n" + b), b);
      JoinedOne(Eof, Tokenize(cc, b));
    } else {
      NextTokenProgress(cc, a);
      TokenizeStep(cc, a, token, rest);
      TokenizeStep(cc, a + ("\n" + b), token, rest + ("\n" + b));
      TokenizeJoin(cc, rest, b);
      JoinedMore(token, Tokenize(cc, rest).value, Tokenize(cc, b));
    }
  }
}
