/**
 The lexer object (src/sdbql/lexer.rs): a cursor over the characters with one character of
 look-ahead, advanced in place. Every method is proved to read exactly what `LexerSpec` says.
 */
module Lexer {
  import opened Wrappers
  import opened LexerSpec

  /** A method's outcome, with the text it left unread, agrees with the specification. */
  ghost predicate Agrees<T(!new)>(spec: Lexed<T>, r: Result<T, LexError>, rest: string) {
    match spec
    case Ok((v, left)) => r == Ok(v) && rest == left
    case Err(e) => r == Err(e)
  }

  function Prepended(text: string, r: Lexed<string>): Lexed<string> {
    match r
    case Ok((more, rest)) => Ok((text + more, rest))
    case Err(e) => Err(e)
  }

  function PrependedParts(parts: seq<TemplatePart>, r: Lexed<seq<TemplatePart>>): Lexed<seq<TemplatePart>> {
    match r
    case Ok((more, rest)) => Ok((parts + more, rest))
    case Err(e) => Err(e)
  }

  function PrependedTokens(tokens: seq<Token>, r: Result<seq<Token>, LexError>): Result<seq<Token>, LexError> {
    match r
    case Ok(more) => Ok(tokens + more)
    case Err(e) => Err(e)
  }

  lemma PrependToken(tokens: seq<Token>, token: Token, r: Result<seq<Token>, LexError>)
    ensures PrependedTokens(tokens, Prefixed(token, r)) == PrependedTokens(tokens + [token], r)
  {
    if r.Ok? {
      assert tokens + ([token] + r.value) == tokens + [token] + r.value;
    }
  }

  lemma PrependChar(text: string, c: char, r: Lexed<string>)
    ensures Prepended(text, Prepended([c], r)) == Prepended(text + [c], r)
  {
    if r.Ok? { assert text + ([c] + r.value.0) == text + [c] + r.value.0; }
  }

  lemma PrependNothing(r: Lexed<string>)
    ensures Prepended("", r) == r
  {
    if r.Ok? { assert "" + r.value.0 == r.value.0; }
  }

  lemma PrependParts(parts: seq<TemplatePart>, added: seq<TemplatePart>, r: Lexed<seq<TemplatePart>>)
    ensures PrependedParts(parts, PrependedParts(added, r)) == PrependedParts(parts + added, r)
    ensures PrependedParts([], r) == r
  {
    if r.Ok? {
      assert parts + (added + r.value.0) == parts + added + r.value.0;
      assert [] + r.value.0 == r.value.0;
    }
  }

  lemma TemplateInterpolation(q: char, s: string, literal: string)
    requires |s| > 1 && s[0] == '$' && s[0] != q && s[1] == '{'
    ensures BraceBody(s[2..], 1).Err? ==> TemplateBody(q, s, literal) == Err(BraceBody(s[2..], 1).error)
    ensures BraceBody(s[2..], 1).Ok? ==>
              var (expr, rest) := BraceBody(s[2..], 1).value;
              TemplateBody(q, s, literal)
              == PrependedParts(Flush(literal) + [Expression(expr)], TemplateBody(q, rest, ""))
  {
  }

  lemma SliceGrows(s: string, i: nat, j: nat)
    requires i <= j < |s|
    ensures s[i..j] + [s[j]] == s[i..j + 1]
  {
  }

  lemma SliceParts(s: string, i: nat, j: nat)
    requires i <= j <= |s|
    ensures s[i..][..j - i] == s[i..j] && s[i..][j - i..] == s[j..]
  {
  }

  lemma NumberStep(cc: CharClasses, s: string, hasDot: bool)
    requires s != []
    ensures var n := NumberLength(cc, s, hasDot);
            if cc.numeric(s[0]) then
              n.0 == 1 + NumberLength(cc, s[1..], hasDot).0 && n.1 == NumberLength(cc, s[1..], hasDot).1
            else if s[0] == '.' && !hasDot && !(|s| > 1 && s[1] == '.') then
              n.0 == 1 + NumberLength(cc, s[1..], true).0 && n.1 == NumberLength(cc, s[1..], true).1
            else n == (0, hasDot)
  {
  }

  /** The characters of a literal: how many input characters the next one takes, and what it stands for. */
  function LiteralChar(s: string): (nat, char)
    requires s != [] && !(s[0] == '\\' && |s| == 1)
  {
    if s[0] == '$' && |s| > 1 && s[1] == '$' then (2, '$')
    else if s[0] == '\\' then (2, Unescape(s[1]))
    else (1, s[0])
  }

  lemma TemplateLiteralChar(q: char, s: string, literal: string)
    requires s != [] && s[0] != q && !(s[0] == '\\' && |s| == 1)
    requires !(s[0] == '$' && |s| > 1 && s[1] == '{')
    ensures var (n, c) := LiteralChar(s);
            n <= |s| && TemplateBody(q, s, literal) == TemplateBody(q, s[n..], literal + [c])
  {
  }

  class Cursor {
    const cc: CharClasses
    const input: string
    var position: nat
    var currentChar: Option<char>

    ghost predicate Valid()
      reads this
    {
      position <= |input| && currentChar == Head(input[position..])
    }

    ghost function Rest(): string
      requires Valid()
      reads this
    {
      input[position..]
    }

    constructor (cc: CharClasses, input: string)
      ensures Valid() && this.cc == cc && this.input == input && Rest() == input
    {
      this.cc := cc;
      this.input := input;
      position := 0;
      currentChar := if |input| > 0 then Some(input[0]) else None;
    }

    method Advance()
      requires Valid() && currentChar.Some?
      modifies this
      ensures Valid() && Rest() == old(Rest())[1..] && position == old(position) + 1
    {
      position := position + 1;
      currentChar := if position < |input| then Some(input[position]) else None;
    }

    method PeekChar() returns (c: Option<char>)
      requires Valid()
      ensures c == if |Rest()| > 1 then Some(Rest()[1]) else None
    {
      c := if position + 1 < |input| then Some(input[position + 1]) else None;
    }

    method SkipBlanks()
      requires Valid()
      modifies this
      ensures Valid() && Rest() == SkipWhitespace(cc, old(Rest())) && position >= old(position)
    {
      while currentChar.Some? && cc.whitespace(currentChar.value)
        invariant Valid() && position >= old(position)
        invariant SkipWhitespace(cc, Rest()) == SkipWhitespace(cc, old(Rest()))
        decreases |input| - position
      {
        Advance();
      }
    }

    method SkipLine()
      requires Valid()
      modifies this
      ensures Valid() && Rest() == AfterLine(old(Rest())) && position >= old(position)
    {
      while currentChar.Some?
        invariant Valid() && position >= old(position)
        invariant AfterLine(Rest()) == AfterLine(old(Rest()))
        decreases |input| - position
      {
        if currentChar == Some('\n') {
          Advance();
          return;
        }
        Advance();
      }
    }

    method ScanNumber() returns (text: string, hasDot: bool)
      requires Valid()
      modifies this
      ensures Valid() && old(position) <= position && text == input[old(position)..position]
      ensures NumberLength(cc, old(Rest()), false) == (|text|, hasDot)
    {
      text, hasDot := "", false;
      ghost var start, total := position, NumberLength(cc, Rest(), false);
      while currentChar.Some?
        invariant Valid() && start <= position && text == input[start..position]
        invariant total.0 == |text| + NumberLength(cc, Rest(), hasDot).0
        invariant total.1 == NumberLength(cc, Rest(), hasDot).1
        decreases |input| - position
      {
        var c := currentChar.value;
        SliceGrows(input, start, position);
        NumberStep(cc, Rest(), hasDot);
        if cc.numeric(c) {
          text := text + [c];
          Advance();
        } else if c == '.' && !hasDot {
          var next := PeekChar();
          if next == Some('.') {
            break;
          }
          hasDot := true;
          text := text + [c];
          Advance();
        } else {
          break;
        }
      }
    }

    method ReadNumber() returns (r: Result<Token, LexError>)
      requires Valid()
      modifies this
      ensures Valid() && Agrees(Number(cc, old(Rest())), r, Rest())
    {
      var text, hasDot := ScanNumber();
      assert old(Rest())[..|text|] == text && old(Rest())[|text|..] == Rest();
      r := NumberToken(text, hasDot);
    }

    method ReadString() returns (r: Result<Token, LexError>)
      requires Valid() && currentChar.Some?
      modifies this
      ensures Valid()
      ensures Agrees(After(StringBody(old(Rest())[0], old(Rest())[1..]), text => Text(text)), r, Rest())
    {
      var quote := currentChar.value;
      Advance();
      var text := "";
      ghost var body := StringBody(quote, Rest());
      PrependNothing(body);
      while currentChar.Some?
        invariant Valid() && body == Prepended(text, StringBody(quote, Rest()))
        decreases |input| - position
      {
        var c := currentChar.value;
        if c == quote {
          assert text + "" == text;
          Advance();
          return Ok(Text(text));
        } else if c == '\\' {
          ghost var s := Rest();
          Advance();
          if currentChar.Some? {
            assert s[2..] == Rest()[1..];
            PrependChar(text, Unescape(currentChar.value), StringBody(quote, s[2..]));
            text := text + [Unescape(currentChar.value)];
            Advance();
          }
        } else {
          PrependChar(text, c, StringBody(quote, Rest()[1..]));
          text := text + [c];
          Advance();
        }
      }
      r := Err(UnterminatedString);
    }

    method ReadUntilClosingBrace() returns (r: Result<string, LexError>)
      requires Valid()
      modifies this
      ensures Valid() && Agrees(BraceBody(old(Rest()), 1), r, Rest())
      ensures position >= old(position)
    {
      var expr, depth: nat := "", 1;
      ghost var body := BraceBody(Rest(), 1);
      PrependNothing(body);
      while currentChar.Some?
        invariant Valid() && depth >= 1 && position >= old(position)
        invariant body == Prepended(expr, BraceBody(Rest(), depth))
        decreases |input| - position
      {
        var c := currentChar.value;
        ghost var s, before := Rest(), depth;
        if c == '{' {
          depth := depth + 1;
        } else if c == '}' {
          depth := depth - 1;
          if depth == 0 {
            assert expr + "" == expr;
            Advance();
            return Ok(expr);
          }
        }
        assert BraceBody(s, before) == Prepended([c], BraceBody(s[1..], depth));
        PrependChar(expr, c, BraceBody(s[1..], depth));
        expr := expr + [c];
        Advance();
      }
      r := Err(UnterminatedInterpolation);
    }

    /** Skips the opening of an interpolation and reads its expression. */
    method ReadInterpolation() returns (r: Result<string, LexError>)
      requires Valid() && |Rest()| > 1
      modifies this
      ensures Valid() && Agrees(BraceBody(old(Rest())[2..], 1), r, Rest()) && position > old(position)
    {
      Advance();
      Advance();
      assert Rest() == old(Rest())[2..];
      r := ReadUntilClosingBrace();
    }

    method ReadTemplateString() returns (r: Result<Token, LexError>)
      requires Valid() && |Rest()| > 1
      modifies this
      ensures Valid()
      ensures Agrees(After(TemplateBody(old(Rest())[1], old(Rest())[1..][1..], ""), parts => TemplateString(parts)),
                     r, Rest())
    {
      Advance();
      var quote := currentChar.value;
      Advance();
      var parts: seq<TemplatePart>, literal := [], "";
      ghost var body := TemplateBody(quote, Rest(), "");
      PrependParts([], [], body);
      while currentChar.Some?
        invariant Valid() && body == PrependedParts(parts, TemplateBody(quote, Rest(), literal))
        decreases |input| - position
      {
        var c := currentChar.value;
        var next := PeekChar();
        ghost var s := Rest();
        if c == quote {
          if literal != "" {
            parts := parts + [Literal(literal)];
          } else {
            assert parts + Flush(literal) == parts;
          }
          Advance();
          return Ok(TemplateString(parts));
        } else if c == '$' && next == Some('{') {
          TemplateInterpolation(quote, s, literal);
          ghost var before, collected := parts, Flush(literal);
          if literal != "" {
            parts := parts + [Literal(literal)];
            literal := "";
          }
          var expr := ReadInterpolation();
          if expr.Err? {
            return Err(expr.error);
          }
          parts := parts + [Expression(expr.value)];
          assert parts == before + (collected + [Expression(expr.value)]);
          PrependParts(before, collected + [Expression(expr.value)], TemplateBody(quote, Rest(), ""));
        } else if c == '$' && next == Some('$') {
          TemplateLiteralChar(quote, s, literal);
          literal := literal + "$";
          Advance();
          Advance();
          assert Rest() == s[2..];
        } else if c == '\\' {
          Advance();
          if currentChar.Some? {
            TemplateLiteralChar(quote, s, literal);
            literal := literal + [Unescape(currentChar.value)];
            Advance();
            assert Rest() == s[2..];
          }
        } else {
          TemplateLiteralChar(quote, s, literal);
          literal := literal + [c];
          Advance();
        }
      }
      r := Err(UnterminatedTemplate);
    }

    method ReadQuotedIdentifier() returns (r: Result<Token, LexError>)
      requires Valid() && currentChar.Some?
      modifies this
      ensures Valid() && Agrees(After(QuotedBody(old(Rest())[1..]), name => Identifier(name)), r, Rest())
    {
      Advance();
      var name := "";
      ghost var body := QuotedBody(Rest());
      PrependNothing(body);
      while currentChar.Some?
        invariant Valid() && body == Prepended(name, QuotedBody(Rest()))
        decreases |input| - position
      {
        var c := currentChar.value;
        if c == '`' {
          assert name + "" == name;
          Advance();
          return Ok(Identifier(name));
        }
        PrependChar(name, c, QuotedBody(Rest()[1..]));
        name := name + [c];
        Advance();
      }
      r := Err(UnterminatedIdentifier);
    }

    /** The loop shared by identifiers and bind variables. */
    method ReadWord() returns (word: string)
      requires Valid()
      modifies this
      ensures Valid()
      ensures var n := WordLength(cc, old(Rest())); word == old(Rest())[..n] && Rest() == old(Rest())[n..]
    {
      word := "";
      ghost var start, total := position, WordLength(cc, Rest());
      while currentChar.Some? && WordChar(cc, currentChar.value)
        invariant Valid() && start <= position && word == input[start..position]
        invariant total == |word| + WordLength(cc, Rest())
        decreases |input| - position
      {
        SliceGrows(input, start, position);
        word := word + [currentChar.value];
        Advance();
      }
      SliceParts(input, start, position);
    }

    method ReadBindVar() returns (r: Result<Token, LexError>)
      requires Valid() && currentChar.Some?
      modifies this
      ensures Valid()
      ensures var rest := old(Rest())[1..];
              var n := WordLength(cc, rest);
              Agrees(if n == 0 then Err(MissingBindName) else Ok((BindVar(rest[..n]), rest[n..])), r, Rest())
    {
      Advance();
      var name := ReadWord();
      r := if name == "" then Err(MissingBindName) else Ok(BindVar(name));
    }

    /** After the first character of an operator: two possible second characters, or none. */
    method OneOf(second: char, two: Token, third: char, three: Token, one: Token) returns (t: Token)
      requires Valid()
      modifies this
      ensures Valid()
      ensures old(currentChar) == Some(second) ==> t == two && Rest() == old(Rest())[1..]
      ensures old(currentChar) != Some(second) && old(currentChar) == Some(third) ==>
                t == three && Rest() == old(Rest())[1..]
      ensures old(currentChar) != Some(second) && old(currentChar) != Some(third) ==> t == one && Rest() == old(Rest())
    {
      if currentChar == Some(second) {
        Advance();
        t := two;
      } else if currentChar == Some(third) {
        Advance();
        t := three;
      } else {
        t := one;
      }
    }

    method ReadOperator() returns (r: Result<Token, LexError>)
      requires Valid() && currentChar.Some?
      modifies this
      ensures Valid() && Agrees(OperatorAt(old(Rest())), r, Rest())
    {
      var c := currentChar.value;
      var t := Eof;
      Advance();
      ghost var s := old(Rest());
      assert |s| > 1 ==> s[2..] == s[1..][1..];
      match c {
      case '=' => t := OneOf('=', Equal, '~', RegEx, Assign);
      case '!' => t := OneOf('=', NotEqual, '~', NotRegEx, Keyword("NOT"));
      case '<' => t := OneOf('=', LessThanEq, '<', LeftShift, LessThan);
      case '>' => t := OneOf('=', GreaterThanEq, '>', RightShift, GreaterThan);
      case '+' => t := Plus;
      case '-' => t := OneOf('>', Arrow, '>', Arrow, Minus);
      case '*' => t := Star;
      case '/' => t := Slash;
      case '%' => t := Percent;
      case '&' => t := Ampersand;
      case '|' => t := OneOf('>', PipeRight, '|', DoublePipe, Pipe);
      case '^' => t := Caret;
      case '~' => t := OneOf('=', FuzzyEqual, '=', FuzzyEqual, Tilde);
      case '.' => t := OneOf('.', DotDot, '.', DotDot, Dot);
      case ',' => t := Comma;
      case '{' => t := LeftBrace;
      case '}' => t := RightBrace;
      case '[' => t := LeftBracket;
      case ']' => t := RightBracket;
      case '(' => t := LeftParen;
      case ')' => t := RightParen;
      case ':' => t := Colon;
      case '?' => t := OneOf('?', NullCoalesce, '.', QuestionDot, Question);
      case _ => return Err(UnexpectedChar(c));
      }
      r := Ok(t);
    }

    method NextTokenInPlace() returns (r: Result<Token, LexError>)
      requires Valid()
      modifies this
      ensures Valid() && Agrees(NextToken(cc, old(Rest())), r, Rest())
      decreases |input| - position
    {
      SkipBlanks();
      if currentChar.None? {
        return Ok(Eof);
      }
      var c := currentChar.value;
      var next := PeekChar();
      if cc.numeric(c) {
        r := ReadNumber();
      } else if c == '$' && (next == Some('"') || next == Some('\'')) {
        r := ReadTemplateString();
      } else if c == '"' || c == '\'' {
        r := ReadString();
      } else if c == '`' {
        r := ReadQuotedIdentifier();
      } else if cc.alphabetic(c) || c == '_' {
        var word := ReadWord();
        r := Ok(WordToken(cc, word));
      } else if c == '@' {
        r := ReadBindVar();
      } else if c == '-' && next == Some('-') {
        ghost var t := Rest();
        Advance();
        Advance();
        assert Rest() == t[2..];
        SkipLine();
        r := NextTokenInPlace();
      } else {
        r := ReadOperator();
      }
    }

    method TokenizeInPlace() returns (r: Result<seq<Token>, LexError>)
      requires Valid()
      modifies this
      ensures Valid() && r == Tokenize(cc, old(Rest()))
    {
      var tokens := [];
      ghost var all := Tokenize(cc, Rest());
      assert all == PrependedTokens([], all) by {
        if all.Ok? { assert [] + all.value == all.value; }
      }
      while true
        invariant Valid() && all == PrependedTokens(tokens, Tokenize(cc, Rest()))
        decreases |Rest()|
      {
        ghost var s := Rest();
        TokenizeStops(cc, s);
        var token := NextTokenInPlace();
        if token.Err? {
          return Err(token.error);
        }
        if token.value == Eof {
          return Ok(tokens + [Eof]);
        }
        TokenizeStep(cc, s, token.value, Rest());
        PrependToken(tokens, token.value, Tokenize(cc, Rest()));
        tokens := tokens + [token.value];
      }
    }
  }
}
