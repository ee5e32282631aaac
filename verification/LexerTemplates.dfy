/**
 Template strings and string literals round trip through the lexer: printing and reading are
 inverse, and the part lists the lexer can return are exactly the printable ones.
 */
module LexerTemplates {
  import opened Wrappers
  import opened LexerSpec

  predicate IsQuote(q: char) {
    q == '"' || q == '\''
  }

  /** A character inside quotes, protected by a backslash where the lexer gives it a meaning. */
  function Protected(q: char, special: set<char>, c: char): string {
    if c == q || c == '\\' || c in special then ['\\', c] else [c]
  }

  function Escaped(q: char, special: set<char>, text: string): string {
    if text == [] then [] else Protected(q, special, text[0]) + Escaped(q, special, text[1..])
  }

  // ---------------------------------------------------------------------------
  // String literals
  // ---------------------------------------------------------------------------

  lemma EscapedHead(q: char, special: set<char>, text: string, tail: string)
    requires text != []
    ensures Escaped(q, special, text) + tail == Protected(q, special, text[0]) + (Escaped(q, special, text[1..]) + tail)
  {
  }

  lemma StringBodyChar(q: char, c: char, tail: string)
    requires IsQuote(q)
    ensures StringBody(q, Protected(q, {}, c) + tail)
         == (match StringBody(q, tail)
             case Ok((text, rest)) => Ok(([c] + text, rest))
             case Err(e) => Err(e))
  {
    var s := Protected(q, {}, c) + tail;
    if c == q || c == '\\' {
      assert s[0] == '\\' && s[1] == c && s[2..] == tail;
    } else {
      assert s[0] == c && s[1..] == tail;
    }
  }

  lemma {:induction false} StringBodyRoundTrip(q: char, text: string, rest: string)
    requires IsQuote(q)
    ensures StringBody(q, Escaped(q, {}, text) + ([q] + rest)) == Ok((text, rest))
  {
    var tail := [q] + rest;
    if text == [] {
      assert Escaped(q, {}, text) + tail == tail && tail[0] == q && tail[1..] == rest;
    } else {
      EscapedHead(q, {}, text, tail);
      StringBodyChar(q, text[0], Escaped(q, {}, text[1..]) + tail);
      StringBodyRoundTrip(q, text[1..], rest);
      assert text == [text[0]] + text[1..];
    }
  }

  /** Every text survives being written as a string literal and read as a token. */
  lemma StringTokenRoundTrip(cc: CharClasses, q: char, text: string, rest: string)
    requires Sane(cc) && IsQuote(q)
    ensures NextToken(cc, [q] + Escaped(q, {}, text) + ([q] + rest)) == Ok((Text(text), rest))
  {
    var s := [q] + Escaped(q, {}, text) + ([q] + rest);
    assert s[0] == q && s[1..] == Escaped(q, {}, text) + ([q] + rest);
    assert SkipWhitespace(cc, s) == s;
    StringBodyRoundTrip(q, text, rest);
  }

  // ---------------------------------------------------------------------------
  // Balanced expression texts
  // ---------------------------------------------------------------------------

  function Delta(c: char): int {
    if c == '{' then 1 else if c == '}' then -1 else 0
  }

  /** Opening braces minus closing braces. */
  function Depth(s: string): int {
    if s == [] then 0 else Delta(s[0]) + Depth(s[1..])
  }

  /** No prefix closes more braces than it opens, and all are closed at the end. */
  ghost predicate Balanced(e: string) {
    Depth(e) == 0 && forall k :: 0 <= k <= |e| ==> Depth(e[..k]) >= 0
  }

  /** As `Balanced`, inside `d` open braces of which one is the interpolation's own. */
  ghost predicate BalancedWithin(e: string, d: nat) {
    d + Depth(e) == 1 && forall k :: 0 <= k <= |e| ==> d + Depth(e[..k]) >= 1
  }

  lemma DepthPrefix(e: string, k: nat)
    requires e != [] && 0 < k <= |e|
    ensures Depth(e[..k]) == Delta(e[0]) + Depth(e[1..][..k - 1])
  {
    assert e[..k][1..] == e[1..][..k - 1];
  }

  lemma {:induction false} BraceBodyReads(e: string, d: nat, rest: string)
    requires d >= 1 && BalancedWithin(e, d)
    ensures BraceBody(e + ("}" + rest), d) == Ok((e, rest))
  {
    var s := e + ("}" + rest);
    if e == [] {
      assert s == "}" + rest;
      assert s[0] == '}' && s[1..] == rest;
    } else {
      assert s[0] == e[0] && s[1..] == e[1..] + ("}" + rest);
      DepthPrefix(e, 1);
      assert e[1..][..0] == [];
      assert d + Depth(e[..1]) >= 1;
      var d' := d + Delta(e[0]);
      forall k | 0 <= k <= |e[1..]| ensures d' + Depth(e[1..][..k]) >= 1 {
        DepthPrefix(e, k + 1);
        assert d + Depth(e[..k + 1]) >= 1;
      }
      BraceBodyReads(e[1..], d', rest);
      assert e == [e[0]] + e[1..];
    }
  }

  lemma BalancedCons(c: char, e: string, d: nat)
    requires d >= 1 && d + Delta(c) >= 1 && BalancedWithin(e, d + Delta(c))
    ensures BalancedWithin([c] + e, d)
  {
    var e' := [c] + e;
    assert e'[1..] == e;
    forall k | 0 <= k <= |e'| ensures d + Depth(e'[..k]) >= 1 {
      if k > 0 {
        DepthPrefix(e', k);
        assert d + Delta(c) + Depth(e[..k - 1]) >= 1;
      } else {
        assert e'[..0] == [];
      }
    }
  }

  lemma {:induction false} BraceBodyBalanced(s: string, d: nat)
    requires d >= 1 && BraceBody(s, d).Ok?
    ensures BalancedWithin(BraceBody(s, d).value.0, d)
    ensures s == BraceBody(s, d).value.0 + ("}" + BraceBody(s, d).value.1)
  {
    if s[0] == '}' && d == 1 {
      assert ""[..0] == "" && s == "" + ("}" + s[1..]);
    } else {
      var d' := Deeper(d, s[0]);
      BraceBodyStep(s, d);
      var (e, rest) := BraceBody(s[1..], d').value;
      BraceBodyBalanced(s[1..], d');
      BalancedCons(s[0], e, d);
      assert s == [s[0]] + e + ("}" + rest);
    }
  }

  function Deeper(d: nat, c: char): (d': nat)
    requires d >= 1 && !(c == '}' && d == 1)
    ensures d' == d + Delta(c) >= 1
  {
    if c == '{' then d + 1 else if c == '}' then d - 1 else d
  }

  lemma BraceBodyStep(s: string, d: nat)
    requires d >= 1 && BraceBody(s, d).Ok? && !(s[0] == '}' && d == 1)
    ensures BraceBody(s[1..], Deeper(d, s[0])).Ok?
    ensures var (e, rest) := BraceBody(s[1..], Deeper(d, s[0])).value; BraceBody(s, d) == Ok(([s[0]] + e, rest))
  {
  }

  // ---------------------------------------------------------------------------
  // Template strings
  // ---------------------------------------------------------------------------

  /** No empty literal, no two literals in a row, balanced expressions. */
  ghost predicate NormalForm(parts: seq<TemplatePart>) {
    && (forall k :: 0 <= k < |parts| ==>
          match parts[k] case Literal(t) => t != "" case Expression(e) => Balanced(e))
    && (forall k :: 0 < k < |parts| ==> parts[k - 1].Expression? || parts[k].Expression?)
  }

  function PrintPart(q: char, part: TemplatePart): string {
    match part
    case Literal(t) => Escaped(q, {'$'}, t)
    case Expression(e) => "${" + e + "}"
  }

  /** The parts, the closing quote and whatever follows the template. */
  function PrintParts(q: char, parts: seq<TemplatePart>, rest: string): string {
    if parts == [] then [q] + rest else PrintPart(q, parts[0]) + PrintParts(q, parts[1..], rest)
  }

  lemma CollectChar(q: char, c: char, tail: string, literal: string)
    requires IsQuote(q)
    ensures TemplateBody(q, Protected(q, {'$'}, c) + tail, literal) == TemplateBody(q, tail, literal + [c])
  {
    var s := Protected(q, {'$'}, c) + tail;
    if c == q || c == '\\' || c == '$' {
      assert s[0] == '\\' && s[1] == c && s[2..] == tail;
    } else {
      assert s[0] == c && s[1..] == tail;
    }
  }

  /** Reading an escaped literal adds exactly its text to the literal being collected. */
  lemma {:induction false} EscapedCollects(q: char, text: string, tail: string, literal: string)
    requires IsQuote(q)
    ensures TemplateBody(q, Escaped(q, {'$'}, text) + tail, literal) == TemplateBody(q, tail, literal + text)
  {
    if text == [] {
      assert Escaped(q, {'$'}, text) + tail == tail && literal + text == literal;
    } else {
      EscapedHead(q, {'$'}, text, tail);
      CollectChar(q, text[0], Escaped(q, {'$'}, text[1..]) + tail, literal);
      EscapedCollects(q, text[1..], tail, literal + [text[0]]);
      assert literal + [text[0]] + text[1..] == literal + text;
    }
  }

  lemma ExpressionReads(q: char, e: string, tail: string, literal: string, parts: seq<TemplatePart>, rest: string)
    requires IsQuote(q) && BraceBody(e + ("}" + tail), 1) == Ok((e, tail))
    requires TemplateBody(q, tail, "") == Ok((parts, rest))
    ensures TemplateBody(q, PrintPart(q, Expression(e)) + tail, literal)
         == Ok((Flush(literal) + [Expression(e)] + parts, rest))
  {
    InterpolationText(q, e, tail);
    Interpolates(q, PrintPart(q, Expression(e)) + tail, e, tail, literal, parts, rest);
  }

  lemma InterpolationText(q: char, e: string, tail: string)
    ensures var s := PrintPart(q, Expression(e)) + tail;
            |s| > 1 && s[0] == '$' && s[1] == '{' && s[2..] == e + ("}" + tail)
  {
  }

  lemma Interpolates(q: char, s: string, e: string, tail: string, literal: string,
                     parts: seq<TemplatePart>, rest: string)
    requires IsQuote(q) && |s| > 1 && s[0] == '$' && s[1] == '{' && BraceBody(s[2..], 1) == Ok((e, tail))
    requires TemplateBody(q, tail, "") == Ok((parts, rest))
    ensures TemplateBody(q, s, literal) == Ok((Flush(literal) + [Expression(e)] + parts, rest))
  {
  }

  lemma LiteralReads(q: char, t: string, tail: string, parts: seq<TemplatePart>, rest: string)
    requires IsQuote(q) && TemplateBody(q, tail, t) == Ok((parts, rest))
    ensures TemplateBody(q, PrintPart(q, Literal(t)) + tail, "") == Ok((parts, rest))
  {
    EscapedCollects(q, t, tail, "");
    assert "" + t == t;
  }

  lemma NormalTail(parts: seq<TemplatePart>)
    requires NormalForm(parts) && parts != []
    ensures NormalForm(parts[1..])
    ensures parts[0].Literal? ==> parts[1..] == [] || parts[1..][0].Expression?
  {
    var more := parts[1..];
    assert forall k :: 0 <= k < |more| ==> more[k] == parts[k + 1];
    if more != [] { assert parts[0].Expression? || parts[1].Expression?; }
  }

  lemma {:induction false} PartsReadBack(q: char, parts: seq<TemplatePart>, literal: string, rest: string)
    requires IsQuote(q) && NormalForm(parts)
    requires literal != "" ==> parts == [] || parts[0].Expression?
    ensures TemplateBody(q, PrintParts(q, parts, rest), literal) == Ok((Flush(literal) + parts, rest))
    decreases |parts|
  {
    if parts == [] {
      assert ([q] + rest)[1..] == rest;
      assert Flush(literal) + [] == Flush(literal);
    } else {
      NormalTail(parts);
      var tail := PrintParts(q, parts[1..], rest);
      if parts[0].Literal? {
        var t := parts[0].text;
        PartsReadBack(q, parts[1..], t, rest);
        LiteralReads(q, t, tail, Flush(t) + parts[1..], rest);
        assert Flush("") + parts == Flush(t) + parts[1..];
      } else {
        var e := parts[0].text;
        PartsReadBack(q, parts[1..], "", rest);
        BraceBodyReads(e, 1, tail);
        ExpressionReads(q, e, tail, literal, Flush("") + parts[1..], rest);
        assert Flush(literal) + [Expression(e)] + (Flush("") + parts[1..]) == Flush(literal) + parts;
      }
    }
  }

  /** `$`, the quoted parts, and the text that follows. */
  function PrintTemplate(q: char, parts: seq<TemplatePart>, rest: string): string {
    ['$', q] + PrintParts(q, parts, rest)
  }

  /** Every part list in normal form, printed and lexed, comes back unchanged. */
  lemma TemplateRoundTrip(cc: CharClasses, q: char, parts: seq<TemplatePart>, rest: string)
    requires Sane(cc) && IsQuote(q) && NormalForm(parts)
    ensures NextToken(cc, PrintTemplate(q, parts, rest)) == Ok((TemplateString(parts), rest))
  {
    var s := PrintTemplate(q, parts, rest);
    assert s[0] == '$' && s[1] == q && s[1..][1..] == PrintParts(q, parts, rest);
    PartsReadBack(q, parts, "", rest);
    assert Flush("") + parts == parts;
    TemplateStart(cc, s);
  }

  lemma TemplateStart(cc: CharClasses, s: string)
    requires Sane(cc) && |s| > 1 && s[0] == '$' && IsQuote(s[1])
    ensures NextToken(cc, s) == After(TemplateBody(s[1], s[1..][1..], ""), parts => TemplateString(parts))
  {
    assert SkipWhitespace(cc, s) == s;
  }

  lemma NormalFormAppend(literal: string, e: string, parts: seq<TemplatePart>)
    requires NormalForm(parts) && Balanced(e)
    ensures NormalForm(Flush(literal) + [Expression(e)] + parts)
  {
    var all := Flush(literal) + [Expression(e)] + parts;
    var n := |Flush(literal)|;
    assert all[n] == Expression(e) && forall k :: n < k < |all| ==> all[k] == parts[k - n - 1];
    forall k | 0 < k < |all| ensures all[k - 1].Expression? || all[k].Expression? {
      if k > n + 1 { assert parts[k - 1 - n - 1].Expression? || parts[k - n - 1].Expression?; }
    }
  }

  lemma {:induction false} TemplateBodyNormal(q: char, s: string, literal: string)
    requires TemplateBody(q, s, literal).Ok?
    ensures NormalForm(TemplateBody(q, s, literal).value.0)
    decreases |s|
  {
    if s[0] == q {
    } else if s[0] == '$' && |s| > 1 && s[1] == '{' {
      var (e, rest) := BraceBody(s[2..], 1).value;
      BraceBodyBalanced(s[2..], 1);
      assert Balanced(e) by {
        assert forall k :: 0 <= k <= |e| ==> 1 + Depth(e[..k]) >= 1;
      }
      TemplateBodyNormal(q, rest, "");
      NormalFormAppend(literal, e, TemplateBody(q, rest, "").value.0);
    } else if s[0] == '$' && |s| > 1 && s[1] == '$' {
      TemplateBodyNormal(q, s[2..], literal + "$");
    } else if s[0] == '\\' {
      TemplateBodyNormal(q, s[2..], literal + [Unescape(s[1])]);
    } else {
      TemplateBodyNormal(q, s[1..], literal + [s[0]]);
    }
  }

  lemma TokenAtTemplateNormal(cc: CharClasses, t: string)
    requires t != [] && TokenAt(cc, t).Ok? && TokenAt(cc, t).value.0.TemplateString?
    ensures NormalForm(TokenAt(cc, t).value.0.parts)
  {
    var rest := t[1..];
    if t[0] == '$' && (Head(rest) == Some('"') || Head(rest) == Some('\'')) && !cc.numeric(t[0]) {
      TemplateBodyNormal(rest[0], rest[1..], "");
    }
  }

  /** Every template token the lexer returns, on any text, has the normal form. */
  lemma {:induction false} TemplateTokensAreNormal(cc: CharClasses, s: string)
    requires NextToken(cc, s).Ok? && NextToken(cc, s).value.0.TemplateString?
    ensures NormalForm(NextToken(cc, s).value.0.parts)
    decreases |s|
  {
    var t := SkipWhitespace(cc, s);
    if IsComment(cc, t) {
      TemplateTokensAreNormal(cc, AfterLine(t[2..]));
    } else {
      TokenAtTemplateNormal(cc, t);
    }
  }
}
