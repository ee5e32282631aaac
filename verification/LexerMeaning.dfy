/**
 What quoted texts and templates mean, said without the functions that read them: which bodies
 stand for which text or parts. Reading gives exactly that, in both directions.
 */
module LexerMeaning {
  import opened Wrappers
  import opened LexerSpec
  import opened LexerTemplates

  // ---------------------------------------------------------------------------
  // String literals
  // ---------------------------------------------------------------------------

  /** What a backslash and a character stand for. */
  predicate EscapeMeans(c: char, d: char) {
    || (c == 'n' && d == '\n') || (c == 't' && d == '\t') || (c == 'r' && d == '\r')
    || (c !in {'n', 't', 'r'} && d == c)
  }

  /** The text between quotes `q` that stands for `text`. */
  predicate QuotedMeans(q: char, body: string, text: string) {
    if body == [] then text == []
    else if body[0] == '\\' then
      |body| > 1 && text != [] && EscapeMeans(body[1], text[0]) && QuotedMeans(q, body[2..], text[1..])
    else body[0] != q && text != [] && text[0] == body[0] && QuotedMeans(q, body[1..], text[1..])
  }

  lemma {:induction false} StringBodySound(q: char, s: string) returns (body: string)
    requires IsQuote(q) && StringBody(q, s).Ok?
    ensures s == body + ([q] + StringBody(q, s).value.1) && QuotedMeans(q, body, StringBody(q, s).value.0)
  {
    if s[0] == q {
      body := [];
    } else {
      var n := if s[0] == '\\' then 2 else 1;
      var more := StringBodySound(q, s[n..]);
      body := s[..n] + more;
      assert body[n..] == more;
      assert StringBody(q, s).value.0[1..] == StringBody(q, s[n..]).value.0;
    }
  }

  lemma {:induction false} StringBodyComplete(q: char, body: string, text: string, rest: string)
    requires IsQuote(q) && QuotedMeans(q, body, text)
    ensures StringBody(q, body + ([q] + rest)) == Ok((text, rest))
  {
    var s := body + ([q] + rest);
    if body == [] {
      assert s[0] == q && s[1..] == rest;
    } else {
      var n := if body[0] == '\\' then 2 else 1;
      assert s[n..] == body[n..] + ([q] + rest);
      StringBodyComplete(q, body[n..], text[1..], rest);
      assert text == [text[0]] + text[1..];
    }
  }

  // ---------------------------------------------------------------------------
  // Templates
  // ---------------------------------------------------------------------------

  /** A template as a sequence of single characters and interpolated expressions. */
  datatype Atom = Char(c: char) | Interpolated(e: string)

  function Chars(text: string): seq<Atom> {
    if text == [] then [] else [Char(text[0])] + Chars(text[1..])
  }

  function PartAtoms(p: TemplatePart): seq<Atom> {
    match p
    case Literal(t) => Chars(t)
    case Expression(e) => [Interpolated(e)]
  }

  function Flatten(parts: seq<TemplatePart>): seq<Atom> {
    if parts == [] then [] else PartAtoms(parts[0]) + Flatten(parts[1..])
  }

  predicate StartsWith(s: string, c: char, d: char) {
    |s| > 1 && s[0] == c && s[1] == d
  }

  /** The text between the quotes of a template that stands for these characters and expressions. */
  ghost predicate BodyMeans(q: char, body: string, atoms: seq<Atom>)
    decreases |body|
  {
    if body == [] then atoms == []
    else
      && body[0] != q && atoms != []
      && if StartsWith(body, '$', '{') then
           atoms[0].Interpolated? && Interpolation(body, atoms[0].e) && Balanced(atoms[0].e)
           && BodyMeans(q, body[|atoms[0].e| + 3..], atoms[1..])
         else if StartsWith(body, '$', '$') then atoms[0] == Char('$') && BodyMeans(q, body[2..], atoms[1..])
         else if body[0] == '\\' then
           |body| > 1 && atoms[0].Char? && EscapeMeans(body[1], atoms[0].c) && BodyMeans(q, body[2..], atoms[1..])
         else atoms[0] == Char(body[0]) && BodyMeans(q, body[1..], atoms[1..])
  }

  /** The text starts with `${`, the expression and a closing brace. */
  predicate Interpolation(body: string, e: string) {
    |body| >= |e| + 3 && body[..|e| + 3] == "${" + e + "}"
  }

  lemma {:induction false} CharsJoin(a: string, b: string)
    ensures Chars(a + b) == Chars(a) + Chars(b)
  {
    if a == [] {
      assert a + b == b;
    } else {
      assert (a + b)[1..] == a[1..] + b;
      CharsJoin(a[1..], b);
    }
  }

  lemma {:induction false} FlattenJoin(a: seq<TemplatePart>, b: seq<TemplatePart>)
    ensures Flatten(a + b) == Flatten(a) + Flatten(b)
  {
    if a == [] {
      assert a + b == b;
    } else {
      assert (a + b)[1..] == a[1..] + b;
      FlattenJoin(a[1..], b);
      assert PartAtoms(a[0]) + (Flatten(a[1..]) + Flatten(b)) == PartAtoms(a[0]) + Flatten(a[1..]) + Flatten(b);
    }
  }

  lemma FlattenFlush(literal: string)
    ensures Flatten(Flush(literal)) == Chars(literal)
  {
    if literal != "" {
      assert Flush(literal)[1..] == [];
      assert Chars(literal) + [] == Chars(literal);
    }
  }

  lemma FlattenInterpolated(literal: string, e: string, parts: seq<TemplatePart>)
    ensures Flatten(Flush(literal) + [Expression(e)] + parts) == Chars(literal) + ([Interpolated(e)] + Flatten(parts))
  {
    var one := [Expression(e)];
    assert one[1..] == [] && Flatten(one) == [Interpolated(e)];
    FlattenJoin(Flush(literal) + one, parts);
    FlattenJoin(Flush(literal), one);
    FlattenFlush(literal);
  }

  lemma CharsMore(literal: string, c: char, atoms: seq<Atom>)
    ensures Chars(literal + [c]) + atoms == Chars(literal) + ([Char(c)] + atoms)
  {
    CharsJoin(literal, [c]);
    assert [c][1..] == [] && Chars([c]) == [Char(c)];
  }

  /** One character of a literal: how many characters it takes and what it stands for. */
  lemma LiteralStep(q: char, s: string, literal: string) returns (n: nat, c: char)
    requires IsQuote(q) && s != [] && s[0] != q && s != "\\" && !StartsWith(s, '$', '{')
    ensures 0 < n <= |s| && TemplateBody(q, s, literal) == TemplateBody(q, s[n..], literal + [c])
    ensures if StartsWith(s, '$', '$') then n == 2 && c == '$'
            else if s[0] == '\\' then n == 2 && EscapeMeans(s[1], c) else n == 1 && c == s[0]
  {
    assert |s| == 1 && s[0] == '\\' ==> s == "\\";
    if StartsWith(s, '$', '$') {
      n, c := 2, '$';
    } else if s[0] == '\\' {
      n, c := 2, Unescape(s[1]);
    } else {
      n, c := 1, s[0];
    }
  }

  lemma BodyLiteral(q: char, s: string, n: nat, c: char, body: string, atoms: seq<Atom>, tail: string)
    requires IsQuote(q) && 0 < n <= |s| && s[0] != q && !StartsWith(s, '$', '{')
    requires if StartsWith(s, '$', '$') then n == 2 && c == '$'
             else if s[0] == '\\' then n == 2 && EscapeMeans(s[1], c) else n == 1 && c == s[0]
    requires s[n..] == body + tail && BodyMeans(q, body, atoms)
    ensures s == s[..n] + body + tail && BodyMeans(q, s[..n] + body, [Char(c)] + atoms)
  {
    var whole := s[..n] + body;
    assert whole[n..] == body && ([Char(c)] + atoms)[1..] == atoms;
    assert s == whole + tail;
    assert whole[0] == s[0] && (|whole| > 1 ==> whole[1] == s[1]);
  }

  lemma BodyInterpolated(q: char, s: string, e: string, rest: string, body: string, atoms: seq<Atom>, tail: string)
    requires IsQuote(q) && StartsWith(s, '$', '{') && s[2..] == e + ("}" + rest) && Balanced(e)
    requires rest == body + tail && BodyMeans(q, body, atoms)
    ensures var whole := "${" + e + "}" + body;
            s == whole + tail && BodyMeans(q, whole, [Interpolated(e)] + atoms)
  {
    var whole := "${" + e + "}" + body;
    assert s == s[..2] + s[2..] && s[..2] == "${";
    assert whole[|e| + 3..] == body && ([Interpolated(e)] + atoms)[1..] == atoms;
    assert whole[..|e| + 3] == "${" + e + "}" && whole[0] == '$' && whole[1] == '{';
    assert Interpolation(whole, e);
  }

  lemma BraceBodySound(s: string)
    requires BraceBody(s, 1).Ok?
    ensures Balanced(BraceBody(s, 1).value.0) && s == BraceBody(s, 1).value.0 + ("}" + BraceBody(s, 1).value.1)
  {
    BraceBodyBalanced(s, 1);
    var e := BraceBody(s, 1).value.0;
    assert forall k :: 0 <= k <= |e| ==> 1 + Depth(e[..k]) >= 1;
  }

  lemma {:induction false} TemplateBodySound(q: char, s: string, literal: string)
    returns (body: string, atoms: seq<Atom>)
    requires IsQuote(q) && TemplateBody(q, s, literal).Ok?
    ensures s == body + ([q] + TemplateBody(q, s, literal).value.1) && BodyMeans(q, body, atoms)
    ensures Flatten(TemplateBody(q, s, literal).value.0) == Chars(literal) + atoms
    decreases |s|
  {
    var (parts, tail) := TemplateBody(q, s, literal).value;
    if s[0] == q {
      body, atoms := [], [];
      FlattenFlush(literal);
    } else if StartsWith(s, '$', '{') {
      var (e, rest) := BraceBody(s[2..], 1).value;
      BraceBodySound(s[2..]);
      var more, as' := TemplateBodySound(q, rest, "");
      BodyInterpolated(q, s, e, rest, more, as', [q] + tail);
      FlattenInterpolated(literal, e, TemplateBody(q, rest, "").value.0);
      body, atoms := "${" + e + "}" + more, [Interpolated(e)] + as';
      assert Chars("") + as' == as';
    } else {
      var n, c := LiteralStep(q, s, literal);
      var more, as' := TemplateBodySound(q, s[n..], literal + [c]);
      BodyLiteral(q, s, n, c, more, as', [q] + tail);
      body, atoms := s[..n] + more, [Char(c)] + as';
      CharsMore(literal, c, as');
    }
  }

  lemma LiteralCharReads(q: char, body: string, atoms: seq<Atom>, literal: string, tail: string) returns (n: nat)
    requires IsQuote(q) && body != [] && BodyMeans(q, body, atoms) && !StartsWith(body, '$', '{')
    ensures 0 < n <= |body| && atoms[0].Char? && BodyMeans(q, body[n..], atoms[1..])
    ensures TemplateBody(q, body + ([q] + tail), literal)
         == TemplateBody(q, body[n..] + ([q] + tail), literal + [atoms[0].c])
  {
    var s := body + ([q] + tail);
    n := if StartsWith(body, '$', '$') || body[0] == '\\' then 2 else 1;
    assert s[n..] == body[n..] + ([q] + tail);
    assert s[0] == body[0] && s[1] == if |body| > 1 then body[1] else q;
  }

  lemma InterpolationReads(q: char, body: string, atoms: seq<Atom>, literal: string, tail: string)
    returns (more: string)
    requires IsQuote(q) && BodyMeans(q, body, atoms) && StartsWith(body, '$', '{')
    ensures atoms[0].Interpolated? && |more| < |body| && BodyMeans(q, more, atoms[1..])
    ensures var s := body + ([q] + tail);
            |s| > 1 && s[0] == '$' && s[1] == '{' && BraceBody(s[2..], 1) == Ok((atoms[0].e, more + ([q] + tail)))
  {
    var e := atoms[0].e;
    more := body[|e| + 3..];
    var s, rest := body + ([q] + tail), more + ([q] + tail);
    assert body == body[..|e| + 3] + more;
    assert s[2..] == e + ("}" + rest);
    assert forall k :: 0 <= k <= |e| ==> Depth(e[..k]) >= 0;
    BraceBodyReads(e, 1, rest);
  }

  /** Reading such a body succeeds, takes exactly it and its quote, and gives these characters and expressions. */
  lemma {:induction false} TemplateBodyReads(q: char, body: string, atoms: seq<Atom>, literal: string, tail: string)
    requires IsQuote(q) && BodyMeans(q, body, atoms)
    ensures var r := TemplateBody(q, body + ([q] + tail), literal);
            r.Ok? && r.value.1 == tail && Flatten(r.value.0) == Chars(literal) + atoms
    decreases |body|
  {
    var s := body + ([q] + tail);
    if body == [] {
      assert s[0] == q && s[1..] == tail;
      FlattenFlush(literal);
      assert Chars(literal) + [] == Chars(literal);
    } else if StartsWith(body, '$', '{') {
      var more := InterpolationReads(q, body, atoms, literal, tail);
      TemplateBodyReads(q, more, atoms[1..], "", tail);
      var parts := TemplateBody(q, more + ([q] + tail), "").value.0;
      Interpolates(q, s, atoms[0].e, more + ([q] + tail), literal, parts, tail);
      FlattenInterpolated(literal, atoms[0].e, parts);
      assert Chars("") + atoms[1..] == atoms[1..] && [atoms[0]] + atoms[1..] == atoms;
    } else {
      var n := LiteralCharReads(q, body, atoms, literal, tail);
      TemplateBodyReads(q, body[n..], atoms[1..], literal + [atoms[0].c], tail);
      CharsMore(literal, atoms[0].c, atoms[1..]);
      assert [atoms[0]] + atoms[1..] == atoms;
    }
  }

  /** How many characters come before the first expression. */
  function Leading(atoms: seq<Atom>): nat {
    if atoms == [] || atoms[0].Interpolated? then 0 else 1 + Leading(atoms[1..])
  }

  lemma {:induction false} LeadingChars(text: string, atoms: seq<Atom>)
    requires atoms == [] || atoms[0].Interpolated?
    ensures |Chars(text)| == |text| && Leading(Chars(text) + atoms) == |text|
  {
    if text == [] {
      assert Chars(text) + atoms == atoms;
    } else {
      LeadingChars(text[1..], atoms);
      assert (Chars(text) + atoms)[1..] == Chars(text[1..]) + atoms;
    }
  }

  lemma {:induction false} CharsInjective(a: string, b: string)
    requires Chars(a) == Chars(b)
    ensures a == b
  {
    if a != [] && b != [] {
      assert Chars(a)[1..] == Chars(a[1..]) && Chars(b)[1..] == Chars(b[1..]);
      assert Chars(a)[0] == Char(a[0]) && Chars(b)[0] == Char(b[0]);
      CharsInjective(a[1..], b[1..]);
      assert a == [a[0]] + a[1..] && b == [b[0]] + b[1..];
    }
  }

  lemma NormalLeading(parts: seq<TemplatePart>)
    requires NormalForm(parts) && parts != []
    ensures NormalForm(parts[1..]) && Flatten(parts) != []
    ensures Leading(Flatten(parts)) == if parts[0].Literal? then |parts[0].text| else 0
    ensures Flatten(parts) == PartAtoms(parts[0]) + Flatten(parts[1..])
  {
    NormalTail(parts);
    match parts[0]
    case Literal(t) =>
      var more := parts[1..];
      assert more == [] || Flatten(more) == [Interpolated(more[0].text)] + Flatten(more[1..]);
      LeadingChars(t, Flatten(more));
    case Expression(e) =>
  }

  /** Only one list of parts in normal form stands for given characters and expressions. */
  lemma {:induction false} NormalUnique(a: seq<TemplatePart>, b: seq<TemplatePart>)
    requires NormalForm(a) && NormalForm(b) && Flatten(a) == Flatten(b)
    ensures a == b
  {
    if a != [] { NormalLeading(a); }
    if b != [] { NormalLeading(b); }
    if a != [] && b != [] {
      SameHead(a[0], Flatten(a[1..]), b[0], Flatten(b[1..]), Flatten(a));
      NormalUnique(a[1..], b[1..]);
      assert a == [a[0]] + a[1..] && b == [b[0]] + b[1..];
    }
  }

  lemma SameHead(p: TemplatePart, x: seq<Atom>, r: TemplatePart, y: seq<Atom>, all: seq<Atom>)
    requires all == PartAtoms(p) + x && all == PartAtoms(r) + y
    requires Leading(all) == (if p.Literal? then |p.text| else 0) == (if r.Literal? then |r.text| else 0)
    requires (p.Literal? ==> p.text != "") && (r.Literal? ==> r.text != "")
    ensures p == r && x == y
  {
    if p.Literal? {
      LeadingChars(p.text, []);
      LeadingChars(r.text, []);
      assert all[..|p.text|] == Chars(p.text) && all[..|p.text|] == Chars(r.text);
      CharsInjective(p.text, r.text);
      assert all[|p.text|..] == x && all[|p.text|..] == y;
    } else {
      assert all[0] == Interpolated(p.text) && all[0] == Interpolated(r.text);
      assert all[1..] == x && all[1..] == y;
    }
  }

  /** So the parts read from a body are the one normal list that stands for what the body means. */
  lemma TemplateBodyComplete(q: char, body: string, parts: seq<TemplatePart>, tail: string)
    requires IsQuote(q) && NormalForm(parts) && BodyMeans(q, body, Flatten(parts))
    ensures TemplateBody(q, body + ([q] + tail), "") == Ok((parts, tail))
  {
    TemplateBodyReads(q, body, Flatten(parts), "", tail);
    TemplateBodyNormal(q, body + ([q] + tail), "");
    assert Chars("") + Flatten(parts) == Flatten(parts);
    NormalUnique(TemplateBody(q, body + ([q] + tail), "").value.0, parts);
  }
}
