/**
 The sortable string key of a hybrid logical clock (src/cluster/hlc.rs): sixteen hexadecimal
 digits, eight hexadecimal digits and the node id, separated by dashes.
 */
module ClockKey {
  import opened HybridClock
  import opened Numbers
  import opened Wrappers

  predicate InRange(c: Clock) {
    c.physical < U64_LIMIT && c.logical < U32_LIMIT
  }

  function Power16(n: nat): (p: nat)
    ensures p >= 1
  {
    if n == 0 then 1 else 16 * Power16(n - 1)
  }

  function HexDigit(d: nat): char
    requires d < 16
  {
    if d < 10 then '0' + d as char else 'a' + (d - 10) as char
  }

  /** Value of a digit in either case, as `from_str_radix` reads it. */
  function DigitValue(c: char): Option<nat> {
    if '0' <= c <= '9' then Some(c as nat - '0' as nat)
    else if 'a' <= c <= 'f' then Some(c as nat - 'a' as nat + 10)
    else if 'A' <= c <= 'F' then Some(c as nat - 'A' as nat + 10)
    else None
  }

  /** Lower-case hexadecimal, zero-padded to `width` digits (`{:016x}` and `{:08x}`). */
  function Hex(v: nat, width: nat): (s: string)
    requires v < Power16(width)
    ensures |s| == width
    ensures forall k :: 0 <= k < |s| ==> s[k] != '-' && s[k] != '+'
  {
    if width == 0 then ""
    else
      HexPrefix(v, width);
      Hex(v / 16, width - 1) + [HexDigit(v % 16)]
  }

  lemma HexPrefix(v: nat, width: nat)
    requires width > 0 && v < Power16(width)
    ensures v / 16 < Power16(width - 1)
  {
  }

  function ToStringKey(c: Clock): string
    requires InRange(c)
  {
    Widths();
    Hex(c.physical, 16) + "-" + Hex(c.logical, 8) + "-" + c.node
  }

  lemma Widths()
    ensures Power16(8) == U32_LIMIT && Power16(16) == U64_LIMIT
  {
    assert Power16(4) == 65536;
    assert Power16(8) == 65536 * 65536 by {
      assert Power16(6) == 256 * Power16(4);
    }
    assert Power16(12) == 65536 * Power16(8) by {
      assert Power16(10) == 256 * Power16(8);
    }
    assert Power16(14) == 256 * Power16(12);
  }

  /** Positional value of a non-empty digit string, `None` at the first character that is no digit. */
  function HexValue(s: string): Option<nat> {
    if s == "" then Some(0)
    else
      var high := HexValue(s[..|s| - 1]);
      var low := DigitValue(s[|s| - 1]);
      if high.Some? && low.Some? then Some(16 * high.value + low.value) else None
  }

  /** `from_str_radix(s, 16)`: an optional plus sign, at least one digit, no overflow. */
  function ParseHex(s: string, limit: nat): Option<nat> {
    var digits := if s != "" && s[0] == '+' then s[1..] else s;
    if digits == "" then None
    else
      var v := HexValue(digits);
      if v.Some? && v.value < limit then v else None
  }

  /** Index of the first dash, or the length of the text. */
  function FirstDash(s: string): (k: nat)
    ensures k <= |s|
    ensures forall j :: 0 <= j < k ==> s[j] != '-'
    ensures k < |s| ==> s[k] == '-'
  {
    if s == "" || s[0] == '-' then 0 else 1 + FirstDash(s[1..])
  }

  /** `splitn(3, '-')` keeps every dash after the second one inside the node id. */
  function FromStringKey(s: string): Option<Clock> {
    var i := FirstDash(s);
    if i == |s| then None
    else
      var tail := s[i + 1..];
      var j := FirstDash(tail);
      if j == |tail| then None
      else
        var physical := ParseHex(s[..i], U64_LIMIT);
        var logical := ParseHex(tail[..j], U32_LIMIT);
        if physical.Some? && logical.Some?
        then Some(Clock(physical.value, logical.value, tail[j + 1..]))
        else None
  }

  lemma DigitOrder(d: nat, e: nat)
    requires d < 16 && e < 16
    ensures CompareText([HexDigit(d)], [HexDigit(e)]) == CompareNat(d, e)
  {
    assert [HexDigit(d)][1..] == [] && [HexDigit(e)][1..] == [];
  }

  lemma {:induction false} HexValueOfHex(v: nat, width: nat)
    requires v < Power16(width)
    ensures HexValue(Hex(v, width)) == Some(v)
  {
    if width > 0 {
      HexPrefix(v, width);
      var s := Hex(v, width);
      assert s[..|s| - 1] == Hex(v / 16, width - 1);
      HexValueOfHex(v / 16, width - 1);
    }
  }

  lemma FirstDashAfter(a: string, b: string)
    requires forall k :: 0 <= k < |a| ==> a[k] != '-'
    ensures FirstDash(a + "-" + b) == |a|
  {
    var s := a + "-" + b;
    assert s[|a|] == '-';
    assert forall k :: 0 <= k < |a| ==> s[k] == a[k];
  }

  /** Reading a key back gives exactly the clock, even when the node id contains dashes. */
  lemma KeyRoundTrip(c: Clock)
    requires InRange(c)
    ensures FromStringKey(ToStringKey(c)) == Some(c)
  {
    Widths();
    var p, l := Hex(c.physical, 16), Hex(c.logical, 8);
    var tail := l + "-" + c.node;
    var s := ToStringKey(c);
    assert s == p + "-" + tail;
    FirstDashAfter(p, tail);
    FirstDashAfter(l, c.node);
    assert s[..16] == p && s[17..] == tail && tail[..8] == l && tail[9..] == c.node;
    HexValueOfHex(c.physical, 16);
    HexValueOfHex(c.logical, 8);
  }

  // ---------------------------------------------------------------------------
  // The order of keys is the order of clocks
  // ---------------------------------------------------------------------------

  lemma {:induction false} CompareCommonPrefix(p: string, a: string, b: string)
    ensures CompareText(p + a, p + b) == CompareText(a, b)
  {
    if p == "" {
      assert p + a == a && p + b == b;
    } else {
      assert (p + a)[1..] == p[1..] + a && (p + b)[1..] == p[1..] + b;
      CompareCommonPrefix(p[1..], a, b);
    }
  }

  /** Texts of equal length that differ decide the comparison of everything that follows them. */
  lemma {:induction false} CompareDecided(a: string, b: string, x: string, y: string)
    requires |a| == |b| && a != b
    ensures CompareText(a + x, b + y) == CompareText(a, b) != Equal
  {
    assert a + x != [] && b + y != [];
    assert (a + x)[0] == a[0] && (b + y)[0] == b[0];
    if a[0] == b[0] {
      assert (a + x)[1..] == a[1..] + x && (b + y)[1..] == b[1..] + y;
      assert a == [a[0]] + a[1..] && b == [b[0]] + b[1..];
      CompareDecided(a[1..], b[1..], x, y);
    }
  }

  /** Zero-padded hexadecimal of one width sorts as its numbers do. */
  lemma {:induction false} HexOrder(v: nat, w: nat, width: nat)
    requires v < Power16(width) && w < Power16(width)
    ensures CompareText(Hex(v, width), Hex(w, width)) == CompareNat(v, w)
  {
    if width > 0 {
      HexPrefix(v, width);
      HexPrefix(w, width);
      var a, b := Hex(v / 16, width - 1), Hex(w / 16, width - 1);
      HexOrder(v / 16, w / 16, width - 1);
      if v / 16 == w / 16 {
        CompareCommonPrefix(a, [HexDigit(v % 16)], [HexDigit(w % 16)]);
        DigitOrder(v % 16, w % 16);
      } else {
        if a == b { CompareTextReflexive(a); }
        CompareDecided(a, b, [HexDigit(v % 16)], [HexDigit(w % 16)]);
      }
    }
  }

  lemma CompareField(v: nat, w: nat, width: nat, x: string, y: string)
    requires v < Power16(width) && w < Power16(width)
    ensures CompareText(Hex(v, width) + "-" + x, Hex(w, width) + "-" + y)
         == if v == w then CompareText(x, y) else CompareNat(v, w)
  {
    var a, b := Hex(v, width), Hex(w, width);
    assert a + "-" + x == a + ("-" + x) && b + "-" + y == b + ("-" + y);
    HexOrder(v, w, width);
    if v == w {
      CompareCommonPrefix(a, "-" + x, "-" + y);
      CompareCommonPrefix("-", x, y);
    } else {
      if a == b { CompareTextReflexive(a); }
      CompareDecided(a, b, "-" + x, "-" + y);
    }
  }

  /** Sorting keys as text sorts the clocks: all u64 times, u32 counters and node ids. */
  lemma KeyOrderIsClockOrder(a: Clock, b: Clock)
    requires InRange(a) && InRange(b)
    ensures CompareText(ToStringKey(a), ToStringKey(b)) == Compare(a, b)
  {
    Widths();
    var x, y := Hex(a.logical, 8) + "-" + a.node, Hex(b.logical, 8) + "-" + b.node;
    assert ToStringKey(a) == Hex(a.physical, 16) + "-" + x;
    assert ToStringKey(b) == Hex(b.physical, 16) + "-" + y;
    CompareField(a.physical, b.physical, 16, x, y);
    CompareField(a.logical, b.logical, 8, a.node, b.node);
  }

  // ---------------------------------------------------------------------------
  // Which texts are keys
  // ---------------------------------------------------------------------------

  predicate LowerHex(s: string) {
    forall k :: 0 <= k < |s| ==> '0' <= s[k] <= '9' || 'a' <= s[k] <= 'f'
  }

  /** The layout `to_string_key` produces: two lower-case fields of fixed width. */
  predicate Canonical(s: string) {
    |s| >= 26 && LowerHex(s[..16]) && s[16] == '-' && LowerHex(s[17..25]) && s[25] == '-'
  }

  lemma {:induction false} LowerHexIsHex(s: string)
    requires LowerHex(s)
    ensures HexValue(s).Some? && HexValue(s).value < Power16(|s|)
    ensures Hex(HexValue(s).value, |s|) == s
  {
    if s != "" {
      var init := s[..|s| - 1];
      LowerHexIsHex(init);
      var last := DigitValue(s[|s| - 1]).value;
      var v := HexValue(s).value;
      assert v == 16 * HexValue(init).value + last;
      assert v / 16 == HexValue(init).value && v % 16 == last;
      assert HexDigit(last) == s[|s| - 1];
      assert s == init + [s[|s| - 1]];
    }
  }

  lemma {:induction false} HexIsLowerHex(v: nat, width: nat)
    requires v < Power16(width)
    ensures LowerHex(Hex(v, width))
  {
    if width > 0 {
      HexPrefix(v, width);
      HexIsLowerHex(v / 16, width - 1);
    }
  }

  lemma CanonicalIsPrinted(s: string) returns (c: Clock)
    requires Canonical(s)
    ensures InRange(c) && ToStringKey(c) == s
  {
    Widths();
    var p, l := s[..16], s[17..25];
    LowerHexIsHex(p);
    LowerHexIsHex(l);
    c := Clock(HexValue(p).value, HexValue(l).value, s[26..]);
    assert s == p + "-" + l + "-" + s[26..];
  }

  lemma PrintedIsCanonical(c: Clock)
    requires InRange(c)
    ensures Canonical(ToStringKey(c))
  {
    Widths();
    HexIsLowerHex(c.physical, 16);
    HexIsLowerHex(c.logical, 8);
    var p, l, s := Hex(c.physical, 16), Hex(c.logical, 8), ToStringKey(c);
    assert s == p + "-" + l + "-" + c.node;
    assert s[..16] == p && s[17..25] == l;
  }

  /** A text survives parsing and printing exactly when it has the canonical layout. */
  lemma ReprintIffCanonical(s: string)
    ensures Canonical(s) <==>
            FromStringKey(s).Some? && InRange(FromStringKey(s).value) && ToStringKey(FromStringKey(s).value) == s
  {
    if Canonical(s) {
      var c := CanonicalIsPrinted(s);
      KeyRoundTrip(c);
    } else if FromStringKey(s).Some? && InRange(FromStringKey(s).value) {
      PrintedIsCanonical(FromStringKey(s).value);
    }
  }

  // ---------------------------------------------------------------------------
  // What a text that is read means
  // ---------------------------------------------------------------------------

  function LowerCase(c: char): char {
    if 'A' <= c <= 'F' then (c as int - 'A' as int + 'a' as int) as char else c
  }

  function Lowered(s: string): string {
    if s == "" then "" else Lowered(s[..|s| - 1]) + [LowerCase(s[|s| - 1])]
  }

  /** The digits are the number in hexadecimal of their own width, in either case. */
  predicate Spells(digits: string, v: nat) {
    digits != "" && v < Power16(|digits|) && Lowered(digits) == Hex(v, |digits|)
  }

  /** A field spells the number, perhaps after a plus sign. */
  ghost predicate Denotes(field: string, v: nat) {
    exists digits :: Spells(digits, v) && (field == digits || field == "+" + digits)
  }

  /** No dash and no plus sign. */
  predicate Unsigned(s: string) {
    forall k :: 0 <= k < |s| ==> s[k] != '-' && s[k] != '+'
  }

  lemma LowerDigit(c: char)
    ensures DigitValue(LowerCase(c)) == DigitValue(c)
    ensures DigitValue(c).Some? ==> Unsigned([c]) && LowerHex([LowerCase(c)])
  {
  }

  lemma {:induction false} LoweredValue(s: string)
    ensures |Lowered(s)| == |s| && HexValue(Lowered(s)) == HexValue(s)
  {
    if s != "" {
      LoweredValue(s[..|s| - 1]);
      LowerDigit(s[|s| - 1]);
      assert Lowered(s)[..|s| - 1] == Lowered(s[..|s| - 1]);
    }
  }

  lemma {:induction false} DigitsOnly(s: string)
    requires HexValue(s).Some?
    ensures Unsigned(s) && LowerHex(Lowered(s))
  {
    if s != "" {
      DigitsOnly(s[..|s| - 1]);
      LowerDigit(s[|s| - 1]);
    }
  }

  lemma SpellsIff(digits: string, v: nat)
    ensures Spells(digits, v) <==> digits != "" && HexValue(digits) == Some(v)
  {
    LoweredValue(digits);
    if Spells(digits, v) {
      HexValueOfHex(v, |digits|);
    } else if HexValue(digits) == Some(v) {
      DigitsOnly(digits);
      LowerHexIsHex(Lowered(digits));
    }
  }

  lemma ParsedDenotes(field: string, limit: nat, v: nat)
    requires ParseHex(field, limit) == Some(v)
    ensures v < limit && Denotes(field, v)
  {
    var digits := if field[0] == '+' then field[1..] else field;
    SpellsIff(digits, v);
    assert field == digits || field == "+" + digits;
  }

  lemma DenotedParses(field: string, limit: nat, v: nat)
    requires Denotes(field, v) && v < limit
    ensures ParseHex(field, limit) == Some(v)
    ensures FieldText(field)
  {
    var digits :| Spells(digits, v) && (field == digits || field == "+" + digits);
    SpellsIff(digits, v);
    DigitsOnly(digits);
    assert field == "+" + digits ==> field[1..] == digits;
  }

  predicate FieldText(s: string) {
    forall k :: 0 <= k < |s| ==> s[k] != '-'
  }

  /** The text is two fields that denote the numbers, and the node id, joined by dashes. */
  ghost predicate Reads(s: string, p: string, l: string, c: Clock) {
    s == p + "-" + l + "-" + c.node && Denotes(p, c.physical) && Denotes(l, c.logical)
  }

  lemma SplitField(s: string, p: string, tail: string)
    requires s == p + "-" + tail && FieldText(p)
    ensures FirstDash(s) == |p| < |s| && s[..|p|] == p && s[|p| + 1..] == tail
  {
    FirstDashAfter(p, tail);
  }

  lemma TwoCuts(s: string, i: nat, j: nat)
    requires i + 1 + j < |s| && s[i] == '-' && s[i + 1 + j] == '-'
    ensures var tail := s[i + 1..]; s == s[..i] + "-" + tail[..j] + "-" + tail[j + 1..]
  {
  }

  lemma KeyParts(s: string, c: Clock) returns (p: string, l: string)
    requires FromStringKey(s) == Some(c)
    ensures s == p + "-" + l + "-" + c.node
    ensures ParseHex(p, U64_LIMIT) == Some(c.physical) && ParseHex(l, U32_LIMIT) == Some(c.logical)
  {
    var i := FirstDash(s);
    var tail := s[i + 1..];
    var j := FirstDash(tail);
    p, l := s[..i], tail[..j];
    TwoCuts(s, i, j);
  }

  lemma ReadMeans(s: string, c: Clock)
    requires FromStringKey(s) == Some(c)
    ensures InRange(c) && exists p, l :: Reads(s, p, l, c)
  {
    var p, l := KeyParts(s, c);
    ParsedDenotes(p, U64_LIMIT, c.physical);
    ParsedDenotes(l, U32_LIMIT, c.logical);
    assert Reads(s, p, l, c);
  }

  lemma PartsRead(s: string, p: string, tail: string, l: string, c: Clock)
    requires FirstDash(s) == |p| < |s| && s[..|p|] == p && s[|p| + 1..] == tail
    requires FirstDash(tail) == |l| < |tail| && tail[..|l|] == l && tail[|l| + 1..] == c.node
    requires ParseHex(p, U64_LIMIT) == Some(c.physical) && ParseHex(l, U32_LIMIT) == Some(c.logical)
    ensures FromStringKey(s) == Some(c)
  {
  }

  lemma MeantIsRead(s: string, p: string, l: string, c: Clock)
    requires InRange(c) && Reads(s, p, l, c)
    ensures FromStringKey(s) == Some(c)
  {
    DenotedParses(p, U64_LIMIT, c.physical);
    DenotedParses(l, U32_LIMIT, c.logical);
    var tail := l + "-" + c.node;
    assert s == p + "-" + tail;
    SplitField(s, p, tail);
    SplitField(tail, l, c.node);
    PartsRead(s, p, tail, l, c);
  }

  /** A text is read as a clock if and only if it means that clock and both numbers fit their words. */
  lemma FromKeyIff(s: string, c: Clock)
    ensures FromStringKey(s) == Some(c) <==> InRange(c) && exists p, l :: Reads(s, p, l, c)
  {
    if FromStringKey(s) == Some(c) {
      ReadMeans(s, c);
    }
    if InRange(c) && exists p, l :: Reads(s, p, l, c) {
      var p, l :| Reads(s, p, l, c);
      MeantIsRead(s, p, l, c);
    }
  }
}
