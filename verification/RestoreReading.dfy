/**
 What the restore reads from any stream. A stream is a sequence of segments: blank lines, lines that
 do not parse, documents, and binary chunks with their raw bytes and the one byte dropped after
 them. Nothing that does not parse makes the reader lose anything around it.
 */
module RestoreReading {
  import opened Wrappers
  import opened Restore

  datatype Segment =
    | Blank(line: Bytes)
    | Broken(line: Bytes)
    | Document(line: Bytes, value: Value)
    | Binary(line: Bytes, value: Value, data: Bytes, dropped: Byte)

  /** Spaces, tabs, carriage returns, form feeds and newlines. */
  predicate IsSpace(b: Byte) {
    b in {32, 9, 13, 12, 10}
  }

  ghost predicate OnlySpaces(line: Bytes) {
    forall b :: b in line ==> IsSpace(b)
  }

  /** A line of its kind: one line, blank or not, and read as the segment says. */
  ghost predicate SegmentOk(cd: Codec, g: Segment) {
    && NEWLINE !in g.line && (g.Blank? <==> OnlySpaces(g.line))
    && match g
       case Blank(_) => true
       case Broken(line) => cd.read(line) == None
       case Document(line, v) => cd.read(line) == Some(v) && !(v.blobChunk && v.dataLength.Some?)
       case Binary(line, v, data, _) => cd.read(line) == Some(v) && v.blobChunk && v.dataLength == Some(|data|)
  }

  ghost predicate AllOk(cd: Codec, gs: seq<Segment>) {
    forall k :: 0 <= k < |gs| ==> SegmentOk(cd, gs[k])
  }

  function SegmentBytes(g: Segment): Bytes {
    g.line + [NEWLINE] + if g.Binary? then g.data + [g.dropped] else []
  }

  function StreamBytes(gs: seq<Segment>): Bytes {
    if gs == [] then [] else SegmentBytes(gs[0]) + StreamBytes(gs[1..])
  }

  function SegmentItems(g: Segment): seq<Item> {
    match g
    case Document(_, v) => [Doc(v)]
    case Binary(_, v, data, _) => [Chunk(v, data)]
    case _ => []
  }

  function StreamItems(gs: seq<Segment>): seq<Item> {
    if gs == [] then [] else SegmentItems(gs[0]) + StreamItems(gs[1..])
  }

  function StreamFailures(gs: seq<Segment>): nat {
    if gs == [] then 0 else (if gs[0].Broken? then 1 else 0) + StreamFailures(gs[1..])
  }

  /** These items and failures, and then what else there is. */
  function Before(items: seq<Item>, failed: nat, p: Parsed): Parsed {
    Parsed(items + p.items, failed + p.failed, p.complete)
  }

  lemma BlankIsOnlySpaces(line: Bytes)
    ensures AllBlank(line) <==> OnlySpaces(line)
  {
    if OnlySpaces(line) {
      forall k | 0 <= k < |line| ensures IsBlank(line[k]) {
        assert line[k] in line;
      }
    }
  }

  /** What one turn does to the result. */
  lemma ParseTurn(cd: Codec, s: Bytes, p: Parsed)
    requires s != [] && (Next(cd, s).Short? || p == Parse(cd, Next(cd, s).rest))
    ensures Parse(cd, s)
         == match Next(cd, s)
            case Short => Parsed([], 0, false)
            case Skip(_) => Before([], 0, p)
            case Bad(_) => Before([], 1, p)
            case Got(item, _) => Before([item], 0, p)
  {
  }

  lemma NextSegment(cd: Codec, g: Segment, rest: Bytes, s: Bytes)
    requires SegmentOk(cd, g) && s == SegmentBytes(g) + rest
    ensures s != [] && Next(cd, s)
         == match g
            case Blank(_) => Skip(rest)
            case Broken(_) => Bad(rest)
            case Document(_, v) => Got(Doc(v), rest)
            case Binary(_, v, data, _) => Got(Chunk(v, data), rest)
  {
    var after := (if g.Binary? then g.data + [g.dropped] else []) + rest;
    assert s == g.line + [NEWLINE] + after;
    FirstLine(g.line, after);
    BlankIsOnlySpaces(g.line);
    if g.Binary? {
      assert after[..|g.data|] == g.data && after[|g.data| + 1..] == rest;
    } else {
      assert after == rest;
    }
  }

  /** One segment is read as itself, and reading goes on right after it. */
  lemma ParseSegment(cd: Codec, g: Segment, rest: Bytes, s: Bytes)
    requires SegmentOk(cd, g) && s == SegmentBytes(g) + rest
    ensures Parse(cd, s) == Before(SegmentItems(g), if g.Broken? then 1 else 0, Parse(cd, rest))
  {
    NextSegment(cd, g, rest, s);
    ParseTurn(cd, s, Parse(cd, rest));
  }

  lemma StreamHead(gs: seq<Segment>, rest: Bytes)
    requires gs != []
    ensures StreamBytes(gs) + rest == SegmentBytes(gs[0]) + (StreamBytes(gs[1..]) + rest)
  {
  }

  lemma BeforeBefore(a: seq<Item>, m: nat, b: seq<Item>, n: nat, p: Parsed)
    ensures Before(a, m, Before(b, n, p)) == Before(a + b, m + n, p)
  {
    assert a + (b + p.items) == a + b + p.items;
  }

  /** Any sequence of segments, before anything: its items in order and one failure for each broken line. */
  lemma {:induction false} ParseSegments(cd: Codec, gs: seq<Segment>, rest: Bytes, s: Bytes)
    requires AllOk(cd, gs) && s == StreamBytes(gs) + rest
    ensures Parse(cd, s) == Before(StreamItems(gs), StreamFailures(gs), Parse(cd, rest))
  {
    if gs == [] {
      assert s == rest;
    } else {
      var more := StreamBytes(gs[1..]) + rest;
      StreamHead(gs, rest);
      ParseSegments(cd, gs[1..], rest, more);
      ParseSegment(cd, gs[0], more, s);
      BeforeBefore(SegmentItems(gs[0]), if gs[0].Broken? then 1 else 0,
                   StreamItems(gs[1..]), StreamFailures(gs[1..]), Parse(cd, rest));
    }
  }

  /** What the end of a stream can be: nothing, a line without its newline, or a chunk without the byte after it. */
  datatype Ending = Nothing | Unterminated(g: Segment) | Cut(line: Bytes, value: Value, data: Bytes)

  ghost predicate EndingOk(cd: Codec, e: Ending) {
    match e
    case Nothing => true
    case Unterminated(g) => SegmentOk(cd, g) && (g.Binary? || g.line != [])
    case Cut(line, v, data) =>
      && NEWLINE !in line && !OnlySpaces(line) && cd.read(line) == Some(v)
      && v.blobChunk && v.dataLength.Some? && |data| < v.dataLength.value
  }

  /** A line or chunk that ends the stream lacks its last byte; a chunk may lack its line end when it has no bytes. */
  ghost predicate EndsWith(e: Ending, s: Bytes) {
    match e
    case Nothing => s == []
    case Unterminated(g) =>
      if g.Binary? then s == g.line + [NEWLINE] + g.data || (g.data == [] && s == g.line) else s == g.line
    case Cut(line, _, data) => s == line + [NEWLINE] + data || (data == [] && s == line)
  }

  lemma LastLine(line: Bytes)
    requires NEWLINE !in line
    ensures line[..LineEnd(line)] == line && AfterLine(line) == []
  {
    assert forall k :: 0 <= k < |line| ==> line[k] in line;
  }

  /** The last line of a stream, with or without its newline, and what is left of a chunk's data. */
  lemma NextEnding(cd: Codec, line: Bytes, data: Bytes, s: Bytes)
    requires NEWLINE !in line && line != [] && (s == line + [NEWLINE] + data || (data == [] && s == line))
    ensures s[..LineEnd(s)] == line && AfterLine(s) == data
  {
    if s == line {
      LastLine(line);
    } else {
      FirstLine(line, data);
    }
  }

  lemma ParseEnding(cd: Codec, e: Ending, s: Bytes)
    requires EndingOk(cd, e) && EndsWith(e, s)
    ensures Parse(cd, s)
         == match e
            case Nothing => Parsed([], 0, true)
            case Unterminated(g) => Parsed(SegmentItems(g), if g.Broken? then 1 else 0, true)
            case Cut(_, _, _) => Parsed([], 0, false)
  {
    var none := Parsed([], 0, true);
    assert Parse(cd, []) == none;
    match e
    case Nothing =>
    case Unterminated(g) =>
      NextEnding(cd, g.line, if g.Binary? then g.data else [], s);
      BlankIsOnlySpaces(g.line);
      assert g.Binary? ==> g.data[..|g.data|] == g.data;
      ParseTurn(cd, s, none);
    case Cut(line, v, data) =>
      NextEnding(cd, line, data, s);
      BlankIsOnlySpaces(line);
      ParseTurn(cd, s, none);
  }

  /** The line a segment starts with, and what the stream holds after it. */
  lemma SplitLine(s: Bytes) returns (line: Bytes, after: Bytes)
    requires s != []
    ensures NEWLINE !in line && line == s[..LineEnd(s)] && after == AfterLine(s)
    ensures if LineEnd(s) == |s| then s == line && after == [] else s == line + [NEWLINE] + after
  {
    line, after := s[..LineEnd(s)], AfterLine(s);
  }

  lemma SplitChunk(cd: Codec, s: Bytes, line: Bytes, after: Bytes, v: Value)
    returns (ending: bool, g: Segment, e: Ending, rest: Bytes)
    requires NEWLINE !in line && !OnlySpaces(line) && cd.read(line) == Some(v) && v.blobChunk && v.dataLength.Some?
    requires s == line + [NEWLINE] + after || (after == [] && s == line)
    ensures if ending then EndingOk(cd, e) && EndsWith(e, s)
            else SegmentOk(cd, g) && s == SegmentBytes(g) + rest && |rest| < |s|
  {
    var len := v.dataLength.value;
    ending, g, e, rest := |after| <= len, Blank([]), Cut(line, v, after), [];
    if |after| >= len {
      var data := after[..len];
      g := Binary(line, v, data, if |after| > len then after[len] else NEWLINE);
      e := Unterminated(g);
      rest := if |after| > len then after[len + 1..] else [];
      assert |after| == len ==> data == after;
      assert |after| > len ==> after == data + [g.dropped] + rest;
    }
  }

  /** The first segment of a stream, or its ending. */
  lemma SplitSegment(cd: Codec, s: Bytes) returns (ending: bool, g: Segment, e: Ending, rest: Bytes)
    requires s != []
    ensures if ending then EndingOk(cd, e) && EndsWith(e, s)
            else SegmentOk(cd, g) && s == SegmentBytes(g) + rest && |rest| < |s|
  {
    var line, after := SplitLine(s);
    var v := cd.read(line);
    if !OnlySpaces(line) && v.Some? && HasData(v.value) {
      ending, g, e, rest := SplitChunk(cd, s, line, after, v.value);
    } else {
      g := if OnlySpaces(line) then Blank(line) else if v.None? then Broken(line) else Document(line, v.value);
      ending, e, rest := s == line, Unterminated(g), after;
    }
  }

  lemma StreamMore(g: Segment, gs: seq<Segment>, tail: Bytes, rest: Bytes, s: Bytes)
    requires rest == StreamBytes(gs) + tail && s == SegmentBytes(g) + rest
    ensures s == StreamBytes([g] + gs) + tail
  {
    assert ([g] + gs)[1..] == gs;
  }

  /** Every stream is a sequence of segments and an ending, so the above says what is read from any stream. */
  lemma {:induction false} EveryStream(cd: Codec, s: Bytes) returns (gs: seq<Segment>, e: Ending, tail: Bytes)
    ensures AllOk(cd, gs) && EndingOk(cd, e) && EndsWith(e, tail) && s == StreamBytes(gs) + tail
    decreases |s|
  {
    gs, e, tail := [], Nothing, s;
    if s != [] {
      var ending, g, e0, rest := SplitSegment(cd, s);
      if ending {
        e := e0;
      } else {
        var more;
        more, e, tail := EveryStream(cd, rest);
        gs := [g] + more;
        StreamMore(g, more, tail, rest, s);
      }
    }
  }

  /** An item as this program writes it is such a segment, so payloads mixed with other lines read back. */
  lemma WrittenItem(cd: Codec, item: Item) returns (g: Segment)
    requires Faithful(cd) && Framed(item)
    ensures SegmentOk(cd, g) && SegmentBytes(g) == ItemBytes(cd, item) && SegmentItems(g) == [item]
  {
    var line := cd.write(item.value);
    BlankIsOnlySpaces(line);
    match item {
      case Doc(v) => g := Document(line, v);
      case Chunk(v, data) => g := Binary(line, v, data, NEWLINE);
    }
    assert cd.read(cd.write(item.value)) == Some(item.value);
  }
}
