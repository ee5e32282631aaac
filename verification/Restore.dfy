/**
 Restoring a dump (src/bin/solidb-restore.rs): a stream of JSON lines and raw binary chunks is
 cut into items, and the items are sent in batches, one target collection per batch. The
 functions say what is read and how it is batched; `RestoreLoop` has the code that updates buffers
 in place.
 */
module Restore {
  import opened Wrappers

  type Byte = b: int | 0 <= b < 256
  type Bytes = seq<Byte>

  const NEWLINE: Byte := 10

  predicate IsBlank(b: Byte) {
    b == 32 || b == 9 || b == 10 || b == 12 || b == 13
  }

  predicate AllBlank(s: Bytes) {
    forall k :: 0 <= k < |s| ==> IsBlank(s[k])
  }

  /** The fields of a JSON document that the restore looks at, and the rest of it. */
  datatype Value = Value(
    database: Option<string>,
    collection: Option<string>,
    blobChunk: bool,
    dataLength: Option<nat>,
    rest: string)

  /** The JSON library: parsing a line, and printing on one line. */
  datatype Codec = Codec(read: Bytes -> Option<Value>, write: Value -> Bytes)

  /** Printing stays on one line that is not blank, and parsing reads it back. */
  ghost predicate Faithful(cd: Codec) {
    forall v :: cd.read(cd.write(v)) == Some(v) && NEWLINE !in cd.write(v) && !AllBlank(cd.write(v))
  }

  datatype Item = Doc(value: Value) | Chunk(value: Value, data: Bytes)

  predicate HasData(v: Value) {
    v.blobChunk && v.dataLength.Some?
  }

  /** What the reading loop produces: chunks carry as many bytes as their header says. */
  predicate Framed(item: Item) {
    match item
    case Doc(v) => !HasData(v)
    case Chunk(v, data) => v.blobChunk && v.dataLength == Some(|data|)
  }

  // ---------------------------------------------------------------------------
  // Reading
  // ---------------------------------------------------------------------------

  /** Where the first line ends. */
  function LineEnd(s: Bytes): (n: nat)
    ensures n <= |s| && NEWLINE !in s[..n] && (n < |s| ==> s[n] == NEWLINE)
  {
    if s == [] || s[0] == NEWLINE then 0
    else
      var n := LineEnd(s[1..]);
      assert s[..n + 1] == [s[0]] + s[1..][..n];
      n + 1
  }

  /** What follows the first line. */
  function AfterLine(s: Bytes): (rest: Bytes)
    ensures s != [] ==> |rest| < |s|
  {
    if LineEnd(s) == |s| then [] else s[LineEnd(s) + 1..]
  }

  /** Raw data is followed by one byte that is dropped, if there is one. */
  function AfterData(rest: Bytes, n: nat): Bytes
    requires n <= |rest|
  {
    if n == |rest| then [] else rest[n + 1..]
  }

  /** One turn of the loop: nothing, a line that does not parse, an item, or a chunk cut short. */
  datatype Turn = Skip(rest: Bytes) | Bad(rest: Bytes) | Got(item: Item, rest: Bytes) | Short

  function Next(cd: Codec, s: Bytes): (t: Turn)
    requires s != []
    ensures !t.Short? ==> |t.rest| < |s|
    ensures t.Got? ==> Framed(t.item)
  {
    var line := s[..LineEnd(s)];
    var rest := AfterLine(s);
    if AllBlank(line) then Skip(rest)
    else
      match cd.read(line)
      case None => Bad(rest)
      case Some(v) =>
        if !HasData(v) then Got(Doc(v), rest)
        else if |rest| < v.dataLength.value then Short
        else Got(Chunk(v, rest[..v.dataLength.value]), AfterData(rest, v.dataLength.value))
  }

  datatype Parsed = Parsed(items: seq<Item>, failed: nat, complete: bool)

  /** The items of a whole stream, in order. */
  function Parse(cd: Codec, s: Bytes): Parsed
    decreases |s|
  {
    if s == [] then Parsed([], 0, true)
    else
      match Next(cd, s)
      case Short => Parsed([], 0, false)
      case Skip(rest) => Parse(cd, rest)
      case Bad(rest) => var p := Parse(cd, rest); p.(failed := p.failed + 1)
      case Got(item, rest) => var p := Parse(cd, rest); p.(items := [item] + p.items)
  }

  // ---------------------------------------------------------------------------
  // Writing
  // ---------------------------------------------------------------------------

  function Pieces(cd: Codec, item: Item): seq<Bytes> {
    match item
    case Doc(v) => [cd.write(v)]
    case Chunk(v, data) => [cd.write(v), data]
  }

  function AllPieces(cd: Codec, items: seq<Item>): seq<Bytes> {
    if items == [] then [] else AllPieces(cd, items[..|items| - 1]) + Pieces(cd, items[|items| - 1])
  }

  /** The payload of a batch: every piece followed by a newline. */
  function Lines(pieces: seq<Bytes>): Bytes {
    if pieces == [] then [] else Lines(pieces[..|pieces| - 1]) + pieces[|pieces| - 1] + [NEWLINE]
  }

  function Total(pieces: seq<Bytes>): nat {
    if pieces == [] then 0 else Total(pieces[..|pieces| - 1]) + |pieces[|pieces| - 1]|
  }

  lemma BytesAssociate(a: Bytes, b: Bytes, c: Bytes, d: Bytes)
    ensures a + b + c + d == a + (b + c + d)
  {
  }

  lemma {:induction false} LinesJoin(a: seq<Bytes>, b: seq<Bytes>)
    ensures Lines(a + b) == Lines(a) + Lines(b)
  {
    if b == [] {
      assert a + b == a;
    } else {
      var front, last := b[..|b| - 1], b[|b| - 1];
      LinesJoin(a, front);
      assert (a + b)[..|a + b| - 1] == a + front;
      BytesAssociate(Lines(a), Lines(front), last, [NEWLINE]);
    }
  }

  lemma PiecesAssociate(a: seq<Bytes>, b: seq<Bytes>, c: seq<Bytes>)
    ensures a + b + c == a + (b + c)
  {
  }

  lemma {:induction false} AllPiecesJoin(cd: Codec, a: seq<Item>, b: seq<Item>)
    ensures AllPieces(cd, a + b) == AllPieces(cd, a) + AllPieces(cd, b)
  {
    if b == [] {
      assert a + b == a;
    } else {
      var front := b[..|b| - 1];
      AllPiecesJoin(cd, a, front);
      assert (a + b)[..|a + b| - 1] == a + front;
      PiecesAssociate(AllPieces(cd, a), AllPieces(cd, front), Pieces(cd, b[|b| - 1]));
    }
  }

  lemma LineEndFound(line: Bytes, rest: Bytes)
    requires NEWLINE !in line
    ensures LineEnd(line + [NEWLINE] + rest) == |line|
  {
    var s := line + [NEWLINE] + rest;
    assert s[..|line|] == line && s[|line|] == NEWLINE;
  }

  lemma FirstLine(line: Bytes, rest: Bytes)
    requires NEWLINE !in line
    ensures var s := line + [NEWLINE] + rest; s[..LineEnd(s)] == line && AfterLine(s) == rest
  {
    LineEndFound(line, rest);
  }

  /** The bytes of one item, as they stand in a payload. */
  function ItemBytes(cd: Codec, item: Item): Bytes {
    match item
    case Doc(v) => cd.write(v) + [NEWLINE]
    case Chunk(v, data) => cd.write(v) + [NEWLINE] + (data + [NEWLINE])
  }

  lemma ItemLines(cd: Codec, item: Item)
    ensures Lines(Pieces(cd, item)) == ItemBytes(cd, item)
  {
    var first := cd.write(item.value);
    var one: seq<Bytes> := [first];
    assert one[..0] == [];
    assert Lines(one) == first + [NEWLINE];
    if item.Chunk? {
      assert Pieces(cd, item)[..1] == one;
    }
  }

  /** Reading an item's bytes gives the item back, whatever bytes its data contains. */
  lemma NextItem(cd: Codec, item: Item, rest: Bytes)
    requires Faithful(cd) && Framed(item)
    ensures ItemBytes(cd, item) + rest != []
    ensures Next(cd, ItemBytes(cd, item) + rest) == Got(item, rest)
  {
    var line := cd.write(item.value);
    match item
    case Doc(v) =>
      FirstLine(line, rest);
    case Chunk(v, data) =>
      var tail := data + [NEWLINE] + rest;
      assert ItemBytes(cd, item) + rest == line + [NEWLINE] + tail;
      FirstLine(line, tail);
      assert tail[..|data|] == data && tail[|data| + 1..] == rest;
  }

  lemma PayloadHead(cd: Codec, items: seq<Item>)
    requires items != []
    ensures Lines(AllPieces(cd, items)) == ItemBytes(cd, items[0]) + Lines(AllPieces(cd, items[1..]))
  {
    var one := [items[0]];
    assert items == one + items[1..];
    AllPiecesJoin(cd, one, items[1..]);
    assert one[..0] == [];
    assert AllPieces(cd, one) == Pieces(cd, items[0]);
    LinesJoin(Pieces(cd, items[0]), AllPieces(cd, items[1..]));
    ItemLines(cd, items[0]);
  }

  lemma ParseGot(cd: Codec, s: Bytes, item: Item, rest: Bytes, items: seq<Item>)
    requires s != [] && Next(cd, s) == Got(item, rest) && Parse(cd, rest) == Parsed(items, 0, true)
    ensures Parse(cd, s) == Parsed([item] + items, 0, true)
  {
  }

  /** Re-reading a payload gives exactly the items it was made from. */
  lemma {:induction false} ParseLines(cd: Codec, items: seq<Item>)
    requires Faithful(cd) && forall k :: 0 <= k < |items| ==> Framed(items[k])
    ensures Parse(cd, Lines(AllPieces(cd, items))) == Parsed(items, 0, true)
  {
    if items != [] {
      var rest := Lines(AllPieces(cd, items[1..]));
      PayloadHead(cd, items);
      NextItem(cd, items[0], rest);
      ParseLines(cd, items[1..]);
      ParseGot(cd, ItemBytes(cd, items[0]) + rest, items[0], rest, items[1..]);
      assert items == [items[0]] + items[1..];
    }
  }

  lemma {:induction false} ParsedAreFramed(cd: Codec, s: Bytes, item: Item)
    requires item in Parse(cd, s).items
    ensures Framed(item)
    decreases |s|
  {
    var t := Next(cd, s);
    if !(t.Got? && t.item == item) {
      ParsedAreFramed(cd, t.rest, item);
    }
  }

  // ---------------------------------------------------------------------------
  // Batching
  // ---------------------------------------------------------------------------

  datatype Target = Target(database: string, collection: string)

  /** The command line: default target names and the two batch limits. */
  datatype Config = Config(database: Option<string>, collection: Option<string>, maxCount: nat, maxSize: nat)

  datatype Flush = Flush(target: Target, items: seq<Item>)

  datatype Batcher = Batcher(
    pending: seq<Item>,
    meta: Option<Target>,
    flushes: seq<Flush>,
    initialized: set<string>,
    created: seq<Target>)

  const EMPTY := Batcher([], None, [], {}, [])

  function TargetOf(cfg: Config, item: Item): Option<Target> {
    var db := if item.value.database.Some? then item.value.database else cfg.database;
    var coll := if item.value.collection.Some? then item.value.collection else cfg.collection;
    if db.Some? && coll.Some? then Some(Target(db.value, coll.value)) else None
  }

  /** A name given in the document, or else on the command line. */
  predicate Chosen(own: Option<string>, fallback: Option<string>, name: string) {
    own == Some(name) || (own == None && fallback == Some(name))
  }

  /** An item goes where its own names say, the command line filling in for those it lacks. */
  lemma TargetIsChosen(cfg: Config, item: Item, t: Target)
    ensures TargetOf(cfg, item) == Some(t)
       <==> Chosen(item.value.database, cfg.database, t.database)
            && Chosen(item.value.collection, cfg.collection, t.collection)
  {
  }

  /** The name under which a collection is remembered as created. */
  function Key(t: Target): string {
    t.database + "/" + t.collection
  }

  predicate Full(cfg: Config, cd: Codec, items: seq<Item>) {
    |AllPieces(cd, items)| >= cfg.maxCount || Total(AllPieces(cd, items)) >= cfg.maxSize
  }

  function Created(b: Batcher, t: Target): Batcher {
    if Key(t) in b.initialized then b
    else b.(initialized := b.initialized + {Key(t)}, created := b.created + [t])
  }

  function Flushed(b: Batcher, t: Target): Batcher {
    if b.pending == [] then b
    else b.(pending := [], flushes := b.flushes + [Flush(t, b.pending)])
  }

  /** A batch for another collection is sent before the new item's collection is taken up. */
  function Retargeted(b: Batcher, t: Target): Batcher {
    (if b.meta.Some? && b.meta.value != t then Flushed(b, b.meta.value) else b).(meta := Some(t))
  }

  function Grown(b: Batcher, item: Item): Batcher {
    b.(pending := b.pending + [item])
  }

  /** A full batch is sent at once. */
  function Settled(cfg: Config, cd: Codec, b: Batcher, t: Target): Batcher {
    if Full(cfg, cd, b.pending) then Flushed(b, t) else b
  }

  function Added(cfg: Config, cd: Codec, b: Batcher, item: Item, t: Target): Batcher {
    Settled(cfg, cd, Grown(Retargeted(Created(b, t), t), item), t)
  }

  /** After the stream is exhausted. */
  function Finished(b: Batcher): Batcher {
    if b.pending != [] && b.meta.Some? then Flushed(b, b.meta.value) else b
  }

  /** All items in order, up to the first that has no target. */
  function AddAll(cfg: Config, cd: Codec, items: seq<Item>): Option<Batcher> {
    if items == [] then Some(EMPTY)
    else
      match AddAll(cfg, cd, items[..|items| - 1])
      case None => None
      case Some(b) =>
        match TargetOf(cfg, items[|items| - 1])
        case None => None
        case Some(t) => Some(Added(cfg, cd, b, items[|items| - 1], t))
  }

  lemma AddAllStep(cfg: Config, cd: Codec, front: seq<Item>, last: Item, items: seq<Item>)
    requires items != [] && front == items[..|items| - 1] && last == items[|items| - 1]
    requires AddAll(cfg, cd, items).Some?
    ensures AddAll(cfg, cd, front).Some? && TargetOf(cfg, last).Some?
    ensures AddAll(cfg, cd, items)
         == Some(Added(cfg, cd, AddAll(cfg, cd, front).value, last, TargetOf(cfg, last).value))
  {
  }

  // ---------------------------------------------------------------------------
  // What the batches carry
  // ---------------------------------------------------------------------------

  function FlushedItems(flushes: seq<Flush>): seq<Item> {
    if flushes == [] then []
    else FlushedItems(flushes[..|flushes| - 1]) + flushes[|flushes| - 1].items
  }

  /** Everything taken in so far, in the order it will be sent. */
  function Carried(b: Batcher): seq<Item> {
    FlushedItems(b.flushes) + b.pending
  }

  ghost predicate SameTarget(cfg: Config, items: seq<Item>, t: Target) {
    forall item :: item in items ==> TargetOf(cfg, item) == Some(t)
  }

  /** Fewer pieces than the one limit and fewer bytes than the other. */
  predicate BelowLimits(cfg: Config, cd: Codec, items: seq<Item>) {
    |AllPieces(cd, items)| < cfg.maxCount && Total(AllPieces(cd, items)) < cfg.maxSize
  }

  /** A batch is sent no later than the item that fills it. */
  ghost predicate FlushOk(cfg: Config, cd: Codec, f: Flush) {
    && f.items != [] && SameTarget(cfg, f.items, f.target)
    && (|f.items| > 1 ==> BelowLimits(cfg, cd, f.items[..|f.items| - 1]))
  }

  /** The batch in the making: one target, and not full. */
  ghost predicate PendingOk(cfg: Config, cd: Codec, b: Batcher) {
    && (b.pending != [] ==> b.meta.Some? && BelowLimits(cfg, cd, b.pending))
    && (b.meta.Some? ==> SameTarget(cfg, b.pending, b.meta.value))
  }

  ghost predicate BatchesOk(cfg: Config, cd: Codec, b: Batcher) {
    && PendingOk(cfg, cd, b)
    && (forall f :: f in b.flushes ==> FlushOk(cfg, cd, f))
  }

  lemma FlushedCarries(b: Batcher, t: Target)
    ensures Carried(Flushed(b, t)) == Carried(b)
  {
    if b.pending != [] {
      var all := b.flushes + [Flush(t, b.pending)];
      assert all[..|all| - 1] == b.flushes;
      assert FlushedItems(b.flushes) + b.pending + [] == FlushedItems(b.flushes) + b.pending;
    }
  }

  lemma AddedCarries(cfg: Config, cd: Codec, b: Batcher, item: Item, t: Target)
    ensures Carried(Added(cfg, cd, b, item, t)) == Carried(b) + [item]
  {
    var b1 := Created(b, t);
    if b1.meta.Some? && b1.meta.value != t {
      FlushedCarries(b1, b1.meta.value);
    }
    var b2 := Retargeted(b1, t);
    var grown := Grown(b2, item);
    assert Carried(grown) == Carried(b2) + [item];
    FlushedCarries(grown, t);
  }

  lemma FlushedOk(cfg: Config, cd: Codec, b: Batcher, t: Target)
    requires forall f :: f in b.flushes ==> FlushOk(cfg, cd, f)
    requires b.pending != [] ==> FlushOk(cfg, cd, Flush(t, b.pending))
    ensures Flushed(b, t).pending == [] && forall f :: f in Flushed(b, t).flushes ==> FlushOk(cfg, cd, f)
  {
  }

  lemma PendingCanGo(cfg: Config, cd: Codec, pending: seq<Item>, t: Target)
    requires pending != [] && SameTarget(cfg, pending, t) && !Full(cfg, cd, pending)
    ensures FlushOk(cfg, cd, Flush(t, pending))
  {
    if |pending| > 1 {
      var front := pending[..|pending| - 1];
      assert AllPieces(cd, pending) == AllPieces(cd, front) + Pieces(cd, pending[|pending| - 1]);
      TotalGrows(AllPieces(cd, front), Pieces(cd, pending[|pending| - 1]));
    }
  }

  lemma {:induction false} TotalGrows(a: seq<Bytes>, b: seq<Bytes>)
    ensures Total(a + b) >= Total(a)
  {
    if b == [] {
      assert a + b == a;
    } else {
      TotalGrows(a, b[..|b| - 1]);
      assert (a + b)[..|a + b| - 1] == a + b[..|b| - 1];
    }
  }

  lemma RetargetedOk(cfg: Config, cd: Codec, b: Batcher, t: Target)
    requires BatchesOk(cfg, cd, b)
    ensures BatchesOk(cfg, cd, Retargeted(b, t))
  {
    if b.meta.Some? && b.meta.value != t {
      if b.pending != [] {
        PendingCanGo(cfg, cd, b.pending, b.meta.value);
      }
      FlushedOk(cfg, cd, b, b.meta.value);
    }
  }

  /** A batch whose last item was just added. */
  lemma SettledOk(cfg: Config, cd: Codec, b: Batcher, t: Target)
    requires b.meta == Some(t) && b.pending != [] && SameTarget(cfg, b.pending, t)
    requires |b.pending| > 1 ==> BelowLimits(cfg, cd, b.pending[..|b.pending| - 1])
    requires forall f :: f in b.flushes ==> FlushOk(cfg, cd, f)
    ensures BatchesOk(cfg, cd, Settled(cfg, cd, b, t))
  {
    assert Full(cfg, cd, b.pending) <==> !BelowLimits(cfg, cd, b.pending);
    if Full(cfg, cd, b.pending) {
      FlushedOk(cfg, cd, b, t);
    }
  }

  lemma AddedOk(cfg: Config, cd: Codec, b: Batcher, item: Item, t: Target)
    requires BatchesOk(cfg, cd, b) && TargetOf(cfg, item) == Some(t)
    ensures BatchesOk(cfg, cd, Added(cfg, cd, b, item, t))
  {
    var b' := Retargeted(Created(b, t), t);
    RetargetedOk(cfg, cd, Created(b, t), t);
    var grown := Grown(b', item);
    assert grown.pending[..|grown.pending| - 1] == b'.pending;
    SettledOk(cfg, cd, grown, t);
  }

  lemma {:induction false} AddAllOk(cfg: Config, cd: Codec, items: seq<Item>)
    requires AddAll(cfg, cd, items).Some?
    ensures BatchesOk(cfg, cd, AddAll(cfg, cd, items).value)
  {
    if items != [] {
      var front, last := items[..|items| - 1], items[|items| - 1];
      AddAllStep(cfg, cd, front, last, items);
      var b, t := AddAll(cfg, cd, front).value, TargetOf(cfg, last).value;
      AddAllOk(cfg, cd, front);
      AddedOk(cfg, cd, b, last, t);
    }
  }

  lemma LastApart(items: seq<Item>)
    requires items != []
    ensures items[..|items| - 1] + [items[|items| - 1]] == items
  {
  }

  lemma {:induction false} AddAllCarries(cfg: Config, cd: Codec, items: seq<Item>)
    requires AddAll(cfg, cd, items).Some?
    ensures Carried(AddAll(cfg, cd, items).value) == items
  {
    if items != [] {
      var front, last := items[..|items| - 1], items[|items| - 1];
      AddAllStep(cfg, cd, front, last, items);
      AddAllCarries(cfg, cd, front);
      AddedCarries(cfg, cd, AddAll(cfg, cd, front).value, last, TargetOf(cfg, last).value);
      LastApart(items);
    }
  }

  /**
   Between items the pending batch has one target and is below both limits; after the final
   flush nothing is pending, every batch holds items of its own target only, and the batches
   together hold every item once, in stream order.
   */
  lemma {:induction false} EveryItemOnce(cfg: Config, cd: Codec, items: seq<Item>)
    requires AddAll(cfg, cd, items).Some?
    ensures PendingOk(cfg, cd, AddAll(cfg, cd, items).value)
    ensures var done := Finished(AddAll(cfg, cd, items).value);
      && done.pending == [] && FlushedItems(done.flushes) == items
      && (forall f :: f in done.flushes ==> FlushOk(cfg, cd, f))
  {
    AddAllOk(cfg, cd, items);
    AddAllCarries(cfg, cd, items);
    var b := AddAll(cfg, cd, items).value;
    if b.pending != [] {
      PendingCanGo(cfg, cd, b.pending, b.meta.value);
      FlushedOk(cfg, cd, b, b.meta.value);
      FlushedCarries(b, b.meta.value);
    }
    assert FlushedItems(Finished(b).flushes) + [] == FlushedItems(Finished(b).flushes);
  }

  /** The stream's items for one target. */
  function ItemsFor(cfg: Config, items: seq<Item>, t: Target): seq<Item> {
    if items == [] then []
    else
      ItemsFor(cfg, items[..|items| - 1], t)
      + if TargetOf(cfg, items[|items| - 1]) == Some(t) then [items[|items| - 1]] else []
  }

  /** The items in the batches sent to one target. */
  function SentTo(flushes: seq<Flush>, t: Target): seq<Item> {
    if flushes == [] then []
    else
      SentTo(flushes[..|flushes| - 1], t)
      + if flushes[|flushes| - 1].target == t then flushes[|flushes| - 1].items else []
  }

  lemma {:induction false} ItemsForJoin(cfg: Config, a: seq<Item>, b: seq<Item>, t: Target)
    ensures ItemsFor(cfg, a + b, t) == ItemsFor(cfg, a, t) + ItemsFor(cfg, b, t)
  {
    if b == [] {
      assert a + b == a;
    } else {
      ItemsForJoin(cfg, a, b[..|b| - 1], t);
      assert (a + b)[..|a + b| - 1] == a + b[..|b| - 1];
    }
  }

  lemma {:induction false} ItemsForSame(cfg: Config, items: seq<Item>, u: Target, t: Target)
    requires SameTarget(cfg, items, u)
    ensures ItemsFor(cfg, items, t) == if u == t then items else []
  {
    if items != [] {
      var front, last := items[..|items| - 1], items[|items| - 1];
      assert last in items;
      ItemsForSame(cfg, front, u, t);
      assert front + [last] == items;
    }
  }

  lemma {:induction false} SentToIsItemsFor(cfg: Config, cd: Codec, flushes: seq<Flush>, t: Target)
    requires forall f :: f in flushes ==> FlushOk(cfg, cd, f)
    ensures SentTo(flushes, t) == ItemsFor(cfg, FlushedItems(flushes), t)
  {
    if flushes != [] {
      var front, last := flushes[..|flushes| - 1], flushes[|flushes| - 1];
      assert last in flushes;
      SentToIsItemsFor(cfg, cd, front, t);
      ItemsForJoin(cfg, FlushedItems(front), last.items, t);
      ItemsForSame(cfg, last.items, last.target, t);
    }
  }

  /** Every target receives its own items, each once and in stream order. */
  lemma {:induction false} EachTargetInOrder(cfg: Config, cd: Codec, items: seq<Item>, t: Target)
    requires AddAll(cfg, cd, items).Some?
    ensures SentTo(Finished(AddAll(cfg, cd, items).value).flushes, t) == ItemsFor(cfg, items, t)
  {
    EveryItemOnce(cfg, cd, items);
    SentToIsItemsFor(cfg, cd, Finished(AddAll(cfg, cd, items).value).flushes, t);
  }

  lemma {:induction false} FlushedItemKnown(flushes: seq<Flush>, f: Flush, item: Item)
    requires f in flushes && item in f.items
    ensures item in FlushedItems(flushes)
  {
    if flushes[|flushes| - 1] != f {
      FlushedItemKnown(flushes[..|flushes| - 1], f, item);
    }
  }

  /** Reading the payload of any batch with the same loop gives back exactly the items put in it. */
  lemma {:induction false} PayloadReadsBack(cfg: Config, cd: Codec, s: Bytes, f: Flush)
    requires Faithful(cd) && AddAll(cfg, cd, Parse(cd, s).items).Some?
    requires f in Finished(AddAll(cfg, cd, Parse(cd, s).items).value).flushes
    ensures Parse(cd, Lines(AllPieces(cd, f.items))) == Parsed(f.items, 0, true)
  {
    var items := Parse(cd, s).items;
    EveryItemOnce(cfg, cd, items);
    forall k | 0 <= k < |f.items| ensures Framed(f.items[k]) {
      FlushedItemKnown(Finished(AddAll(cfg, cd, items).value).flushes, f, f.items[k]);
      ParsedAreFramed(cd, s, f.items[k]);
    }
    ParseLines(cd, f.items);
  }

  // ---------------------------------------------------------------------------
  // No batch is sent early, whatever counts as full
  // ---------------------------------------------------------------------------

  type Fullness = seq<Item> -> bool

  ghost predicate MeansFull(full: Fullness, cfg: Config, cd: Codec) {
    forall batch :: full(batch) == Full(cfg, cd, batch)
  }

  predicate Handover(full: Fullness, f: Flush, next: Option<Target>) {
    next == Some(f.target) ==> full(f.items)
  }

  ghost predicate Greedy(full: Fullness, flushes: seq<Flush>) {
    forall i :: 0 <= i < |flushes| - 1 ==> Handover(full, flushes[i], Some(flushes[i + 1].target))
  }

  /** The last batch sent was full or had another target than the one in the making. */
  ghost predicate GreedySoFar(full: Fullness, b: Batcher) {
    && Greedy(full, b.flushes)
    && (b.pending != [] ==> b.meta.Some?)
    && (b.flushes != [] ==>
          var last := b.flushes[|b.flushes| - 1];
          && Handover(full, last, b.meta)
          && (b.pending == [] ==> b.meta == Some(last.target)))
  }

  lemma GreedyAppend(full: Fullness, flushes: seq<Flush>, f: Flush)
    requires Greedy(full, flushes)
    requires flushes != [] ==> Handover(full, flushes[|flushes| - 1], Some(f.target))
    ensures Greedy(full, flushes + [f])
  {
  }

  lemma RetargetedGreedy(full: Fullness, b: Batcher, t: Target)
    requires GreedySoFar(full, b)
    ensures var b' := Retargeted(b, t);
      && Greedy(full, b'.flushes)
      && (b'.flushes != [] ==> Handover(full, b'.flushes[|b'.flushes| - 1], Some(t)))
  {
    if b.meta.Some? && b.meta.value != t && b.pending != [] {
      GreedyAppend(full, b.flushes, Flush(b.meta.value, b.pending));
    }
  }

  lemma GrownGreedy(full: Fullness, b: Batcher, item: Item, t: Target)
    requires Greedy(full, b.flushes) && b.meta == Some(t)
    requires b.flushes != [] ==> Handover(full, b.flushes[|b.flushes| - 1], Some(t))
    ensures GreedySoFar(full, if full(b.pending + [item]) then Flushed(Grown(b, item), t) else Grown(b, item))
  {
    if full(b.pending + [item]) {
      GreedyAppend(full, b.flushes, Flush(t, b.pending + [item]));
    }
  }

  lemma AddedGreedy(cfg: Config, cd: Codec, full: Fullness, b: Batcher, item: Item, t: Target)
    requires GreedySoFar(full, b) && MeansFull(full, cfg, cd)
    ensures GreedySoFar(full, Added(cfg, cd, b, item, t))
  {
    var b' := Retargeted(Created(b, t), t);
    RetargetedGreedy(full, Created(b, t), t);
    GrownGreedy(full, b', item, t);
    assert full(b'.pending + [item]) == Full(cfg, cd, Grown(b', item).pending);
  }

  lemma {:induction false} AddAllGreedy(cfg: Config, cd: Codec, full: Fullness, items: seq<Item>)
    requires AddAll(cfg, cd, items).Some? && MeansFull(full, cfg, cd)
    ensures GreedySoFar(full, AddAll(cfg, cd, items).value)
  {
    if items != [] {
      var front, last := items[..|items| - 1], items[|items| - 1];
      AddAllStep(cfg, cd, front, last, items);
      var b, t := AddAll(cfg, cd, front).value, TargetOf(cfg, last).value;
      AddAllGreedy(cfg, cd, full, front);
      AddedGreedy(cfg, cd, full, b, last, t);
    }
  }

  lemma FinishedGreedy(full: Fullness, b: Batcher)
    requires GreedySoFar(full, b)
    ensures Greedy(full, Finished(b).flushes)
  {
    if b.pending != [] {
      GreedyAppend(full, b.flushes, Flush(b.meta.value, b.pending));
    }
  }

  /** Two batches in a row for the same target mean the first one was full. */
  lemma {:induction false} NoEarlyFlush(cfg: Config, cd: Codec, items: seq<Item>, i: nat)
    requires AddAll(cfg, cd, items).Some? && i + 1 < |Finished(AddAll(cfg, cd, items).value).flushes|
    ensures var flushes := Finished(AddAll(cfg, cd, items).value).flushes;
      flushes[i].target == flushes[i + 1].target ==> !BelowLimits(cfg, cd, flushes[i].items)
  {
    var full := (batch: seq<Item>) => Full(cfg, cd, batch);
    AddAllGreedy(cfg, cd, full, items);
    FinishedGreedy(full, AddAll(cfg, cd, items).value);
    var flushes := Finished(AddAll(cfg, cd, items).value).flushes;
    assert Handover(full, flushes[i], Some(flushes[i + 1].target));
  }

  // ---------------------------------------------------------------------------
  // Creating collections
  // ---------------------------------------------------------------------------

  predicate SlashFree(s: string) {
    '/' !in s
  }

  lemma {:induction false} SplitAtSlash(a: string, b: string, c: string, d: string)
    requires SlashFree(a) && SlashFree(c) && a + "/" + b == c + "/" + d
    ensures a == c && b == d
  {
    if a == [] || c == [] {
      assert (a + "/" + b)[0] == (c + "/" + d)[0];
      assert a == c == [];
      assert b == (a + "/" + b)[1..] == (c + "/" + d)[1..] == d;
    } else {
      assert (a + "/" + b)[0] == (c + "/" + d)[0];
      assert a[1..] + "/" + b == (a + "/" + b)[1..] == (c + "/" + d)[1..] == c[1..] + "/" + d;
      SplitAtSlash(a[1..], b, c[1..], d);
      assert a == [a[0]] + a[1..] && c == [c[0]] + c[1..];
    }
  }

  /** Collections are created for one target per key, in the order the keys first turn up. */
  ghost predicate CreatedOk(cfg: Config, items: seq<Item>, b: Batcher) {
    && (forall k :: k in b.initialized <==> exists t :: t in b.created && Key(t) == k)
    && (forall i, j :: 0 <= i < j < |b.created| ==> Key(b.created[i]) != Key(b.created[j]))
    && (forall t :: t in b.created ==> exists item :: item in items && TargetOf(cfg, item) == Some(t))
    && (forall item :: item in items ==> TargetOf(cfg, item).Some? && Key(TargetOf(cfg, item).value) in b.initialized)
  }

  lemma AddedCreates(cfg: Config, cd: Codec, b: Batcher, item: Item, t: Target)
    ensures Added(cfg, cd, b, item, t).created == Created(b, t).created
    ensures Added(cfg, cd, b, item, t).initialized == Created(b, t).initialized
  {
  }

  lemma CreatedStep(cfg: Config, items: seq<Item>, b: Batcher, item: Item, t: Target)
    requires CreatedOk(cfg, items, b) && TargetOf(cfg, item) == Some(t)
    ensures CreatedOk(cfg, items + [item], Created(b, t))
  {
    var b' := Created(b, t);
    if Key(t) !in b.initialized {
      assert t in b'.created;
      forall k | k in b.initialized ensures exists u :: u in b'.created && Key(u) == k {
        var u :| u in b.created && Key(u) == k;
        assert u in b'.created;
      }
    }
    forall u | u in b'.created ensures exists o :: o in items + [item] && TargetOf(cfg, o) == Some(u) {
      if u in b.created {
        var o :| o in items && TargetOf(cfg, o) == Some(u);
        assert o in items + [item];
      } else {
        assert item in items + [item];
      }
    }
  }

  lemma {:induction false} AddAllCreated(cfg: Config, cd: Codec, items: seq<Item>)
    requires AddAll(cfg, cd, items).Some?
    ensures CreatedOk(cfg, items, AddAll(cfg, cd, items).value)
  {
    if items != [] {
      var front, last := items[..|items| - 1], items[|items| - 1];
      LastApart(items);
      AddAllStep(cfg, cd, front, last, items);
      var b, t := AddAll(cfg, cd, front).value, TargetOf(cfg, last).value;
      AddAllCreated(cfg, cd, front);
      CreatedStep(cfg, front, b, last, t);
      AddedCreates(cfg, cd, b, last, t);
    }
  }

  /** No two items of the stream have different targets that share a key. */
  ghost predicate NoClash(cfg: Config, items: seq<Item>) {
    forall a, b :: a in items && b in items ==> Agree(TargetOf(cfg, a), TargetOf(cfg, b))
  }

  predicate Agree(t: Option<Target>, u: Option<Target>) {
    t.Some? && u.Some? && Key(t.value) == Key(u.value) ==> t == u
  }

  ghost predicate AllCreated(cfg: Config, items: seq<Item>, created: seq<Target>) {
    forall item :: item in items ==> TargetOf(cfg, item).Some? && TargetOf(cfg, item).value in created
  }

  lemma ClashlessCreates(cfg: Config, items: seq<Item>, b: Batcher)
    requires CreatedOk(cfg, items, b) && NoClash(cfg, items)
    ensures AllCreated(cfg, items, b.created)
  {
    forall item | item in items ensures TargetOf(cfg, item).value in b.created {
      var u :| u in b.created && Key(u) == Key(TargetOf(cfg, item).value);
      var o :| o in items && TargetOf(cfg, o) == Some(u);
      assert Agree(TargetOf(cfg, item), TargetOf(cfg, o));
    }
  }

  lemma CreatedIsClashless(cfg: Config, items: seq<Item>, b: Batcher)
    requires CreatedOk(cfg, items, b) && AllCreated(cfg, items, b.created)
    ensures NoClash(cfg, items)
  {
    forall x, y | x in items && y in items ensures Agree(TargetOf(cfg, x), TargetOf(cfg, y)) {
      var t, u := TargetOf(cfg, x).value, TargetOf(cfg, y).value;
      var i :| 0 <= i < |b.created| && b.created[i] == t;
      var j :| 0 <= j < |b.created| && b.created[j] == u;
      assert Key(b.created[i]) == Key(b.created[j]) ==> i == j;
    }
  }

  lemma {:induction false} FlushOf(flushes: seq<Flush>, item: Item) returns (f: Flush)
    requires item in FlushedItems(flushes)
    ensures f in flushes && item in f.items
  {
    f := flushes[|flushes| - 1];
    if item !in f.items {
      f := FlushOf(flushes[..|flushes| - 1], item);
    }
  }

  ghost predicate SentToCreated(flushes: seq<Flush>, created: seq<Target>) {
    forall f :: f in flushes ==> f.target in created
  }

  lemma SentIffAllCreated(cfg: Config, cd: Codec, flushes: seq<Flush>, items: seq<Item>, created: seq<Target>)
    requires FlushedItems(flushes) == items && forall f :: f in flushes ==> FlushOk(cfg, cd, f)
    ensures SentToCreated(flushes, created) <==> AllCreated(cfg, items, created)
  {
    if SentToCreated(flushes, created) {
      forall item | item in items ensures TargetOf(cfg, item).Some? && TargetOf(cfg, item).value in created {
        var f := FlushOf(flushes, item);
        assert FlushOk(cfg, cd, f);
      }
    }
    if AllCreated(cfg, items, created) {
      forall f | f in flushes ensures f.target in created {
        assert FlushOk(cfg, cd, f) && f.items[0] in f.items;
        FlushedItemKnown(flushes, f, f.items[0]);
      }
    }
  }

  /**
   Every batch goes to a collection created for it if and only if no two items of the stream have
   different targets that share a key.
   */
  lemma {:induction false} CreatedIffNoClash(cfg: Config, cd: Codec, items: seq<Item>)
    requires AddAll(cfg, cd, items).Some?
    ensures SentToCreated(Finished(AddAll(cfg, cd, items).value).flushes, AddAll(cfg, cd, items).value.created)
       <==> NoClash(cfg, items)
  {
    var b := AddAll(cfg, cd, items).value;
    AddAllCreated(cfg, cd, items);
    EveryItemOnce(cfg, cd, items);
    SentIffAllCreated(cfg, cd, Finished(b).flushes, items, b.created);
    if NoClash(cfg, items) {
      ClashlessCreates(cfg, items, b);
    }
    if AllCreated(cfg, items, b.created) {
      CreatedIsClashless(cfg, items, b);
    }
  }

  /** In particular when no database name contains a slash. */
  lemma {:induction false} CreatedBeforeSent(cfg: Config, cd: Codec, items: seq<Item>)
    requires AddAll(cfg, cd, items).Some?
    requires forall item :: item in items ==>
               TargetOf(cfg, item).Some? && SlashFree(TargetOf(cfg, item).value.database)
    ensures SentToCreated(Finished(AddAll(cfg, cd, items).value).flushes, AddAll(cfg, cd, items).value.created)
  {
    forall x, y | x in items && y in items ensures Agree(TargetOf(cfg, x), TargetOf(cfg, y)) {
      var t, u := TargetOf(cfg, x).value, TargetOf(cfg, y).value;
      if Key(t) == Key(u) {
        SplitAtSlash(t.database, t.collection, u.database, u.collection);
      }
    }
    CreatedIffNoClash(cfg, cd, items);
  }

  /** Slashes can make keys clash: the second collection is taken for the first. */
  lemma SlashSkipsCreation(cfg: Config, cd: Codec, rest: string)
    ensures var items := [Doc(Value(Some("a"), Some("b/c"), false, None, rest)),
                          Doc(Value(Some("a/b"), Some("c"), false, None, rest))];
      && TargetOf(cfg, items[1]) == Some(Target("a/b", "c"))
      && Added(cfg, cd, Added(cfg, cd, EMPTY, items[0], Target("a", "b/c")), items[1], Target("a/b", "c")).created
         == [Target("a", "b/c")]
  {
    assert Key(Target("a", "b/c")) == "a/b/c" == Key(Target("a/b", "c"));
  }
}
