/**
 The restore program's loop and buffers (src/bin/solidb-restore.rs): bytes are read line by line,
 items go into the batch buffer, and full or outdated batches are sent. Everything is proved
 against the functions of `Restore`.
 */
module RestoreLoop {
  import opened Wrappers
  import opened Restore

  /** What the batches look like on the wire. */
  function Payloads(cd: Codec, flushes: seq<Flush>): seq<(Target, Bytes)> {
    if flushes == [] then []
    else
      var last := flushes[|flushes| - 1];
      Payloads(cd, flushes[..|flushes| - 1]) + [(last.target, Lines(AllPieces(cd, last.items)))]
  }

  lemma PayloadsAppend(cd: Codec, flushes: seq<Flush>, f: Flush)
    ensures Payloads(cd, flushes + [f]) == Payloads(cd, flushes) + [(f.target, Lines(AllPieces(cd, f.items)))]
  {
    assert (flushes + [f])[..|flushes|] == flushes;
  }

  lemma PendingPieces(cd: Codec, items: seq<Item>)
    ensures AllPieces(cd, items) == [] <==> items == []
  {
  }

  lemma FlushSends(cd: Codec, b: Batcher, target: Target)
    ensures AllPieces(cd, b.pending) == [] ==> Flushed(b, target) == b
    ensures AllPieces(cd, b.pending) != [] ==>
      Payloads(cd, Flushed(b, target).flushes)
      == Payloads(cd, b.flushes) + [(target, Lines(AllPieces(cd, b.pending)))]
  {
    PendingPieces(cd, b.pending);
    PayloadsAppend(cd, b.flushes, Flush(target, b.pending));
  }

  lemma AllPiecesAppend(cd: Codec, items: seq<Item>, item: Item)
    ensures AllPieces(cd, items + [item]) == AllPieces(cd, items) + Pieces(cd, item)
  {
    assert (items + [item])[..|items|] == items;
  }

  lemma TotalAppend(pieces: seq<Bytes>, piece: Bytes)
    ensures Total(pieces + [piece]) == Total(pieces) + |piece|
  {
    assert (pieces + [piece])[..|pieces|] == pieces;
  }

  lemma BufferGrows(cd: Codec, items: seq<Item>, batch: seq<Bytes>, item: Item)
    requires batch == AllPieces(cd, items)
    ensures var first := cd.write(item.value);
      if item.Doc? then
        AllPieces(cd, items + [item]) == batch + [first] && Total(batch + [first]) == Total(batch) + |first|
      else
        && AllPieces(cd, items + [item]) == batch + [first] + [item.data]
        && Total(batch + [first] + [item.data]) == Total(batch) + |first| + |item.data|
  {
    var first := cd.write(item.value);
    AllPiecesAppend(cd, items, item);
    TotalAppend(batch, first);
    if item.Chunk? {
      TotalAppend(batch + [first], item.data);
      assert batch + [first] + [item.data] == batch + [first, item.data];
    }
  }

  lemma LineEndIs(s: Bytes, n: nat)
    requires n <= |s| && NEWLINE !in s[..n] && (n < |s| ==> s[n] == NEWLINE)
    ensures LineEnd(s) == n
  {
    var m := LineEnd(s);
    assert forall k :: 0 <= k < n ==> s[..n][k] == s[k];
    assert forall k :: 0 <= k < m ==> s[..m][k] == s[k];
  }

  /** The first line of what is left, without its newline, and the position after it. */
  method ReadLine(stream: Bytes, pos: nat) returns (line: Bytes, next: nat)
    requires pos < |stream|
    ensures pos < next <= |stream|
    ensures line == stream[pos..][..LineEnd(stream[pos..])] && stream[next..] == AfterLine(stream[pos..])
  {
    next := pos;
    while next < |stream| && stream[next] != NEWLINE
      invariant pos <= next <= |stream|
      invariant NEWLINE !in stream[pos..next]
    {
      next := next + 1;
    }
    line := stream[pos..next];
    assert stream[pos..][..next - pos] == line;
    LineEndIs(stream[pos..], next - pos);
    if next < |stream| {
      assert stream[pos..][next - pos + 1..] == stream[next + 1..];
      next := next + 1;
    }
  }

  /** What one turn of the reading loop finds. */
  datatype Reading = Blank | Unparsed | Whole(item: Item) | Cut

  function AsTurn(read: Reading, rest: Bytes): Turn {
    match read
    case Blank => Skip(rest)
    case Unparsed => Bad(rest)
    case Whole(item) => Got(item, rest)
    case Cut => Short
  }

  /** A line, and the raw bytes after it when the line is the header of a binary chunk. */
  method ReadTurn(cd: Codec, stream: Bytes, pos: nat) returns (read: Reading, next: nat)
    requires pos < |stream|
    ensures pos < next <= |stream| && Next(cd, stream[pos..]) == AsTurn(read, stream[next..])
  {
    var line;
    line, next := ReadLine(stream, pos);
    if AllBlank(line) {
      return Blank, next;
    }
    var parsed := cd.read(line);
    if parsed.None? {
      return Unparsed, next;
    }
    var value := parsed.value;
    if !(value.blobChunk && value.dataLength.Some?) {
      return Whole(Doc(value)), next;
    }
    var n := value.dataLength.value;
    if |stream| - next < n {
      return Cut, next;
    }
    ghost var rest := stream[next..];
    read := Whole(Chunk(value, stream[next..next + n]));
    assert rest[..n] == stream[next..next + n];
    if next + n < |stream| {
      assert rest[n + 1..] == stream[next + n + 1..];
      next := next + n + 1;
    } else {
      next := next + n;
    }
  }

  class Restorer {
    const cfg: Config
    const codec: Codec
    var batch: seq<Bytes>
    var batchSize: nat
    var meta: Option<Target>
    var initialized: set<string>
    var created: seq<Target>
    var sent: seq<(Target, Bytes)>
    ghost var model: Batcher

    ghost predicate Valid()
      reads this
    {
      && batch == AllPieces(codec, model.pending) && batchSize == Total(batch)
      && meta == model.meta && initialized == model.initialized && created == model.created
      && sent == Payloads(codec, model.flushes)
    }

    constructor (cfg: Config, codec: Codec)
      ensures Valid() && model == EMPTY && this.cfg == cfg && this.codec == codec
    {
      this.cfg, this.codec := cfg, codec;
      batch, batchSize, meta, initialized, created, sent := [], 0, None, {}, [], [];
      model := EMPTY;
    }

    /** Joins the buffered pieces into one payload, every piece followed by a newline. */
    method BuildPayload() returns (payload: Bytes)
      ensures payload == Lines(batch)
    {
      payload := [];
      var k := 0;
      while k < |batch|
        invariant 0 <= k <= |batch| && payload == Lines(batch[..k])
      {
        payload := payload + batch[k];
        payload := payload + [NEWLINE];
        assert batch[..k + 1][..k] == batch[..k];
        k := k + 1;
      }
      assert batch[..k] == batch;
    }

    method FlushBatch(target: Target)
      requires Valid()
      modifies this
      ensures Valid() && model == Flushed(old(model), target)
    {
      FlushSends(codec, model, target);
      model := Flushed(model, target);
      if batch == [] {
        return;
      }
      var payload := BuildPayload();
      sent := sent + [(target, payload)];
      batch, batchSize := [], 0;
    }

    method EnsureCollection(target: Target)
      requires Valid()
      modifies this
      ensures Valid() && model == Created(old(model), target)
    {
      var key := target.database + "/" + target.collection;
      if key !in initialized {
        created := created + [target];
        initialized := initialized + {key};
      }
      model := Created(model, target);
    }

    method CheckTarget(target: Target)
      requires Valid()
      modifies this
      ensures Valid() && model == Retargeted(old(model), target)
    {
      if meta.Some? && meta.value != target {
        FlushBatch(meta.value);
        meta := None;
      }
      if meta.None? {
        meta := Some(target);
      }
      model := model.(meta := Some(target));
    }

    /** The serialized pieces of an item enter the buffer one by one. */
    method Push(item: Item)
      requires Valid()
      modifies this
      ensures Valid() && model == Grown(old(model), item)
    {
      var bytes := codec.write(item.value);
      BufferGrows(codec, model.pending, batch, item);
      model := Grown(model, item);
      batchSize := batchSize + |bytes|;
      batch := batch + [bytes];
      if item.Chunk? {
        batchSize := batchSize + |item.data|;
        batch := batch + [item.data];
      }
    }

    /** Both ways an item enters the batch; an item without a target stops the restore. */
    method Process(item: Item) returns (ok: bool)
      requires Valid()
      modifies this
      ensures Valid() && (ok <==> TargetOf(cfg, item).Some?)
      ensures model == if ok then Added(cfg, codec, old(model), item, TargetOf(cfg, item).value) else old(model)
    {
      var target := TargetOf(cfg, item);
      ok := target.Some?;
      if ok {
        EnsureCollection(target.value);
        CheckTarget(target.value);
        Push(item);
        if |batch| >= cfg.maxCount || batchSize >= cfg.maxSize {
          FlushBatch(target.value);
        }
      }
    }

    /** After the loop: what is still buffered goes out. */
    method FlushRemaining()
      requires Valid()
      modifies this
      ensures Valid() && model == Finished(old(model))
    {
      PendingPieces(codec, model.pending);
      if batch != [] && meta.Some? {
        FlushBatch(meta.value);
      }
    }

    /**
     The reading loop. If the stream is complete and every item has a target, all items are
     batched and the last batch is sent; otherwise the loop stops at the offending item, and what
     was still buffered is not sent.
     */
    method RestoreStream(stream: Bytes) returns (ok: bool, failed: nat, ghost done: seq<Item>)
      requires Valid() && model == EMPTY
      modifies this
      ensures Valid() && done <= Parse(codec, stream).items && AddAll(cfg, codec, done).Some?
      ensures ok ==> Parse(codec, stream) == Parsed(done, failed, true)
      ensures ok ==> model == Finished(AddAll(cfg, codec, done).value)
      ensures !ok ==> model == AddAll(cfg, codec, done).value
      ensures !ok ==> Stops(cfg, Parse(codec, stream), |done|)
    {
      ghost var whole := Parse(codec, stream);
      var pos := 0;
      failed, done := 0, [];
      assert stream[0..] == stream;
      while pos < |stream|
        invariant 0 <= pos <= |stream| && Valid()
        invariant AddAll(cfg, codec, done) == Some(model)
        invariant whole == Joined(done, failed, Parse(codec, stream[pos..]))
      {
        var read, next := ReadTurn(codec, stream, pos);
        JoinTurn(codec, whole, done, failed, stream[pos..]);
        match read {
          case Blank =>
          case Unparsed => failed := failed + 1;
          case Cut => return false, failed, done;
          case Whole(item) =>
            ok := Process(item);
            if !ok {
              return false, failed, done;
            }
            AddAllOne(cfg, codec, done, item);
            done := done + [item];
        }
        pos := next;
      }
      FlushRemaining();
      ok := true;
    }
  }

  /** Why the loop gave up after n items: the stream was cut short there, or item n has no target. */
  predicate Stops(cfg: Config, whole: Parsed, n: nat) {
    if n < |whole.items| then TargetOf(cfg, whole.items[n]).None? else !whole.complete
  }

  function Joined(done: seq<Item>, failed: nat, rest: Parsed): Parsed {
    Parsed(done + rest.items, failed + rest.failed, rest.complete)
  }

  lemma JoinTurn(cd: Codec, whole: Parsed, done: seq<Item>, failed: nat, s: Bytes)
    requires s != [] && whole == Joined(done, failed, Parse(cd, s))
    ensures match Next(cd, s)
      case Short => whole == Parsed(done, failed, false)
      case Skip(rest) => whole == Joined(done, failed, Parse(cd, rest))
      case Bad(rest) => whole == Joined(done, failed + 1, Parse(cd, rest))
      case Got(item, rest) =>
        && whole == Joined(done + [item], failed, Parse(cd, rest))
        && |done| < |whole.items| && whole.items[|done|] == item
  {
    match Next(cd, s)
    case Got(item, rest) =>
      assert done + ([item] + Parse(cd, rest).items) == done + [item] + Parse(cd, rest).items;
    case _ =>
      assert done + [] == done;
  }

  lemma AddAllOne(cfg: Config, cd: Codec, items: seq<Item>, item: Item)
    ensures AddAll(cfg, cd, items + [item])
         == if AddAll(cfg, cd, items).Some? && TargetOf(cfg, item).Some?
            then Some(Added(cfg, cd, AddAll(cfg, cd, items).value, item, TargetOf(cfg, item).value)) else None
  {
    assert (items + [item])[..|items|] == items;
  }
}
