/**
 Cursor-based pagination (src/server/cursor_store.rs): query results are kept under a cursor
 and handed out batch by batch until they are used up, expire or are deleted.
 */
module CursorStore {
  import opened Numbers
  import opened Wrappers

  datatype Cursor<T> = Cursor(results: seq<T>, position: nat, createdAt: nat, batchSize: nat)

  type Cursors<T> = map<string, Cursor<T>>

  predicate Expired<T>(c: Cursor<T>, ttl: nat, now: nat) {
    now - c.createdAt > ttl
  }

  /** What a fetch hands out: the rows, and whether more follow; nothing without a live cursor. */
  function Batch<T>(m: Cursors<T>, ttl: nat, id: string, now: nat): Option<(seq<T>, bool)> {
    if id !in m || Expired(m[id], ttl, now) then None
    else if m[id].position >= |m[id].results| then Some(([], false))
    else
      var end := Min(m[id].position + m[id].batchSize, |m[id].results|);
      Some((m[id].results[m[id].position..end], end < |m[id].results|))
  }

  /** What a fetch leaves behind. */
  function Fetched<T>(m: Cursors<T>, ttl: nat, id: string, now: nat): Cursors<T> {
    if id !in m then m
    else
      var c := m[id];
      if Expired(c, ttl, now) || c.position + c.batchSize >= |c.results| then m - {id}
      else m[id := c.(position := c.position + c.batchSize)]
  }

  function Stored<T>(m: Cursors<T>, id: string, results: seq<T>, batchSize: nat, now: nat): Cursors<T> {
    m[id := Cursor(results, 0, now, batchSize)]
  }

  /** Storing and fetching at once keeps a cursor only when rows are left. */
  function StoredFirst<T>(m: Cursors<T>, id: string, results: seq<T>, batchSize: nat, now: nat): Cursors<T> {
    if batchSize < |results| then m[id := Cursor(results, batchSize, now, batchSize)] else m
  }

  function Swept<T>(m: Cursors<T>, ttl: nat, now: nat): Cursors<T> {
    map id | id in m && !Expired(m[id], ttl, now) :: m[id]
  }

  class CursorTable<T> {
    var cursors: Cursors<T>
    const ttl: nat

    constructor (ttl: nat)
      ensures cursors == map[] && this.ttl == ttl
    {
      cursors, this.ttl := map[], ttl;
    }

    method Store(id: string, results: seq<T>, batchSize: nat, now: nat)
      modifies this
      ensures cursors == Stored(old(cursors), id, results, batchSize, now)
    {
      cursors := cursors[id := Cursor(results, 0, now, batchSize)];
    }

    method StoreAndGetFirstBatch(newId: string, results: seq<T>, batchSize: nat, now: nat)
      returns (id: Option<string>, batch: seq<T>, hasMore: bool)
      requires newId !in cursors
      modifies this
      ensures cursors == Fetched(Stored(old(cursors), newId, results, batchSize, now), ttl, newId, now)
      ensures Batch(Stored(old(cursors), newId, results, batchSize, now), ttl, newId, now) == Some((batch, hasMore))
      ensures id == if hasMore then Some(newId) else None
      ensures newId in cursors <==> hasMore
    {
      FirstBatchRefines(cursors, ttl, newId, results, batchSize, now);
      var total := |results|;
      var end := if batchSize < total then batchSize else total;
      hasMore := end < total;
      if !hasMore {
        assert results[..end] == results;
        return None, results, false;
      }
      batch := results[..end];
      cursors := cursors[newId := Cursor(results, end, now, batchSize)];
      id := Some(newId);
    }

    method GetNextBatch(id: string, now: nat) returns (r: Option<(seq<T>, bool)>)
      modifies this
      ensures r == Batch(old(cursors), ttl, id, now)
      ensures cursors == Fetched(old(cursors), ttl, id, now)
    {
      if id !in cursors {
        return None;
      }
      var c := cursors[id];
      if now - c.createdAt > ttl {
        cursors := cursors - {id};
        return None;
      }
      var start := c.position;
      var end := Min(start + c.batchSize, |c.results|);
      if start >= |c.results| {
        cursors := cursors - {id};
        return Some(([], false));
      }
      var batch := c.results[start..end];
      cursors := cursors[id := c.(position := end)];
      var hasMore := end < |c.results|;
      if !hasMore {
        cursors := cursors - {id};
        assert cursors == old(cursors) - {id};
      }
      r := Some((batch, hasMore));
    }

    method Delete(id: string) returns (found: bool)
      modifies this
      ensures cursors == old(cursors) - {id} && (found <==> id in old(cursors))
    {
      found := id in cursors;
      cursors := cursors - {id};
    }

    method CleanUp(now: nat)
      modifies this
      ensures cursors == Swept(old(cursors), ttl, now)
    {
      cursors := map id | id in cursors && now - cursors[id].createdAt <= ttl :: cursors[id];
    }
  }

  /** Storing and fetching at once is storing, then fetching: same rows, same flag, same store. */
  lemma FirstBatchRefines<T>(m: Cursors<T>, ttl: nat, id: string, results: seq<T>, batchSize: nat, now: nat)
    requires id !in m
    ensures Fetched(Stored(m, id, results, batchSize, now), ttl, id, now) == StoredFirst(m, id, results, batchSize, now)
    ensures Batch(Stored(m, id, results, batchSize, now), ttl, id, now)
         == Some((results[..Min(batchSize, |results|)], batchSize < |results|))
  {
    var s := Stored(m, id, results, batchSize, now);
    assert s - {id} == m;
    assert results[0..Min(batchSize, |results|)] == results[..Min(batchSize, |results|)];
  }

  // ---------------------------------------------------------------------------
  // One cursor among many
  // ---------------------------------------------------------------------------

  datatype Op<T> =
    | Store(id: string, results: seq<T>, batchSize: nat, now: nat)
    | StoreFirst(id: string, results: seq<T>, batchSize: nat, now: nat)
    | Next(id: string, now: nat)
    | Delete(id: string, now: nat)
    | Sweep(now: nat)

  function Apply<T>(m: Cursors<T>, ttl: nat, op: Op<T>): Cursors<T> {
    match op
    case Store(id, results, batchSize, now) => Stored(m, id, results, batchSize, now)
    case StoreFirst(id, results, batchSize, now) => StoredFirst(m, id, results, batchSize, now)
    case Next(id, now) => Fetched(m, ttl, id, now)
    case Delete(id, now) => m - {id}
    case Sweep(now) => Swept(m, ttl, now)
  }

  /** The rows an operation hands out for cursor `id`. */
  function Rows<T>(m: Cursors<T>, ttl: nat, op: Op<T>, id: string): seq<T> {
    if op.Next? && op.id == id && Batch(m, ttl, id, op.now).Some? then Batch(m, ttl, id, op.now).value.0 else []
  }

  function After<T>(m: Cursors<T>, ttl: nat, ops: seq<Op<T>>): Cursors<T> {
    if ops == [] then m else Apply(After(m, ttl, ops[..|ops| - 1]), ttl, ops[|ops| - 1])
  }

  function AllRows<T>(m: Cursors<T>, ttl: nat, ops: seq<Op<T>>, id: string): seq<T> {
    if ops == [] then []
    else
      AllRows(m, ttl, ops[..|ops| - 1], id) + Rows(After(m, ttl, ops[..|ops| - 1]), ttl, ops[|ops| - 1], id)
  }

  function Fetches<T>(ops: seq<Op<T>>, id: string): nat {
    if ops == [] then 0
    else
      Fetches(ops[..|ops| - 1], id) + if ops[|ops| - 1].Next? && ops[|ops| - 1].id == id then 1 else 0
  }

  /** Nobody deletes or reuses the cursor, and it does not grow too old. */
  predicate Leaves<T>(op: Op<T>, id: string, deadline: nat) {
    && op.now <= deadline
    && (op.Store? || op.StoreFirst? || op.Delete? ==> op.id != id)
  }

  /** After n fetches that handed out `got`: the cursor stands behind them, or all is handed out and it is gone. */
  predicate Tracks<T(==)>(m: Cursors<T>, id: string, origin: Cursor<T>, got: seq<T>, n: nat) {
    var total := |origin.results|;
    if id in m then
      && m[id] == origin.(position := n * origin.batchSize)
      && (n > 0 ==> n * origin.batchSize < total)
      && n * origin.batchSize <= total && got == origin.results[..n * origin.batchSize]
    else n > 0 && n * origin.batchSize >= total && got == origin.results
  }

  lemma FetchTracks<T>(m: Cursors<T>, ttl: nat, now: nat, id: string, origin: Cursor<T>, got: seq<T>, n: nat)
    requires Tracks(m, id, origin, got, n) && origin.position == 0 && now <= origin.createdAt + ttl
    ensures Tracks(Fetched(m, ttl, id, now), id, origin, got + Rows(m, ttl, Next(id, now), id), n + 1)
  {
    var b := origin.batchSize;
    assert (n + 1) * b == n * b + b;
  }

  lemma StepTracks<T>(m: Cursors<T>, ttl: nat, op: Op<T>, id: string, origin: Cursor<T>, got: seq<T>, n: nat)
    requires Tracks(m, id, origin, got, n) && origin.position == 0 && Leaves(op, id, origin.createdAt + ttl)
    ensures Tracks(Apply(m, ttl, op), id, origin, got + Rows(m, ttl, op, id),
                   if op.Next? && op.id == id then n + 1 else n)
  {
    if op.Next? && op.id == id {
      FetchTracks(m, ttl, op.now, id, origin, got, n);
    } else {
      assert got + Rows(m, ttl, op, id) == got;
    }
  }

  lemma {:induction false} RunTracks<T>(m: Cursors<T>, ttl: nat, ops: seq<Op<T>>, id: string, origin: Cursor<T>)
    requires Tracks(m, id, origin, [], 0) && origin.position == 0
    requires forall op :: op in ops ==> Leaves(op, id, origin.createdAt + ttl)
    ensures Tracks(After(m, ttl, ops), id, origin, AllRows(m, ttl, ops, id), Fetches(ops, id))
  {
    if ops != [] {
      var front, last := ops[..|ops| - 1], ops[|ops| - 1];
      assert last in ops && forall op :: op in front ==> op in ops;
      RunTracks(m, ttl, front, id, origin);
      StepTracks(After(m, ttl, front), ttl, last, id, origin, AllRows(m, ttl, front, id), Fetches(front, id));
    }
  }

  /**
   Whatever happens to other cursors, the batches of an undisturbed cursor are the results cut
   into pieces: after n fetches the first n * batchSize rows are out, and once that is all of
   them the rows handed out are exactly the results and the cursor is gone.
   */
  lemma BatchesAreTheResults<T>(m: Cursors<T>, ttl: nat, ops: seq<Op<T>>, id: string, results: seq<T>,
                                batchSize: nat, now: nat)
    requires forall op :: op in ops ==> Leaves(op, id, now + ttl)
    ensures var start := Stored(m, id, results, batchSize, now);
      var n := Fetches(ops, id);
      && (n * batchSize < |results| ==>
            id in After(start, ttl, ops) && AllRows(start, ttl, ops, id) == results[..n * batchSize])
      && (n > 0 && n * batchSize >= |results| ==>
            id !in After(start, ttl, ops) && AllRows(start, ttl, ops, id) == results)
  {
    var start := Stored(m, id, results, batchSize, now);
    var origin := Cursor(results, 0, now, batchSize);
    assert Tracks(start, id, origin, [], 0);
    RunTracks(start, ttl, ops, id, origin);
  }

  lemma TrackedBatch<T>(m: Cursors<T>, ttl: nat, id: string, origin: Cursor<T>, got: seq<T>, n: nat, later: nat)
    requires Tracks(m, id, origin, got, n)
    ensures var out := n * origin.batchSize;
      if later > origin.createdAt + ttl || (n > 0 && out >= |origin.results|) then Batch(m, ttl, id, later) == None
      else
        && out <= |origin.results|
        && var rows := origin.results[out..Min(out + origin.batchSize, |origin.results|)];
           Batch(m, ttl, id, later) == Some((rows, out + |rows| < |origin.results|))
  {
  }

  /**
   What the next fetch says, whatever happened to other cursors: after the deadline nothing; before
   it the rows that follow those handed out, and that more follow exactly when rows are left; and
   nothing once all rows have been handed out.
   */
  lemma NextBatchSays<T>(m: Cursors<T>, ttl: nat, ops: seq<Op<T>>, id: string, results: seq<T>,
                         batchSize: nat, now: nat, later: nat)
    requires forall op :: op in ops ==> Leaves(op, id, now + ttl)
    ensures var m' := After(Stored(m, id, results, batchSize, now), ttl, ops);
      var n := Fetches(ops, id);
      var out := n * batchSize;
      if later > now + ttl || (n > 0 && out >= |results|) then Batch(m', ttl, id, later) == None
      else
        && out <= |results|
        && var rows := results[out..Min(out + batchSize, |results|)];
           Batch(m', ttl, id, later) == Some((rows, out + |rows| < |results|))
  {
    var start := Stored(m, id, results, batchSize, now);
    var origin := Cursor(results, 0, now, batchSize);
    assert Tracks(start, id, origin, [], 0);
    RunTracks(start, ttl, ops, id, origin);
    TrackedBatch(After(start, ttl, ops), ttl, id, origin, AllRows(start, ttl, ops, id), Fetches(ops, id), later);
  }

  /** A batch size of zero is the one that never finishes: fetching rows that exist changes nothing. */
  lemma FetchStallsIff<T>(m: Cursors<T>, ttl: nat, id: string, now: nat)
    requires id in m && !Expired(m[id], ttl, now) && m[id].position < |m[id].results|
    ensures Fetched(m, ttl, id, now) == m <==> m[id].batchSize == 0
    ensures m[id].batchSize == 0 ==> Batch(m, ttl, id, now) == Some(([], true))
  {
    if m[id].batchSize == 0 {
      assert m[id := m[id]] == m;
      assert m[id].results[m[id].position..m[id].position] == [];
    } else {
      assert id !in Fetched(m, ttl, id, now) || Fetched(m, ttl, id, now)[id].position > m[id].position;
    }
  }

  /** Any cursor stored with batch size zero and some rows hands out empty batches as long as it lives. */
  lemma ZeroBatchStalls<T>(m: Cursors<T>, ttl: nat, id: string, results: seq<T>, stored: nat, now: nat)
    requires results != [] && !Expired(Cursor(results, 0, stored, 0), ttl, now)
    ensures var m' := Stored(m, id, results, 0, stored);
            Batch(m', ttl, id, now) == Some(([], true)) && Fetched(m', ttl, id, now) == m'
  {
    FetchStallsIff(Stored(m, id, results, 0, stored), ttl, id, now);
  }
}
