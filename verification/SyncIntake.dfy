/**
 Replication intake, part one (src/cluster/manager.rs, src/cluster/state.rs): which incoming
 log entries a node accepts. A node ignores its own entries and, per origin, every entry whose
 sequence does not exceed the largest one seen.
 */
module SyncIntake {
  import opened Numbers
  import opened Wrappers

  /** A database name and a collection name. */
  type Collection = (string, string)

  /** A document: its fields, each with its serialized value. */
  type Doc = map<string, string>

  datatype Operation = Insert | Update | Delete

  datatype Entry = Entry(origin: string, sequence: nat, coll: Collection, op: Operation, key: string, data: Option<Doc>)

  type Maxima = map<string, nat>

  function Current(m: Maxima, origin: string): nat {
    if origin in m then m[origin] else 0
  }

  /** The table of largest sequences after a list of deliveries. */
  function MaximaAfter(local: string, m: Maxima, h: seq<Entry>): Maxima {
    if h == [] then m
    else
      var m' := MaximaAfter(local, m, h[..|h| - 1]);
      var e := h[|h| - 1];
      if e.origin == local then m' else m'[e.origin := Max(Current(m', e.origin), e.sequence)]
  }

  predicate Accepts(local: string, m: Maxima, e: Entry) {
    e.origin != local && e.sequence > Current(m, e.origin)
  }

  function Accepted(local: string, m: Maxima, h: seq<Entry>): seq<Entry> {
    if h == [] then []
    else
      var init, e := h[..|h| - 1], h[|h| - 1];
      Accepted(local, m, init) + if Accepts(local, MaximaAfter(local, m, init), e) then [e] else []
  }

  class OriginSequences {
    const local: string
    var maxima: Maxima

    constructor (local: string)
      ensures this.local == local && maxima == map[]
    {
      this.local := local;
      maxima := map[];
    }

    method CheckAndUpdate(origin: string, sequence: nat) returns (isNew: bool)
      modifies this
      ensures isNew <==> sequence > Current(old(maxima), origin)
      ensures maxima == old(maxima)[origin := Max(Current(old(maxima), origin), sequence)]
    {
      if origin !in maxima {
        maxima := maxima[origin := 0];
      }
      isNew := sequence > maxima[origin];
      if isNew {
        maxima := maxima[origin := sequence];
      }
    }

    /** The loop-detection filter at the start of `handle_sync_message`. */
    method Filter(entries: seq<Entry>) returns (valid: seq<Entry>)
      modifies this
      ensures valid == Accepted(local, old(maxima), entries)
      ensures maxima == MaximaAfter(local, old(maxima), entries)
    {
      valid := [];
      var i := 0;
      while i < |entries|
        invariant i <= |entries|
        invariant valid == Accepted(local, old(maxima), entries[..i])
        invariant maxima == MaximaAfter(local, old(maxima), entries[..i])
      {
        assert entries[..i + 1][..i] == entries[..i];
        var e := entries[i];
        i := i + 1;
        if e.origin == local {
          continue;
        }
        var isNew := CheckAndUpdate(e.origin, e.sequence);
        if isNew {
          valid := valid + [e];
        }
      }
      assert entries[..i] == entries;
    }
  }

  // ---------------------------------------------------------------------------
  // What is accepted over a whole history of deliveries
  // ---------------------------------------------------------------------------

  /** Delivery `i` is foreign, positive and exceeds everything delivered before from its origin. */
  ghost predicate IsRunningMaximum(local: string, h: seq<Entry>, i: nat)
    requires i < |h|
  {
    && h[i].origin != local && h[i].sequence > 0
    && forall j :: 0 <= j < i && h[j].origin == h[i].origin ==> h[j].sequence < h[i].sequence
  }

  ghost function RunningMaxima(local: string, h: seq<Entry>, n: nat): seq<Entry>
    requires n <= |h|
  {
    if n == 0 then []
    else RunningMaxima(local, h, n - 1) + if IsRunningMaximum(local, h, n - 1) then [h[n - 1]] else []
  }

  /** Batch boundaries do not matter: the filter works on the stream of deliveries. */
  lemma {:induction false} AcceptedAppend(local: string, m: Maxima, a: seq<Entry>, b: seq<Entry>)
    ensures MaximaAfter(local, m, a + b) == MaximaAfter(local, MaximaAfter(local, m, a), b)
    ensures Accepted(local, m, a + b) == Accepted(local, m, a) + Accepted(local, MaximaAfter(local, m, a), b)
  {
    if b == [] {
      assert a + b == a;
    } else {
      assert (a + b)[..|a + b| - 1] == a + b[..|b| - 1];
      AcceptedAppend(local, m, a, b[..|b| - 1]);
    }
  }

  /** The table holds, per foreign origin, the largest sequence delivered (0 if none). */
  lemma {:induction false} MaximaAreMaxima(local: string, h: seq<Entry>, origin: string)
    requires origin != local
    ensures var c := Current(MaximaAfter(local, map[], h), origin);
            && (forall j :: 0 <= j < |h| && h[j].origin == origin ==> h[j].sequence <= c)
            && (c == 0 || exists j :: 0 <= j < |h| && h[j].origin == origin && h[j].sequence == c)
  {
    if h != [] {
      var init := h[..|h| - 1];
      MaximaAreMaxima(local, init, origin);
      assert forall j :: 0 <= j < |init| ==> init[j] == h[j];
      var c0, e := Current(MaximaAfter(local, map[], init), origin), h[|h| - 1];
      if e.origin == origin && e.sequence > c0 {
        assert h[|h| - 1].sequence == Current(MaximaAfter(local, map[], h), origin);
      } else if c0 > 0 {
        var j :| 0 <= j < |init| && init[j].origin == origin && init[j].sequence == c0;
        assert h[j].origin == origin && h[j].sequence == c0;
      }
    }
  }

  lemma AcceptsIffMaximum(local: string, h: seq<Entry>, i: nat)
    requires i < |h|
    ensures Accepts(local, MaximaAfter(local, map[], h[..i]), h[i]) <==> IsRunningMaximum(local, h, i)
  {
    var init, e := h[..i], h[i];
    if e.origin != local {
      MaximaAreMaxima(local, init, e.origin);
      assert forall j :: 0 <= j < i ==> init[j] == h[j];
    }
  }

  lemma {:induction false} AcceptedPrefix(local: string, h: seq<Entry>, n: nat)
    requires n <= |h|
    ensures Accepted(local, map[], h[..n]) == RunningMaxima(local, h, n)
  {
    if n > 0 {
      assert h[..n][..n - 1] == h[..n - 1] && h[..n][n - 1] == h[n - 1];
      AcceptedPrefix(local, h, n - 1);
      AcceptsIffMaximum(local, h, n - 1);
    }
  }

  /** A new node accepts exactly the strict running maxima of each foreign origin, in delivery order. */
  lemma AcceptedAreRunningMaxima(local: string, h: seq<Entry>)
    ensures Accepted(local, map[], h) == RunningMaxima(local, h, |h|)
  {
    assert h[..|h|] == h;
    AcceptedPrefix(local, h, |h|);
  }

  ghost predicate DeliveredBefore(h: seq<Entry>, n: nat, e: Entry)
    requires n <= |h|
  {
    exists j :: 0 <= j < n && h[j] == e
  }

  lemma {:induction false} RunningMaximaForeign(local: string, h: seq<Entry>, n: nat, i: nat)
    requires n <= |h| && i < |RunningMaxima(local, h, n)|
    ensures Relevant(local, RunningMaxima(local, h, n)[i])
    ensures DeliveredBefore(h, n, RunningMaxima(local, h, n)[i])
  {
    if n > 0 {
      if i < |RunningMaxima(local, h, n - 1)| {
        RunningMaximaForeign(local, h, n - 1, i);
      } else {
        assert h[n - 1] == RunningMaxima(local, h, n)[i];
      }
    }
  }

  lemma {:induction false} RunningMaximaAscend(local: string, h: seq<Entry>, n: nat, i: nat, j: nat)
    requires n <= |h| && i < j < |RunningMaxima(local, h, n)|
    requires RunningMaxima(local, h, n)[i].origin == RunningMaxima(local, h, n)[j].origin
    ensures RunningMaxima(local, h, n)[i].sequence < RunningMaxima(local, h, n)[j].sequence
  {
    if n > 0 {
      if j < |RunningMaxima(local, h, n - 1)| {
        RunningMaximaAscend(local, h, n - 1, i, j);
      } else {
        RunningMaximaForeign(local, h, n - 1, i);
      }
    }
  }

  /**
   Under any order, loss and duplication of deliveries: nothing of the node's own is accepted, and
   no (origin, sequence) twice, since the accepted sequences of an origin strictly increase.
   */
  lemma AcceptedAtMostOnce(local: string, h: seq<Entry>)
    ensures var a := Accepted(local, map[], h);
            && (forall i :: 0 <= i < |a| ==> Relevant(local, a[i]) && DeliveredBefore(h, |h|, a[i]))
            && (forall i, j :: 0 <= i < j < |a| && a[i].origin == a[j].origin ==> a[i].sequence < a[j].sequence)
  {
    AcceptedAreRunningMaxima(local, h);
    var a := RunningMaxima(local, h, |h|);
    forall i | 0 <= i < |a| ensures Relevant(local, a[i]) && DeliveredBefore(h, |h|, a[i]) {
      RunningMaximaForeign(local, h, |h|, i);
    }
    forall i, j | 0 <= i < j < |a| && a[i].origin == a[j].origin ensures a[i].sequence < a[j].sequence {
      RunningMaximaAscend(local, h, |h|, i, j);
    }
  }

  predicate SameEntry(a: Entry, b: Entry) {
    a.origin == b.origin && a.sequence == b.sequence
  }

  /** Delivery `i` is the first one of its (origin, sequence). */
  ghost predicate FirstDelivery(h: seq<Entry>, i: nat)
    requires i < |h|
  {
    forall j :: 0 <= j < i ==> !SameEntry(h[j], h[i])
  }

  predicate Relevant(local: string, e: Entry) {
    e.origin != local && e.sequence > 0
  }

  /** The first deliveries of each foreign origin come in increasing sequence. */
  ghost predicate FirstDeliveriesInOrder(local: string, h: seq<Entry>) {
    forall i, j :: 0 <= i < j < |h| && Relevant(local, h[i]) && Relevant(local, h[j]) ==>
      h[i].origin == h[j].origin && FirstDelivery(h, i) && FirstDelivery(h, j) ==> h[i].sequence < h[j].sequence
  }

  /** Every foreign entry with a positive sequence that was delivered was accepted at its first delivery. */
  ghost predicate NothingMissed(local: string, h: seq<Entry>) {
    forall i :: 0 <= i < |h| && Relevant(local, h[i]) && FirstDelivery(h, i) ==>
      Accepts(local, MaximaAfter(local, map[], h[..i]), h[i])
  }

  /** What the filter accepts at a delivery is in its output. */
  lemma {:induction false} AcceptedIsKept(local: string, h: seq<Entry>, n: nat, i: nat)
    requires i < n <= |h| && Accepts(local, MaximaAfter(local, map[], h[..i]), h[i])
    ensures h[i] in Accepted(local, map[], h[..n])
  {
    assert h[..n][..n - 1] == h[..n - 1];
    if i < n - 1 {
      AcceptedIsKept(local, h, n - 1, i);
    }
  }

  lemma InOrderIsMaximum(local: string, h: seq<Entry>, i: nat)
    requires FirstDeliveriesInOrder(local, h) && i < |h| && Relevant(local, h[i]) && FirstDelivery(h, i)
    ensures IsRunningMaximum(local, h, i)
  {
    forall j | 0 <= j < i && h[j].origin == h[i].origin ensures h[j].sequence < h[i].sequence {
      if h[j].sequence > 0 {
        var k := FirstOf(h, j);
      }
    }
  }

  lemma {:induction false} FirstOf(h: seq<Entry>, j: nat) returns (i: nat)
    requires j < |h|
    ensures i <= j && SameEntry(h[i], h[j]) && FirstDelivery(h, i)
  {
    if FirstDelivery(h, j) {
      i := j;
    } else {
      var k :| 0 <= k < j && SameEntry(h[k], h[j]);
      i := FirstOf(h, k);
    }
  }

  /** Of two entries of one origin that arrive in the wrong order the smaller one is dropped. */
  lemma LateEntryIsDropped(local: string, e: Entry, late: Entry)
    requires e.origin == late.origin && Relevant(local, e) && late.sequence < e.sequence
    ensures Accepted(local, map[], [e, late]) == [e]
  {
    assert [e, late][..1] == [e] && [e][..0] == [];
    assert MaximaAfter(local, map[], []) == map[] && Accepted(local, map[], []) == [];
    assert MaximaAfter(local, map[], [e]) == map[e.origin := e.sequence];
    assert Accepted(local, map[], [e]) == [e];
  }

  /** The filter misses nothing if and only if first deliveries arrive in order, and then keeps them all. */
  lemma NothingMissedIffInOrder(local: string, h: seq<Entry>)
    ensures NothingMissed(local, h) <==> FirstDeliveriesInOrder(local, h)
    ensures NothingMissed(local, h) ==>
              forall i :: 0 <= i < |h| && Relevant(local, h[i]) && FirstDelivery(h, i) ==>
                h[i] in Accepted(local, map[], h)
  {
    forall i | 0 <= i < |h|
      ensures Accepts(local, MaximaAfter(local, map[], h[..i]), h[i]) <==> IsRunningMaximum(local, h, i)
      ensures Accepts(local, MaximaAfter(local, map[], h[..i]), h[i]) ==> h[i] in Accepted(local, map[], h)
    {
      AcceptsIffMaximum(local, h, i);
      if Accepts(local, MaximaAfter(local, map[], h[..i]), h[i]) {
        assert h[..|h|] == h;
        AcceptedIsKept(local, h, |h|, i);
      }
    }
    if FirstDeliveriesInOrder(local, h) {
      forall i | 0 <= i < |h| && Relevant(local, h[i]) && FirstDelivery(h, i) ensures IsRunningMaximum(local, h, i) {
        InOrderIsMaximum(local, h, i);
      }
    }
  }
}
