/**
 Replication intake, part two (src/cluster/manager.rs, src/storage/collection/crud.rs): accepted
 entries are regrouped, upserts first and collection by collection, deletes last. The batched
 upsert merges every document into what the collection held before the batch.
 */
module SyncApply {
  import opened Wrappers
  import opened SyncIntake

  type Store = map<Collection, map<string, Doc>>

  /** Whether this node replicates the shard of a document: any predicate of collection and key. */
  type Routing = (Collection, string) -> bool

  function Lookup(docs: map<string, Doc>, key: string): Option<Doc> {
    if key in docs then Some(docs[key]) else None
  }

  function Find(s: Store, c: Collection, key: string): Option<Doc> {
    if c in s then Lookup(s[c], key) else None
  }

  /** Updating a stored document merges the new fields into it. */
  function Merge(base: Option<Doc>, d: Doc): Doc {
    if base.Some? then base.value + d else d
  }

  predicate IsUpsert(e: Entry) {
    (e.op == Insert || e.op == Update) && e.data.Some?
  }

  // ---------------------------------------------------------------------------
  // Reference: entries applied one by one
  // ---------------------------------------------------------------------------

  function ApplyOne(keep: Routing, s: Store, e: Entry): Store {
    if e.coll !in s then s
    else if e.op == Delete then s[e.coll := s[e.coll] - {e.key}]
    else if e.data.Some? && keep(e.coll, e.key) then
      s[e.coll := s[e.coll][e.key := Merge(Lookup(s[e.coll], e.key), e.data.value)]]
    else s
  }

  function ApplyEach(keep: Routing, s: Store, es: seq<Entry>): Store {
    if es == [] then s else ApplyOne(keep, ApplyEach(keep, s, es[..|es| - 1]), es[|es| - 1])
  }

  // ---------------------------------------------------------------------------
  // The code: group, upsert per collection, then delete
  // ---------------------------------------------------------------------------

  /** The group of one collection, in entry order. */
  function Group(es: seq<Entry>, c: Collection): seq<(string, Doc)> {
    if es == [] then []
    else
      var e := es[|es| - 1];
      Group(es[..|es| - 1], c) + if e.coll == c && IsUpsert(e) then [(e.key, e.data.value)] else []
  }

  function Deletes(es: seq<Entry>): seq<Entry> {
    if es == [] then []
    else Deletes(es[..|es| - 1]) + if es[|es| - 1].op == Delete then [es[|es| - 1]] else []
  }

  function Routed(keep: Routing, c: Collection, docs: seq<(string, Doc)>): seq<(string, Doc)> {
    if docs == [] then []
    else Routed(keep, c, docs[..|docs| - 1]) + if keep(c, docs[|docs| - 1].0) then [docs[|docs| - 1]] else []
  }

  /** `upsert_batch`: each document merges into the collection as it was before the batch. */
  function Upserted(base: map<string, Doc>, docs: seq<(string, Doc)>): map<string, Doc> {
    if docs == [] then base
    else
      var (key, d) := docs[|docs| - 1];
      Upserted(base, docs[..|docs| - 1])[key := Merge(Lookup(base, key), d)]
  }

  function Deleted(s: Store, dels: seq<Entry>): Store {
    if dels == [] then s
    else
      var s', e := Deleted(s, dels[..|dels| - 1]), dels[|dels| - 1];
      if e.coll in s' then s'[e.coll := s'[e.coll] - {e.key}] else s'
  }

  ghost function GroupedStore(keep: Routing, s: Store, es: seq<Entry>): Store {
    Deleted(map c | c in s :: Upserted(s[c], Routed(keep, c, Group(es, c))), Deletes(es))
  }

  method UpsertBatch(base: map<string, Doc>, docs: seq<(string, Doc)>) returns (r: map<string, Doc>)
    ensures r == Upserted(base, docs)
  {
    r := base;
    for i := 0 to |docs|
      invariant r == Upserted(base, docs[..i])
    {
      assert docs[..i + 1][..i] == docs[..i];
      var (key, d) := docs[i];
      r := r[key := Merge(Lookup(base, key), d)];
    }
    assert docs[..|docs|] == docs;
  }

  method RouteDocs(keep: Routing, c: Collection, docs: seq<(string, Doc)>) returns (r: seq<(string, Doc)>)
    ensures r == Routed(keep, c, docs)
  {
    r := [];
    for i := 0 to |docs|
      invariant r == Routed(keep, c, docs[..i])
    {
      assert docs[..i + 1][..i] == docs[..i];
      if keep(c, docs[i].0) {
        r := r + [docs[i]];
      }
    }
    assert docs[..|docs|] == docs;
  }

  method GroupEntries(es: seq<Entry>) returns (groups: map<Collection, seq<(string, Doc)>>, others: seq<Entry>)
    ensures forall c :: DocsOf(groups, c) == Group(es, c)
    ensures others == Deletes(es)
  {
    groups, others := map[], [];
    for i := 0 to |es|
      invariant forall c :: DocsOf(groups, c) == Group(es[..i], c)
      invariant others == Deletes(es[..i])
    {
      var e := es[i];
      FiledMore(groups, es, i);
      ghost var filed := Filed(groups, e);
      if e.op == Insert || e.op == Update {
        if e.data.Some? {
          groups := groups[e.coll := DocsOf(groups, e.coll) + [(e.key, e.data.value)]];
        }
      } else {
        others := others + [e];
      }
      assert groups == filed;
    }
    assert es[..|es|] == es;
  }

  lemma GroupMore(es: seq<Entry>, e: Entry, c: Collection)
    ensures Group(es + [e], c) == Group(es, c) + if e.coll == c && IsUpsert(e) then [(e.key, e.data.value)] else []
  {
    assert (es + [e])[..|es|] == es;
  }

  lemma DeletesMore(es: seq<Entry>, e: Entry)
    ensures Deletes(es + [e]) == Deletes(es) + if e.op == Delete then [e] else []
  {
    assert (es + [e])[..|es|] == es;
  }

  /** The groups after one more entry. */
  function Filed(groups: map<Collection, seq<(string, Doc)>>, e: Entry): map<Collection, seq<(string, Doc)>> {
    if IsUpsert(e) then groups[e.coll := DocsOf(groups, e.coll) + [(e.key, e.data.value)]] else groups
  }

  lemma FiledDocs(groups: map<Collection, seq<(string, Doc)>>, e: Entry, c: Collection)
    ensures DocsOf(Filed(groups, e), c)
         == DocsOf(groups, c) + if e.coll == c && IsUpsert(e) then [(e.key, e.data.value)] else []
  {
  }

  lemma FiledMore(groups: map<Collection, seq<(string, Doc)>>, es: seq<Entry>, i: nat)
    requires i < |es| && forall c :: DocsOf(groups, c) == Group(es[..i], c)
    ensures forall c :: DocsOf(Filed(groups, es[i]), c) == Group(es[..i + 1], c)
    ensures Deletes(es[..i + 1]) == Deletes(es[..i]) + if es[i].op == Delete then [es[i]] else []
  {
    var front, e := es[..i], es[i];
    assert es[..i + 1] == front + [e];
    forall c ensures DocsOf(Filed(groups, e), c) == Group(front + [e], c) {
      FiledDocs(groups, e, c);
      GroupMore(front, e, c);
    }
    DeletesMore(front, e);
  }

  function DocsOf(groups: map<Collection, seq<(string, Doc)>>, c: Collection): seq<(string, Doc)> {
    if c in groups then groups[c] else []
  }

  /** The groups come out of a hash map in any order. */
  method ApplyGroups(keep: Routing, store: Store, groups: map<Collection, seq<(string, Doc)>>) returns (r: Store)
    ensures r == map c | c in store :: Upserted(store[c], Routed(keep, c, DocsOf(groups, c)))
  {
    r := store;
    var pending := groups.Keys;
    while pending != {}
      invariant pending <= groups.Keys && r.Keys == store.Keys
      invariant forall c :: c in pending && c in store ==> r[c] == store[c]
      invariant forall c :: c !in pending && c in store ==>
                  r[c] == Upserted(store[c], Routed(keep, c, DocsOf(groups, c)))
      decreases pending
    {
      var c :| c in pending;
      pending := pending - {c};
      if c in store {
        var docs := RouteDocs(keep, c, groups[c]);
        if docs != [] {
          var updated := UpsertBatch(store[c], docs);
          r := r[c := updated];
        }
      }
    }
  }

  method ApplyDeletes(store: Store, dels: seq<Entry>) returns (r: Store)
    ensures r == Deleted(store, dels)
  {
    r := store;
    for i := 0 to |dels|
      invariant r == Deleted(store, dels[..i])
    {
      assert dels[..i + 1][..i] == dels[..i];
      var e := dels[i];
      if e.coll in r {
        r := r[e.coll := r[e.coll] - {e.key}];
      }
    }
    assert dels[..|dels|] == dels;
  }

  class Replica {
    const origins: OriginSequences
    const keep: Routing
    var store: Store

    constructor (local: string, keep: Routing, store: Store)
      ensures fresh(origins) && origins.local == local && origins.maxima == map[]
      ensures this.keep == keep && this.store == store
    {
      origins := new OriginSequences(local);
      this.keep := keep;
      this.store := store;
    }

    method HandleSyncMessage(entries: seq<Entry>) returns (applied: nat)
      modifies this, origins
      ensures origins.maxima == MaximaAfter(origins.local, old(origins.maxima), entries)
      ensures var valid := Accepted(origins.local, old(origins.maxima), entries);
              applied == |valid| && store == GroupedStore(keep, old(store), valid)
    {
      var valid := origins.Filter(entries);
      var groups, others := GroupEntries(valid);
      store := ApplyGroups(keep, store, groups);
      assert store == map c | c in old(store) :: Upserted(old(store)[c], Routed(keep, c, Group(valid, c)));
      store := ApplyDeletes(store, others);
      applied := |valid|;
    }
  }

  // ---------------------------------------------------------------------------
  // One document at a time
  // ---------------------------------------------------------------------------

  datatype DocOp = Put(doc: Doc) | Drop

  /** What a batch does to one document, in entry order. */
  function OpsOf(keep: Routing, es: seq<Entry>, c: Collection, key: string): seq<DocOp> {
    if es == [] then []
    else
      var e := es[|es| - 1];
      OpsOf(keep, es[..|es| - 1], c, key)
      + if e.coll != c || e.key != key then []
        else if e.op == Delete then [Drop]
        else if e.data.Some? && keep(c, key) then [Put(e.data.value)]
        else []
  }

  function InOrder(base: Option<Doc>, ops: seq<DocOp>): Option<Doc> {
    if ops == [] then base
    else match ops[|ops| - 1]
      case Put(d) => Some(Merge(InOrder(base, ops[..|ops| - 1]), d))
      case Drop => None
  }

  function LastPut(ops: seq<DocOp>): Option<Doc> {
    if ops == [] then None
    else if ops[|ops| - 1].Put? then Some(ops[|ops| - 1].doc)
    else LastPut(ops[..|ops| - 1])
  }

  function Regrouped(base: Option<Doc>, ops: seq<DocOp>): Option<Doc> {
    if Drop in ops then None
    else match LastPut(ops)
      case None => base
      case Some(d) => Some(Merge(base, d))
  }

  lemma {:induction false} ApplyEachPerDocument(keep: Routing, s: Store, es: seq<Entry>, c: Collection, key: string)
    ensures ApplyEach(keep, s, es).Keys == s.Keys
    ensures c in s ==> Find(ApplyEach(keep, s, es), c, key) == InOrder(Find(s, c, key), OpsOf(keep, es, c, key))
  {
    if es != [] {
      ApplyEachPerDocument(keep, s, es[..|es| - 1], c, key);
      var ops, ops0 := OpsOf(keep, es, c, key), OpsOf(keep, es[..|es| - 1], c, key);
      assert |ops| > |ops0| ==> ops[..|ops| - 1] == ops0;
      assert |ops| == |ops0| ==> ops == ops0;
    }
  }

  function LastFor(docs: seq<(string, Doc)>, key: string): Option<Doc> {
    if docs == [] then None
    else if docs[|docs| - 1].0 == key then Some(docs[|docs| - 1].1)
    else LastFor(docs[..|docs| - 1], key)
  }

  lemma {:induction false} UpsertedPerDocument(base: map<string, Doc>, docs: seq<(string, Doc)>, key: string)
    ensures Lookup(Upserted(base, docs), key)
         == match LastFor(docs, key)
            case None => Lookup(base, key)
            case Some(d) => Some(Merge(Lookup(base, key), d))
  {
    if docs != [] {
      UpsertedPerDocument(base, docs[..|docs| - 1], key);
    }
  }

  lemma {:induction false} RoutedLast(keep: Routing, c: Collection, docs: seq<(string, Doc)>, key: string)
    ensures LastFor(Routed(keep, c, docs), key) == if keep(c, key) then LastFor(docs, key) else None
  {
    if docs != [] {
      var init := docs[..|docs| - 1];
      RoutedLast(keep, c, init, key);
      var r, r0 := Routed(keep, c, docs), Routed(keep, c, init);
      assert |r| > |r0| ==> r[..|r| - 1] == r0;
      assert |r| == |r0| ==> r == r0;
    }
  }

  lemma {:induction false} GroupLast(keep: Routing, es: seq<Entry>, c: Collection, key: string)
    ensures keep(c, key) ==> LastFor(Group(es, c), key) == LastPut(OpsOf(keep, es, c, key))
    ensures !keep(c, key) ==> LastPut(OpsOf(keep, es, c, key)) == None
  {
    if es != [] {
      var init := es[..|es| - 1];
      GroupLast(keep, init, c, key);
      var g, g0 := Group(es, c), Group(init, c);
      assert |g| > |g0| ==> g[..|g| - 1] == g0;
      assert |g| == |g0| ==> g == g0;
      var ops, ops0 := OpsOf(keep, es, c, key), OpsOf(keep, init, c, key);
      assert |ops| > |ops0| ==> ops[..|ops| - 1] == ops0;
      assert |ops| == |ops0| ==> ops == ops0;
    }
  }

  predicate Removes(dels: seq<Entry>, c: Collection, key: string) {
    exists k :: 0 <= k < |dels| && dels[k].coll == c && dels[k].key == key
  }

  lemma {:induction false} DeletedPerDocument(s: Store, dels: seq<Entry>, c: Collection, key: string)
    ensures Deleted(s, dels).Keys == s.Keys
    ensures c in s ==> Find(Deleted(s, dels), c, key) == if Removes(dels, c, key) then None else Find(s, c, key)
  {
    if dels != [] {
      var init := dels[..|dels| - 1];
      DeletedPerDocument(s, init, c, key);
      assert Removes(dels, c, key)
        <==> Removes(init, c, key) || (dels[|dels| - 1].coll == c && dels[|dels| - 1].key == key) by {
        assert dels == init + [dels[|dels| - 1]];
        if Removes(init, c, key) {
          var k :| 0 <= k < |init| && init[k].coll == c && init[k].key == key;
          assert dels[k] == init[k];
        }
      }
    }
  }

  lemma {:induction false} DeletesAreDrops(keep: Routing, es: seq<Entry>, c: Collection, key: string)
    ensures Removes(Deletes(es), c, key) <==> Drop in OpsOf(keep, es, c, key)
  {
    if es != [] {
      var init, e := es[..|es| - 1], es[|es| - 1];
      DeletesAreDrops(keep, init, c, key);
      var d, d0 := Deletes(es), Deletes(init);
      assert Removes(d, c, key) <==> Removes(d0, c, key) || (e.op == Delete && e.coll == c && e.key == key) by {
        if Removes(d0, c, key) {
          var k :| 0 <= k < |d0| && d0[k].coll == c && d0[k].key == key;
          assert d[k] == d0[k];
        }
        if e.op == Delete { assert d[|d| - 1] == e; }
      }
    }
  }

  /** The regrouped batch, seen by one document. */
  lemma GroupedPerDocument(keep: Routing, s: Store, es: seq<Entry>, c: Collection, key: string)
    ensures GroupedStore(keep, s, es).Keys == s.Keys
    ensures c in s ==> Find(GroupedStore(keep, s, es), c, key) == Regrouped(Find(s, c, key), OpsOf(keep, es, c, key))
  {
    var upserted := map c | c in s :: Upserted(s[c], Routed(keep, c, Group(es, c)));
    DeletedPerDocument(upserted, Deletes(es), c, key);
    DeletesAreDrops(keep, es, c, key);
    if c in s {
      UpsertedPerDocument(s[c], Routed(keep, c, Group(es, c)), key);
      RoutedLast(keep, c, Group(es, c), key);
      GroupLast(keep, es, c, key);
    }
  }

  // ---------------------------------------------------------------------------
  // When regrouping preserves the meaning of a batch
  // ---------------------------------------------------------------------------

  /** All fields written by the upserts of a document, later ones winning. */
  function Written(ops: seq<DocOp>): Doc {
    if ops == [] then map[]
    else if ops[|ops| - 1].Put? then Written(ops[..|ops| - 1]) + ops[|ops| - 1].doc
    else Written(ops[..|ops| - 1])
  }

  /**
   With a delete among them, the operations on a document must end in a delete. Without one,
   every field that the last upsert leaves out must already be stored with the value the earlier
   upserts give it.
   */
  ghost predicate OrderSafe(base: Option<Doc>, ops: seq<DocOp>) {
    if Drop in ops then ops[|ops| - 1] == Drop
    else forall f :: f in Written(ops) && f !in LastPut(ops).value ==>
      base.Some? && f in base.value && base.value[f] == Written(ops)[f]
  }

  lemma {:induction false} PutsMerge(base: Option<Doc>, ops: seq<DocOp>)
    requires Drop !in ops
    ensures ops == [] <==> LastPut(ops).None?
    ensures ops != [] ==> InOrder(base, ops) == Some(Merge(base, Written(ops)))
    ensures ops != [] ==>
              forall f :: f in LastPut(ops).value ==> f in Written(ops) && Written(ops)[f] == LastPut(ops).value[f]
  {
    if ops != [] {
      var init := ops[..|ops| - 1];
      assert Drop !in init && ops[|ops| - 1] != Drop;
      PutsMerge(base, init);
      if init == [] {
        assert Written(init) == map[];
        assert map[] + ops[|ops| - 1].doc == ops[|ops| - 1].doc;
      } else {
        var d := ops[|ops| - 1].doc;
        assert base.Some? ==> base.value + Written(init) + d == base.value + (Written(init) + d);
      }
    }
  }

  lemma {:induction false} EndsInPut(base: Option<Doc>, ops: seq<DocOp>)
    requires ops != []
    ensures InOrder(base, ops).Some? <==> ops[|ops| - 1] != Drop
  {
  }

  lemma MergesAgreeIff(base: Option<Doc>, written: Doc, last: Doc)
    requires forall f :: f in last ==> f in written && written[f] == last[f]
    ensures Merge(base, written) == Merge(base, last) <==>
            forall f :: f in written && f !in last ==> base.Some? && f in base.value && base.value[f] == written[f]
  {
    var full, short := Merge(base, written), Merge(base, last);
    if full == short {
      forall f | f in written && f !in last ensures base.Some? && f in base.value && base.value[f] == written[f] {
        assert f in full && full[f] == written[f];
      }
    }
  }

  /** Regrouping gives one document the same final value if and only if its operations are safe. */
  lemma RegroupedIffSafe(base: Option<Doc>, ops: seq<DocOp>)
    ensures InOrder(base, ops) == Regrouped(base, ops) <==> OrderSafe(base, ops)
  {
    if Drop in ops {
      EndsInPut(base, ops);
    } else if ops != [] {
      PutsMerge(base, ops);
      MergesAgreeIff(base, Written(ops), LastPut(ops).value);
    }
  }

  ghost predicate BatchSafe(keep: Routing, s: Store, es: seq<Entry>) {
    forall c, key {:trigger OpsOf(keep, es, c, key)} :: c in s ==> OrderSafe(Find(s, c, key), OpsOf(keep, es, c, key))
  }

  lemma SameStore(s: Store, t: Store)
    requires s.Keys == t.Keys
    requires forall c, key {:trigger Find(s, c, key)} :: c in s ==> Find(s, c, key) == Find(t, c, key)
    ensures s == t
  {
    forall c | c in s ensures s[c] == t[c] {
      forall key ensures Lookup(s[c], key) == Lookup(t[c], key) {
        assert Find(s, c, key) == Find(t, c, key);
      }
      assert forall key :: key in s[c] <==> key in t[c] by {
        forall key ensures key in s[c] <==> key in t[c] {
          assert Lookup(s[c], key) == Lookup(t[c], key);
        }
      }
      assert forall key :: key in s[c] ==> s[c][key] == t[c][key] by {
        forall key | key in s[c] ensures s[c][key] == t[c][key] {
          assert Lookup(s[c], key) == Lookup(t[c], key);
        }
      }
    }
  }

  /**
   Main theorem. For every store, batch and routing, the regrouped batch leaves the same store as
   applying its entries one by one if and only if the operations on every document are safe.
   */
  lemma GroupedEqualsOneByOneIffSafe(keep: Routing, s: Store, es: seq<Entry>)
    ensures GroupedStore(keep, s, es) == ApplyEach(keep, s, es) <==> BatchSafe(keep, s, es)
  {
    var g, a := GroupedStore(keep, s, es), ApplyEach(keep, s, es);
    forall c, key
      ensures g.Keys == a.Keys == s.Keys
      ensures c in s ==> (Find(g, c, key) == Find(a, c, key) <==> OrderSafe(Find(s, c, key), OpsOf(keep, es, c, key)))
    {
      GroupedPerDocument(keep, s, es, c, key);
      ApplyEachPerDocument(keep, s, es, c, key);
      RegroupedIffSafe(Find(s, c, key), OpsOf(keep, es, c, key));
    }
    if BatchSafe(keep, s, es) {
      forall c, key | c in s ensures Find(g, c, key) == Find(a, c, key) {
        assert OrderSafe(Find(s, c, key), OpsOf(keep, es, c, key));
      }
      GroupedPerDocument(keep, s, es, ("", ""), "");
      ApplyEachPerDocument(keep, s, es, ("", ""), "");
      SameStore(g, a);
    }
  }

  /** No upsert follows a delete, and later upserts carry all fields of earlier ones. */
  ghost predicate Covering(ops: seq<DocOp>) {
    && (forall i, j :: 0 <= i < j < |ops| && ops[i].Drop? ==> ops[j].Drop?)
    && (forall i, j :: 0 <= i < j < |ops| && ops[i].Put? && ops[j].Put? ==> ops[i].doc.Keys <= ops[j].doc.Keys)
  }

  lemma {:induction false} WrittenByLast(ops: seq<DocOp>)
    requires Covering(ops) && Drop !in ops && ops != []
    ensures Written(ops) == LastPut(ops).value
  {
    var init := ops[..|ops| - 1];
    assert ops[|ops| - 1] in ops && forall o :: o in init ==> o in ops;
    if init != [] {
      assert Covering(init) && Drop !in init;
      WrittenByLast(init);
      assert init[|init| - 1].doc.Keys <= ops[|ops| - 1].doc.Keys;
    } else {
      assert Written(init) == map[];
    }
  }

  lemma CoveringIsSafe(base: Option<Doc>, ops: seq<DocOp>)
    requires Covering(ops)
    ensures OrderSafe(base, ops)
  {
    if Drop !in ops && ops != [] {
      WrittenByLast(ops);
    }
  }

  /** Whole-document replication: batches of covering upserts followed by deletes are never changed by regrouping. */
  lemma CoveringBatchPreserved(keep: Routing, s: Store, es: seq<Entry>)
    requires forall c, key {:trigger OpsOf(keep, es, c, key)} :: Covering(OpsOf(keep, es, c, key))
    ensures GroupedStore(keep, s, es) == ApplyEach(keep, s, es)
  {
    forall c, key | c in s ensures OrderSafe(Find(s, c, key), OpsOf(keep, es, c, key)) {
      CoveringIsSafe(Find(s, c, key), OpsOf(keep, es, c, key));
    }
    GroupedEqualsOneByOneIffSafe(keep, s, es);
  }

  lemma OneOperation(keep: Routing, e: Entry, c: Collection, key: string)
    ensures Covering(OpsOf(keep, [e], c, key))
  {
    var one := [e];
    assert one[..0] == [];
  }

  /** The reference is the intake itself, run on batches of one entry. */
  lemma OneEntryBatch(keep: Routing, s: Store, e: Entry)
    ensures GroupedStore(keep, s, [e]) == ApplyOne(keep, s, e)
  {
    forall c, key ensures Covering(OpsOf(keep, [e], c, key)) {
      OneOperation(keep, e, c, key);
    }
    CoveringBatchPreserved(keep, s, [e]);
    var one := [e];
    assert one[..0] == [];
    assert ApplyEach(keep, s, one) == ApplyOne(keep, s, e);
  }

  /** What a batch of two entries for the same document, both kept, does to it. */
  lemma OpsOfTwo(keep: Routing, a: Entry, b: Entry)
    requires a.coll == b.coll && a.key == b.key && keep(a.coll, a.key)
    requires (a.op == Delete || a.data.Some?) && (b.op == Delete || b.data.Some?)
    ensures OpsOf(keep, [a, b], a.coll, a.key)
         == [if a.op == Delete then Drop else Put(a.data.value)] + [if b.op == Delete then Drop else Put(b.data.value)]
  {
    assert [a, b][..1] == [a] && [a][..0] == [];
    assert OpsOf(keep, [a], a.coll, a.key) == [if a.op == Delete then Drop else Put(a.data.value)];
  }

  lemma PartialPutsUnsafe(f: string, g: string, v: string, w: string)
    requires f != g
    ensures !OrderSafe(None, [Put(map[f := v])] + [Put(map[g := w])])
  {
    var first, ops := [Put(map[f := v])], [Put(map[f := v])] + [Put(map[g := w])];
    assert ops[..1] == first && first[..0] == [];
    assert Written(first) == map[f := v];
    assert f in Written(ops);
  }

  /** Deleting and re-inserting a document in one batch loses it, whatever its content. */
  lemma ReinsertIsLost(keep: Routing, a: Entry, b: Entry)
    requires a.coll == b.coll && a.key == b.key && keep(a.coll, a.key) && a.op == Delete && IsUpsert(b)
    ensures GroupedStore(keep, map[a.coll := map[]], [a, b]) != ApplyEach(keep, map[a.coll := map[]], [a, b])
  {
    OpsOfTwo(keep, a, b);
    GroupedEqualsOneByOneIffSafe(keep, map[a.coll := map[]], [a, b]);
    assert Drop in OpsOf(keep, [a, b], a.coll, a.key);
    assert !OrderSafe(None, OpsOf(keep, [a, b], a.coll, a.key));
  }

  /** Two partial updates of one document in one batch: the field of the first is lost. */
  lemma FirstPartialUpdateIsLost(keep: Routing, a: Entry, b: Entry, f: string, g: string, v: string, w: string)
    requires a.coll == b.coll && a.key == b.key && keep(a.coll, a.key) && IsUpsert(a) && IsUpsert(b)
    requires f != g && a.data == Some(map[f := v]) && b.data == Some(map[g := w])
    ensures GroupedStore(keep, map[a.coll := map[]], [a, b]) != ApplyEach(keep, map[a.coll := map[]], [a, b])
  {
    OpsOfTwo(keep, a, b);
    PartialPutsUnsafe(f, g, v, w);
    GroupedEqualsOneByOneIffSafe(keep, map[a.coll := map[]], [a, b]);
    assert !OrderSafe(None, OpsOf(keep, [a, b], a.coll, a.key));
  }
}
