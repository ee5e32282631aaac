/**
 What a node's member table says about its past: node, status and sequence of every entry are those of
 the last update that concerned them.
 */
module MemberHistory {
  import opened Membership

  /** The four updates of the member table. */
  datatype Update =
    | Add(node: Node, status: Status)
    | Beat(id: NodeId, sequence: nat)
    | Mark(id: NodeId, status: Status)
    | Remove(id: NodeId)

  function Updated(m: Members, u: Update): Members {
    match u
    case Add(node, status) => m[node.id := Member(node, status, 0)]
    case Beat(id, sequence) => WithHeartbeat(m, id, sequence)
    case Mark(id, status) => WithStatus(m, id, status)
    case Remove(id) => m - {id}
  }

  function Table(m: Members, us: seq<Update>): Members {
    if us == [] then m else Updated(Table(m, us[..|us| - 1]), us[|us| - 1])
  }

  // ---------------------------------------------------------------------------
  // What an entry should be, from the whole past
  // ---------------------------------------------------------------------------

  predicate Adds(u: Update, id: NodeId) {
    u.Add? && u.node.id == id
  }

  predicate Beats(u: Update, id: NodeId) {
    u.Beat? && u.id == id
  }

  predicate Rates(u: Update, id: NodeId) {
    Adds(u, id) || (u.Mark? && u.id == id)
  }

  /** Update `i` brought in the entry that stands for `id` now. */
  ghost predicate Entered(us: seq<Update>, id: NodeId, i: nat) {
    i < |us| && Adds(us[i], id) && forall k :: i < k < |us| ==> !Adds(us[k], id) && us[k] != Remove(id)
  }

  /** A heartbeat of `id` came after update `i`. */
  ghost predicate Heard(us: seq<Update>, id: NodeId, i: nat) {
    exists k :: i < k < |us| && Beats(us[k], id)
  }

  ghost predicate LastHeard(us: seq<Update>, id: NodeId, k: nat) {
    k < |us| && Beats(us[k], id) && forall l :: k < l < |us| ==> !Beats(us[l], id)
  }

  /** Update `j` was the last that set the status of `id`. */
  ghost predicate LastRated(us: seq<Update>, id: NodeId, j: nat) {
    j < |us| && Rates(us[j], id) && forall k :: j < k < |us| ==> !Rates(us[k], id)
  }

  /** The node is the one added last. */
  ghost predicate NodeTold(us: seq<Update>, id: NodeId, node: Node) {
    exists i: nat :: Entered(us, id, i) && us[i].node == node
  }

  /** The sequence is that of the last heartbeat since the entry was added, or zero. */
  ghost predicate SequenceTold(us: seq<Update>, id: NodeId, sequence: nat) {
    exists i: nat :: Entered(us, id, i) &&
      if Heard(us, id, i) then exists k: nat :: LastHeard(us, id, k) && us[k].sequence == sequence else sequence == 0
  }

  /** The status is the one set last, but a heartbeat since then lifts a suspicion. */
  ghost predicate StatusTold(us: seq<Update>, id: NodeId, status: Status) {
    exists j: nat :: LastRated(us, id, j) &&
      status == if us[j].status == Suspected && Heard(us, id, j) then Active else us[j].status
  }

  // ---------------------------------------------------------------------------
  // One more update
  // ---------------------------------------------------------------------------

  lemma EnteredMore(us: seq<Update>, u: Update, id: NodeId, i: nat)
    ensures Entered(us + [u], id, i)
       <==> if i == |us| then Adds(u, id) else Entered(us, id, i) && !Adds(u, id) && u != Remove(id)
  {
    var all := us + [u];
    assert forall k :: 0 <= k < |us| ==> all[k] == us[k];
    if i < |us| {
      assert all[|us|] == u;
    }
  }

  lemma HeardMore(us: seq<Update>, u: Update, id: NodeId, i: nat)
    requires i <= |us|
    ensures Heard(us + [u], id, i) <==> Heard(us, id, i) || (i < |us| && Beats(u, id))
  {
    var all := us + [u];
    assert forall k :: 0 <= k < |us| ==> all[k] == us[k];
    assert all[|us|] == u;
  }

  lemma LastHeardMore(us: seq<Update>, u: Update, id: NodeId, k: nat)
    ensures LastHeard(us + [u], id, k) <==> if k == |us| then Beats(u, id) else LastHeard(us, id, k) && !Beats(u, id)
  {
    var all := us + [u];
    assert forall l :: 0 <= l < |us| ==> all[l] == us[l];
    if k < |us| {
      assert all[|us|] == u;
    }
  }

  lemma LastRatedMore(us: seq<Update>, u: Update, id: NodeId, j: nat)
    ensures LastRated(us + [u], id, j) <==> if j == |us| then Rates(u, id) else LastRated(us, id, j) && !Rates(u, id)
  {
    var all := us + [u];
    assert forall k :: 0 <= k < |us| ==> all[k] == us[k];
    if j < |us| {
      assert all[|us|] == u;
    }
  }

  lemma NodeStep(us: seq<Update>, u: Update, id: NodeId, node: Node)
    requires if Adds(u, id) then node == u.node else NodeTold(us, id, node) && u != Remove(id)
    ensures NodeTold(us + [u], id, node)
  {
    var all := us + [u];
    if Adds(u, id) {
      EnteredMore(us, u, id, |us|);
      assert all[|us|].node == node;
    } else {
      var i: nat :| Entered(us, id, i) && us[i].node == node;
      EnteredMore(us, u, id, i);
      assert all[i].node == node;
    }
  }

  lemma SequenceStep(us: seq<Update>, u: Update, id: NodeId, before: nat, after: nat)
    requires Adds(u, id) || (SequenceTold(us, id, before) && u != Remove(id))
    requires after == if Adds(u, id) then 0 else if Beats(u, id) then u.sequence else before
    ensures SequenceTold(us + [u], id, after)
  {
    var all := us + [u];
    if Adds(u, id) {
      EnteredMore(us, u, id, |us|);
      assert !Heard(all, id, |us|);
    } else {
      var i: nat :| Entered(us, id, i) &&
        if Heard(us, id, i) then exists k: nat :: LastHeard(us, id, k) && us[k].sequence == before else before == 0;
      EnteredMore(us, u, id, i);
      HeardMore(us, u, id, i);
      if Beats(u, id) {
        LastHeardMore(us, u, id, |us|);
        assert all[|us|].sequence == after;
      } else if Heard(us, id, i) {
        var k: nat :| LastHeard(us, id, k) && us[k].sequence == before;
        LastHeardMore(us, u, id, k);
        assert all[k].sequence == after;
      }
    }
  }

  lemma StatusStep(us: seq<Update>, u: Update, id: NodeId, before: Status, after: Status)
    requires Rates(u, id) || StatusTold(us, id, before)
    requires after == if Rates(u, id) then u.status
                      else if Beats(u, id) && before == Suspected then Active else before
    ensures StatusTold(us + [u], id, after)
  {
    var all := us + [u];
    if Rates(u, id) {
      LastRatedMore(us, u, id, |us|);
      assert all[|us|].status == after && !Heard(all, id, |us|);
    } else {
      var j: nat :| LastRated(us, id, j) &&
        before == if us[j].status == Suspected && Heard(us, id, j) then Active else us[j].status;
      LastRatedMore(us, u, id, j);
      HeardMore(us, u, id, j);
      assert all[j].status == us[j].status;
    }
  }

  ghost predicate Told(us: seq<Update>, id: NodeId, m: Members) {
    && (id in m <==> exists i: nat :: Entered(us, id, i))
    && (id in m ==>
          && NodeTold(us, id, m[id].node)
          && SequenceTold(us, id, m[id].lastSequence)
          && StatusTold(us, id, m[id].status))
  }

  lemma PresentStep(us: seq<Update>, u: Update, id: NodeId, m: Members)
    requires id in m <==> exists i: nat :: Entered(us, id, i)
    ensures id in Updated(m, u) <==> exists i: nat :: Entered(us + [u], id, i)
  {
    if Adds(u, id) {
      EnteredMore(us, u, id, |us|);
    } else if u != Remove(id) && id in m {
      var i: nat :| Entered(us, id, i);
      EnteredMore(us, u, id, i);
    } else if exists i: nat :: Entered(us + [u], id, i) {
      var i: nat :| Entered(us + [u], id, i);
      EnteredMore(us, u, id, i);
    }
  }

  lemma ToldStep(us: seq<Update>, u: Update, id: NodeId, m: Members)
    requires Told(us, id, m)
    ensures Told(us + [u], id, Updated(m, u))
  {
    PresentStep(us, u, id, m);
    var m' := Updated(m, u);
    if id in m' {
      var before := if id in m then m[id] else m'[id];
      NodeStep(us, u, id, m'[id].node);
      SequenceStep(us, u, id, before.lastSequence, m'[id].lastSequence);
      StatusStep(us, u, id, before.status, m'[id].status);
    }
  }

  /** After any updates of an empty table, every entry tells the past, and there is one exactly if added last. */
  lemma {:induction false} EntriesTellHistory(us: seq<Update>, id: NodeId)
    ensures Told(us, id, Table(map[], us))
  {
    if us != [] {
      var front, last := us[..|us| - 1], us[|us| - 1];
      EntriesTellHistory(front, id);
      ToldStep(front, last, id, Table(map[], front));
      assert us == front + [last];
    }
  }

  // ---------------------------------------------------------------------------
  // The updates that messages cause
  // ---------------------------------------------------------------------------

  /** Every listed peer but the node itself is added as active, in the order of the list. */
  function Introduced(local: Node, peers: seq<Node>): seq<Update> {
    if peers == [] then []
    else
      var peer := peers[|peers| - 1];
      Introduced(local, peers[..|peers| - 1]) + if peer.id == local.id then [] else [Add(peer, Active)]
  }

  function Caused(local: Node, msg: Message): seq<Update> {
    match msg
    case JoinRequest(node) => [Add(node, Active)]
    case JoinResponse(success, peers) => if success then Introduced(local, peers) else []
    case Heartbeat(from, sequence) => [Beat(from, sequence)]
    case Leave(from) => [Remove(from)]
  }

  lemma {:induction false} TableAppend(m: Members, a: seq<Update>, b: seq<Update>)
    ensures Table(m, a + b) == Table(Table(m, a), b)
  {
    if b == [] {
      assert a + b == a;
    } else {
      TableAppend(m, a, b[..|b| - 1]);
      assert (a + b)[..|a + b| - 1] == a + b[..|b| - 1];
    }
  }

  lemma {:induction false} AbsorbIntroduces(local: Node, m: Members, peers: seq<Node>)
    ensures Absorb(local, m, peers).0 == Table(m, Introduced(local, peers))
  {
    if peers != [] {
      var init, peer := peers[..|peers| - 1], peers[|peers| - 1];
      AbsorbIntroduces(local, m, init);
      var us := Introduced(local, init);
      assert us + [] == us;
      assert (us + [Add(peer, Active)])[..|us|] == us;
    }
  }

  /** What a handler does to the table are the updates its message causes. */
  lemma HandlesCaused(local: Node, m: Members, msg: Message, m': Members, out: seq<Envelope>)
    requires Handles(local, m, msg, m', out)
    ensures m' == Table(m, Caused(local, msg))
  {
    match msg
    case JoinRequest(node) =>
      assert [Add(node, Active)][..0] == [];
    case JoinResponse(success, peers) =>
      AbsorbIntroduces(local, m, peers);
    case Heartbeat(from, sequence) =>
      assert [Beat(from, sequence)][..0] == [];
    case Leave(from) =>
      var us := [Remove(from)];
      assert us[..0] == [];
  }

  /** What can happen to a node's table: a message it handles, or a direct update by another component. */
  datatype Happening = Received(msg: Message) | Direct(update: Update)

  function UpdatesOf(local: Node, h: Happening): seq<Update> {
    match h
    case Received(msg) => Caused(local, msg)
    case Direct(u) => [u]
  }

  function AllUpdates(local: Node, hs: seq<Happening>): seq<Update> {
    if hs == [] then [Add(local, Active)]
    else AllUpdates(local, hs[..|hs| - 1]) + UpdatesOf(local, hs[|hs| - 1])
  }

  ghost predicate Happens(local: Node, m: Members, h: Happening, m': Members) {
    match h
    case Received(msg) => exists out :: Handles(local, m, msg, m', out)
    case Direct(u) => m' == Updated(m, u)
  }

  /** A manager's table from its construction on: before, between and after what happens. */
  ghost predicate Lived(local: Node, hs: seq<Happening>, tables: seq<Members>) {
    && |tables| == |hs| + 1 && tables[0] == Added(map[], local)
    && forall i :: 0 <= i < |hs| ==> Happens(local, tables[i], hs[i], tables[i + 1])
  }

  lemma HappensUpdates(local: Node, m: Members, h: Happening, m': Members)
    requires Happens(local, m, h, m')
    ensures m' == Table(m, UpdatesOf(local, h))
  {
    match h
    case Received(msg) =>
      var out :| Handles(local, m, msg, m', out);
      HandlesCaused(local, m, msg, m', out);
    case Direct(u) =>
      assert [u][..0] == [];
  }

  lemma {:induction false} LivedTable(local: Node, hs: seq<Happening>, tables: seq<Members>)
    requires Lived(local, hs, tables)
    ensures tables[|hs|] == Table(map[], AllUpdates(local, hs))
    decreases |hs|
  {
    if hs == [] {
      assert [Add(local, Active)][..0] == [];
    } else {
      var n := |hs| - 1;
      LivedTable(local, hs[..n], tables[..n + 1]);
      HappensUpdates(local, tables[n], hs[n], tables[n + 1]);
      TableAppend(map[], AllUpdates(local, hs[..n]), UpdatesOf(local, hs[n]));
    }
  }

  /** However a node lived, its table tells which messages and marks it took last about whom. */
  lemma MembersTellMessages(local: Node, hs: seq<Happening>, tables: seq<Members>, id: NodeId)
    requires Lived(local, hs, tables)
    ensures Told(AllUpdates(local, hs), id, tables[|hs|])
  {
    LivedTable(local, hs, tables);
    EntriesTellHistory(AllUpdates(local, hs), id);
  }
}
