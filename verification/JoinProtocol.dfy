/**
 The join handshake as a protocol: nodes with member tables and a bag of messages in flight.
 Messages are neither lost nor duplicated and nobody leaves; delivery order, concurrent joins and
 status changes are arbitrary, those of a node's own status included: it is not active during a sync.
 */
module JoinProtocol {
  import opened Membership

  /** All nodes that take part, by id. */
  type Directory = map<NodeId, Node>

  ghost predicate ValidDirectory(dir: Directory) {
    && (forall id :: id in dir ==> dir[id].id == id)
    && (forall a, b {:trigger Listens(dir, a), Listens(dir, b)} ::
          a in dir && b in dir && Listens(dir, a) == Listens(dir, b) ==> a == b)
  }

  function Listens(dir: Directory, id: NodeId): Address {
    if id in dir then dir[id].address else ""
  }

  datatype Network = Network(tables: map<NodeId, Members>, inflight: seq<Envelope>)

  datatype Step =
    | Join(node: NodeId, seed: NodeId)
    | Deliver(index: nat, receiver: NodeId, table: Members, out: seq<Envelope>)
    | Mark(node: NodeId, member: NodeId, status: Status)
    | Heard(node: NodeId, member: NodeId, sequence: nat)

  ghost function Initial(dir: Directory): Network {
    Network(map id | id in dir :: Added(map[], dir[id]), [])
  }

  /** The bag after taking out message `k` and putting in `out`. */
  function Replaced(inflight: seq<Envelope>, k: nat, out: seq<Envelope>): seq<Envelope>
    requires k < |inflight|
  {
    inflight[..k] + inflight[k + 1..] + out
  }

  lemma ReplacedMembers(inflight: seq<Envelope>, k: nat, out: seq<Envelope>)
    requires k < |inflight|
    ensures forall e :: e in Replaced(inflight, k, out) ==> e in inflight || e in out
    ensures forall e :: e in inflight && e != inflight[k] ==> e in Replaced(inflight, k, out)
    ensures forall e :: e in out ==> e in Replaced(inflight, k, out)
  {
    assert inflight == inflight[..k] + [inflight[k]] + inflight[k + 1..];
  }

  /** Node `r` takes message `k` out of the bag, handles it and puts its answers in. */
  ghost predicate Delivers(dir: Directory, s: Network, s': Network, k: nat, r: NodeId, m': Members, out: seq<Envelope>)
    requires s.tables.Keys == dir.Keys
  {
    && k < |s.inflight| && r in dir && dir[r].address == s.inflight[k].to
    && Handles(dir[r], s.tables[r], s.inflight[k].msg, m', out)
    && s' == Network(s.tables[r := m'], Replaced(s.inflight, k, out))
  }

  ghost predicate Next(dir: Directory, s: Network, s': Network, step: Step)
    requires s.tables.Keys == dir.Keys
  {
    match step
    case Join(u, seed) =>
      && u in dir && seed in dir
      && s' == s.(inflight := s.inflight + [Envelope(dir[seed].address, JoinRequest(dir[u]))])
    case Deliver(k, r, m', out) => Delivers(dir, s, s', k, r, m', out)
    case Mark(u, w, status) =>
      u in dir && s' == s.(tables := s.tables[u := WithStatus(s.tables[u], w, status)])
    case Heard(u, w, sequence) =>
      u in dir && s' == s.(tables := s.tables[u := WithHeartbeat(s.tables[u], w, sequence)])
  }

  // ---------------------------------------------------------------------------
  // Well-formed networks: only real nodes are ever talked about
  // ---------------------------------------------------------------------------

  ghost predicate TableOk(dir: Directory, u: NodeId, m: Members) {
    && (forall id {:trigger m[id]} :: id in m ==> id in dir && m[id].node == dir[id])
    && u in m
  }

  ghost predicate IsAddress(dir: Directory, a: Address) {
    exists id :: id in dir && dir[id].address == a
  }

  ghost predicate IsNode(dir: Directory, n: Node) {
    n.id in dir && dir[n.id] == n
  }

  ghost predicate EnvelopeOk(dir: Directory, e: Envelope) {
    && IsAddress(dir, e.to)
    && (match e.msg
        case JoinRequest(n) => IsNode(dir, n)
        case JoinResponse(success, peers) => success && forall p :: p in peers ==> IsNode(dir, p)
        case _ => false)
  }

  ghost predicate WellFormed(dir: Directory, s: Network) {
    && s.tables.Keys == dir.Keys
    && (forall u {:trigger TableOk(dir, u, s.tables[u])} :: u in dir ==> TableOk(dir, u, s.tables[u]))
    && (forall e :: e in s.inflight ==> EnvelopeOk(dir, e))
  }

  predicate Knows(s: Network, u: NodeId, v: NodeId) {
    u in s.tables && v in s.tables[u]
  }

  /** Delivering this message makes its receiver learn about `u`. */
  ghost predicate Introduces(dir: Directory, msg: Message, u: NodeId)
    requires u in dir
  {
    match msg
    case JoinRequest(n) => n == dir[u]
    case JoinResponse(success, peers) => success && dir[u] in peers
    case _ => false
  }

  ghost predicate Pending(dir: Directory, s: Network, u: NodeId, v: NodeId)
    requires u in dir && v in dir
  {
    exists e :: e in s.inflight && e.to == dir[v].address && Introduces(dir, e.msg, u)
  }

  /** Node `u` knows `v`, but `v` neither knows `u` nor is about to. */
  ghost predicate Lost(dir: Directory, s: Network, u: NodeId, v: NodeId)
    requires u in dir && v in dir
  {
    Knows(s, u, v) && !Knows(s, v, u) && !Pending(dir, s, u, v)
  }

  /** Whoever is known knows back, or is about to. */
  ghost predicate Mirrored(dir: Directory, s: Network) {
    forall u, v {:trigger Knows(s, u, v)} ::
      u in dir && v in dir && Knows(s, u, v) ==> Knows(s, v, u) || Pending(dir, s, u, v)
  }

  lemma InitialMirrored(dir: Directory)
    requires ValidDirectory(dir)
    ensures WellFormed(dir, Initial(dir)) && Mirrored(dir, Initial(dir))
  {
  }

  lemma HandlesOk(dir: Directory, r: NodeId, m: Members, msg: Message, m': Members, out: seq<Envelope>)
    requires ValidDirectory(dir) && r in dir && TableOk(dir, r, m)
    requires EnvelopeOk(dir, Envelope(dir[r].address, msg)) && Handles(dir[r], m, msg, m', out)
    ensures TableOk(dir, r, m')
    ensures forall e :: e in out ==> EnvelopeOk(dir, e)
  {
    match msg
    case JoinRequest(n) =>
      assert IsAddress(dir, n.address) by { assert dir[n.id].address == n.address; }
    case JoinResponse(success, peers) =>
      forall id | id in m' ensures id in dir && m'[id].node == dir[id] {
        AbsorbEntries(dir[r], m, peers, id);
      }
      AbsorbKeys(dir[r], m, peers, r);
      forall e | e in out ensures EnvelopeOk(dir, e) {
        var k :| 0 <= k < |out| && out[k] == e;
        AbsorbSends(dir[r], m, peers, k);
        var p :| p in peers && p.address == e.to;
        assert IsNode(dir, p);
      }
  }

  lemma UpdateWellFormed(dir: Directory, s: Network, r: NodeId, m': Members, inflight': seq<Envelope>)
    requires WellFormed(dir, s) && r in dir && TableOk(dir, r, m')
    requires forall e :: e in inflight' ==> EnvelopeOk(dir, e)
    ensures WellFormed(dir, Network(s.tables[r := m'], inflight'))
  {
  }

  lemma DeliversWellFormed(dir: Directory, s: Network, s': Network, k: nat, r: NodeId, m': Members, out: seq<Envelope>)
    requires ValidDirectory(dir) && WellFormed(dir, s) && Delivers(dir, s, s', k, r, m', out)
    ensures WellFormed(dir, s')
  {
    var e := s.inflight[k];
    assert EnvelopeOk(dir, e) && e == Envelope(dir[r].address, e.msg);
    HandlesOk(dir, r, s.tables[r], e.msg, m', out);
    ReplacedMembers(s.inflight, k, out);
    UpdateWellFormed(dir, s, r, m', Replaced(s.inflight, k, out));
  }

  lemma StepWellFormed(dir: Directory, s: Network, s': Network, step: Step)
    requires ValidDirectory(dir) && WellFormed(dir, s) && Next(dir, s, s', step)
    ensures WellFormed(dir, s')
  {
    match step
    case Join(u, seed) =>
      var e := Envelope(dir[seed].address, JoinRequest(dir[u]));
      assert EnvelopeOk(dir, e) by { assert IsAddress(dir, dir[seed].address); }
    case Deliver(k, r, m', out) => DeliversWellFormed(dir, s, s', k, r, m', out);
    case Mark(u, w, status) =>
      assert TableOk(dir, u, s.tables[u]);
      UpdateWellFormed(dir, s, u, WithStatus(s.tables[u], w, status), s.inflight);
    case Heard(u, w, sequence) =>
      assert TableOk(dir, u, s.tables[u]);
      UpdateWellFormed(dir, s, u, WithHeartbeat(s.tables[u], w, sequence), s.inflight);
  }

  /** A handler never forgets a member, and learns whoever the message introduces. */
  lemma HandlesTeaches(dir: Directory, r: NodeId, m: Members, msg: Message, m': Members, out: seq<Envelope>, u: NodeId)
    requires ValidDirectory(dir) && r in dir && u in dir && TableOk(dir, r, m)
    requires EnvelopeOk(dir, Envelope(dir[r].address, msg)) && Handles(dir[r], m, msg, m', out)
    ensures u in m ==> u in m'
    ensures Introduces(dir, msg, u) ==> u in m'
  {
    if msg.JoinResponse? {
      AbsorbKeys(dir[r], m, msg.peers, u);
      if dir[u] in msg.peers { assert Names(msg.peers, u); }
    }
  }

  /** A handler learns only whom the message introduces. */
  lemma HandlesLearns(dir: Directory, r: NodeId, m: Members, msg: Message, m': Members, out: seq<Envelope>, u: NodeId)
    requires ValidDirectory(dir) && r in dir && u in m' && u !in m
    requires EnvelopeOk(dir, Envelope(dir[r].address, msg)) && Handles(dir[r], m, msg, m', out)
    ensures u in dir && Introduces(dir, msg, u)
  {
    if msg.JoinRequest? {
      assert IsNode(dir, msg.node);
    } else {
      AbsorbKeys(dir[r], m, msg.peers, u);
      var p :| p in msg.peers && p.id == u;
      assert IsNode(dir, p);
    }
  }

  ghost predicate Answered(dir: Directory, out: seq<Envelope>, r: NodeId, v: NodeId)
    requires r in dir && v in dir
  {
    exists e :: e in out && e.to == dir[v].address && Introduces(dir, e.msg, r)
  }

  /**
   Whoever a handler learns about gets a message that introduces the handling node, if and only if
   it is learned from a response or the handling node counts itself as active.
   */
  lemma HandlesAnswersIff(dir: Directory, r: NodeId, m: Members, msg: Message, m': Members, out: seq<Envelope>,
                          v: NodeId)
    requires ValidDirectory(dir) && r in dir && v in dir && TableOk(dir, r, m)
    requires EnvelopeOk(dir, Envelope(dir[r].address, msg)) && Handles(dir[r], m, msg, m', out)
    requires v in m' && v !in m
    ensures Answered(dir, out, r, v) <==> msg.JoinResponse? || m[r].status == Active
  {
    HandlesOk(dir, r, m, msg, m', out);
    if msg.JoinRequest? {
      assert IsNode(dir, msg.node) && msg.node.id == v && m'[r] == m[r];
      assert out[0] in out && out[0].to == dir[v].address;
      assert dir[r] in out[0].msg.peers <==> m[r].status == Active;
    } else {
      AbsorbGreets(dir[r], m, msg.peers, v);
      var p :| p in msg.peers && p.id == v && Envelope(p.address, JoinRequest(dir[r])) in out;
      assert IsNode(dir, p);
    }
  }

  // ---------------------------------------------------------------------------
  // What a step does to knowledge
  // ---------------------------------------------------------------------------

  lemma KnowsKept(dir: Directory, s: Network, s': Network, step: Step, u: NodeId, v: NodeId)
    requires ValidDirectory(dir) && WellFormed(dir, s) && Next(dir, s, s', step)
    requires u in dir && v in dir && Knows(s, u, v)
    ensures Knows(s', u, v)
  {
    if step.Deliver? && step.receiver == u {
      var e := s.inflight[step.index];
      assert e == Envelope(dir[u].address, e.msg) && EnvelopeOk(dir, e);
      HandlesTeaches(dir, u, s.tables[u], e.msg, step.table, step.out, v);
    }
  }

  /** Only a message that introduces `u` makes somebody learn about `u`. */
  lemma KnowsLearned(dir: Directory, s: Network, s': Network, step: Step, v: NodeId, u: NodeId)
    requires ValidDirectory(dir) && WellFormed(dir, s) && Next(dir, s, s', step)
    requires u in dir && v in dir && Knows(s', v, u) && !Knows(s, v, u)
    ensures step.Deliver? && step.receiver == v && Introduces(dir, s.inflight[step.index].msg, u)
    ensures Pending(dir, s, u, v)
  {
    var e := s.inflight[step.index];
    assert e == Envelope(dir[v].address, e.msg) && EnvelopeOk(dir, e);
    HandlesLearns(dir, v, s.tables[v], e.msg, step.table, step.out, u);
  }

  /** A message in flight stays there unless it is the one delivered. */
  lemma MessageKept(dir: Directory, s: Network, s': Network, step: Step, e: Envelope)
    requires s.tables.Keys == dir.Keys && Next(dir, s, s', step) && e in s.inflight
    ensures e in s'.inflight || (step.Deliver? && s.inflight[step.index] == e)
  {
    if step.Deliver? {
      ReplacedMembers(s.inflight, step.index, step.out);
    }
  }

  /** A message carrying this introduction does make its receiver learn the node. */
  lemma PendingTeaches(dir: Directory, s: Network, s': Network, step: Step, u: NodeId)
    requires ValidDirectory(dir) && WellFormed(dir, s) && Next(dir, s, s', step) && step.Deliver?
    requires u in dir && Introduces(dir, s.inflight[step.index].msg, u)
    ensures Knows(s', step.receiver, u)
  {
    var r := step.receiver;
    assert s.inflight[step.index] == Envelope(dir[r].address, s.inflight[step.index].msg);
    HandlesTeaches(dir, r, s.tables[r], s.inflight[step.index].msg, step.table, step.out, u);
  }

  lemma PendingKept(dir: Directory, s: Network, s': Network, step: Step, u: NodeId, v: NodeId)
    requires ValidDirectory(dir) && WellFormed(dir, s) && Next(dir, s, s', step)
    requires u in dir && v in dir && Pending(dir, s, v, u)
    ensures Knows(s', u, v) || Pending(dir, s', v, u)
  {
    var e :| e in s.inflight && e.to == dir[u].address && Introduces(dir, e.msg, v);
    MessageKept(dir, s, s', step, e);
    if e !in s'.inflight {
      assert Listens(dir, step.receiver) == Listens(dir, u);
      PendingTeaches(dir, s, s', step, v);
    }
  }

  // ---------------------------------------------------------------------------
  // When a newcomer is not told who took it in
  // ---------------------------------------------------------------------------

  /**
   Node `u`, not active in its own eyes, takes a join request of `v`, which it does not know, while
   `v` neither knows `u` nor is about to.
   */
  ghost predicate Ignores(dir: Directory, s: Network, step: Step, u: NodeId, v: NodeId)
    requires u in dir && v in dir
  {
    && step.Deliver? && step.receiver == u && step.index < |s.inflight|
    && s.inflight[step.index].msg == JoinRequest(dir[v])
    && Knows(s, u, u) && s.tables[u][u].status != Active
    && !Knows(s, u, v) && !Knows(s, v, u) && !Pending(dir, s, u, v)
  }

  /** Nobody is taken in like that. */
  ghost predicate Welcoming(dir: Directory, s: Network, step: Step) {
    forall u, v {:trigger Ignores(dir, s, step, u, v)} :: u in dir && v in dir ==> !Ignores(dir, s, step, u, v)
  }

  lemma IgnoredIsLost(dir: Directory, s: Network, s': Network, step: Step, u: NodeId, v: NodeId)
    requires ValidDirectory(dir) && WellFormed(dir, s) && Next(dir, s, s', step)
    requires u in dir && v in dir && Ignores(dir, s, step, u, v)
    ensures Lost(dir, s', u, v)
  {
    var e := s.inflight[step.index];
    assert e == Envelope(dir[u].address, e.msg) && EnvelopeOk(dir, e) && TableOk(dir, u, s.tables[u]);
    PendingTeaches(dir, s, s', step, v);
    if Knows(s', v, u) {
      KnowsLearned(dir, s, s', step, v, u);
    }
    HandlesAnswersIff(dir, u, s.tables[u], e.msg, step.table, step.out, v);
    ReplacedMembers(s.inflight, step.index, step.out);
  }

  lemma LearnsLost(dir: Directory, s: Network, s': Network, step: Step, u: NodeId, v: NodeId)
    requires ValidDirectory(dir) && WellFormed(dir, s) && Next(dir, s, s', step)
    requires u in dir && v in dir && Lost(dir, s', u, v) && !Knows(s, u, v)
    ensures Ignores(dir, s, step, u, v)
  {
    KnowsLearned(dir, s, s', step, u, v);
    var e := s.inflight[step.index];
    assert e == Envelope(dir[u].address, e.msg) && EnvelopeOk(dir, e) && TableOk(dir, u, s.tables[u]);
    ReplacedMembers(s.inflight, step.index, step.out);
    HandlesAnswersIff(dir, u, s.tables[u], e.msg, step.table, step.out, v);
    if Knows(s, v, u) {
      KnowsKept(dir, s, s', step, v, u);
    }
    if Pending(dir, s, u, v) {
      PendingKept(dir, s, s', step, v, u);
    }
  }

  /** A pair is lost after a step exactly if it was lost and no introduction is in flight, or the step ignores it. */
  lemma LostIff(dir: Directory, s: Network, s': Network, step: Step, u: NodeId, v: NodeId)
    requires ValidDirectory(dir) && WellFormed(dir, s) && Next(dir, s, s', step) && u in dir && v in dir
    ensures Lost(dir, s', u, v) <==>
              (Lost(dir, s, u, v) && !Pending(dir, s', u, v)) || Ignores(dir, s, step, u, v)
  {
    if Ignores(dir, s, step, u, v) {
      IgnoredIsLost(dir, s, s', step, u, v);
    } else if Lost(dir, s, u, v) {
      KnowsKept(dir, s, s', step, u, v);
      if Knows(s', v, u) {
        KnowsLearned(dir, s, s', step, v, u);
      }
    } else if Lost(dir, s', u, v) {
      if !Knows(s, u, v) {
        LearnsLost(dir, s, s', step, u, v);
      } else if Knows(s, v, u) {
        KnowsKept(dir, s, s', step, v, u);
      } else {
        PendingKept(dir, s, s', step, v, u);
      }
    }
  }

  /** A step from a mirrored state leads to a mirrored state if and only if it ignores nobody. */
  lemma StepMirroredIff(dir: Directory, s: Network, s': Network, step: Step)
    requires ValidDirectory(dir) && WellFormed(dir, s) && Mirrored(dir, s) && Next(dir, s, s', step)
    ensures Mirrored(dir, s') <==> Welcoming(dir, s, step)
  {
    forall u, v | u in dir && v in dir ensures Lost(dir, s', u, v) <==> Ignores(dir, s, step, u, v) {
      LostIff(dir, s, s', step, u, v);
      assert Lost(dir, s, u, v) ==> Knows(s, u, v);
    }
    forall u, v | u in dir && v in dir && Lost(dir, s', u, v) ensures !Welcoming(dir, s, step) {
      assert Ignores(dir, s, step, u, v);
    }
    forall u, v | u in dir && v in dir && Ignores(dir, s, step, u, v) ensures !Mirrored(dir, s') {
      assert Knows(s', u, v);
    }
  }

  // ---------------------------------------------------------------------------
  // Every handshake ends
  // ---------------------------------------------------------------------------

  function Weight(inflight: seq<Envelope>): nat {
    if inflight == [] then 0
    else Weight(inflight[..|inflight| - 1]) + MessageWeight(inflight[|inflight| - 1].msg)
  }

  function MessageWeight(msg: Message): nat {
    match msg
    case JoinRequest(_) => 2
    case JoinResponse(_, _) => 1
    case _ => 0
  }

  lemma {:induction false} WeightAppend(a: seq<Envelope>, b: seq<Envelope>)
    ensures Weight(a + b) == Weight(a) + Weight(b)
  {
    if b == [] {
      assert a + b == a;
    } else {
      assert (a + b)[..|a + b| - 1] == a + b[..|b| - 1];
      WeightAppend(a, b[..|b| - 1]);
    }
  }

  /** Pairs of nodes of which the first does not know the second. */
  ghost function Unknown(dir: Directory, tables: map<NodeId, Members>): set<(NodeId, NodeId)>
    requires tables.Keys == dir.Keys
  {
    set u, v | u in dir && v in dir && v !in tables[u] :: (u, v)
  }

  ghost function Measure(dir: Directory, s: Network): nat
    requires s.tables.Keys == dir.Keys
  {
    3 * |Unknown(dir, s.tables)| + Weight(s.inflight)
  }

  lemma UnknownAdd(dir: Directory, tables: map<NodeId, Members>, r: NodeId, n: Node)
    requires tables.Keys == dir.Keys && r in dir && n.id in dir
    ensures |Unknown(dir, tables[r := Added(tables[r], n)])|
         == |Unknown(dir, tables)| - (if n.id in tables[r] then 0 else 1)
  {
    var before, after := Unknown(dir, tables), Unknown(dir, tables[r := Added(tables[r], n)]);
    if n.id in tables[r] {
      assert after == before;
    } else {
      assert after == before - {(r, n.id)};
    }
  }

  lemma {:induction false} AbsorbMeasure(dir: Directory, tables: map<NodeId, Members>, r: NodeId, peers: seq<Node>)
    requires ValidDirectory(dir) && tables.Keys == dir.Keys && r in dir
    requires forall p :: p in peers ==> IsNode(dir, p)
    ensures var (m', out) := Absorb(dir[r], tables[r], peers);
            3 * |Unknown(dir, tables[r := m'])| + Weight(out) <= 3 * |Unknown(dir, tables)|
  {
    if peers == [] {
      assert tables[r := tables[r]] == tables;
    } else {
      var init, peer := peers[..|peers| - 1], peers[|peers| - 1];
      AbsorbMeasure(dir, tables, r, init);
      var (m0, out0) := Absorb(dir[r], tables[r], init);
      assert IsNode(dir, peer);
      UnknownAdd(dir, tables[r := m0], r, peer);
      assert tables[r := m0][r := Added(m0, peer)] == tables[r := Added(m0, peer)];
      WeightAppend(out0, [Envelope(peer.address, JoinRequest(dir[r]))]);
    }
  }

  /** Delivering any message brings the network strictly closer to rest. */
  lemma DeliverDecreases(dir: Directory, s: Network, s': Network, step: Step)
    requires ValidDirectory(dir) && WellFormed(dir, s) && Next(dir, s, s', step) && step.Deliver?
    ensures s'.tables.Keys == dir.Keys
    ensures Measure(dir, s') < Measure(dir, s)
  {
    var k, r, out := step.index, step.receiver, step.out;
    var left, right := s.inflight[..k], s.inflight[k + 1..];
    var e := s.inflight[k];
    assert EnvelopeOk(dir, e);
    assert s.inflight == left + [e] + right;
    WeightAppend(left, [e]);
    WeightAppend(left + [e], right);
    WeightAppend(left, right);
    WeightAppend(left + right, out);
    assert Weight([e]) == MessageWeight(e.msg) by { assert [e][..0] == []; }
    if e.msg.JoinRequest? {
      UnknownAdd(dir, s.tables, r, e.msg.node);
      assert Weight(out) == 1 by { assert out[..0] == []; }
    } else {
      AbsorbMeasure(dir, s.tables, r, e.msg.peers);
    }
  }

  // ---------------------------------------------------------------------------
  // Whole runs
  // ---------------------------------------------------------------------------

  ghost predicate IsRun(dir: Directory, states: seq<Network>, steps: seq<Step>) {
    && |states| == |steps| + 1
    && states[0] == Initial(dir)
    && (forall i :: 0 <= i < |steps| ==>
          states[i].tables.Keys == dir.Keys && Next(dir, states[i], states[i + 1], steps[i]))
  }

  lemma {:induction false} RunWellFormed(dir: Directory, states: seq<Network>, steps: seq<Step>, i: nat)
    requires ValidDirectory(dir) && IsRun(dir, states, steps) && i < |states|
    ensures WellFormed(dir, states[i])
  {
    if i == 0 {
      InitialMirrored(dir);
    } else {
      RunWellFormed(dir, states, steps, i - 1);
      StepWellFormed(dir, states[i - 1], states[i], steps[i - 1]);
    }
  }

  ghost predicate MirroredUpTo(dir: Directory, states: seq<Network>, i: nat) {
    forall j :: 0 <= j < |states| && j <= i ==> Mirrored(dir, states[j])
  }

  ghost predicate WelcomingUpTo(dir: Directory, states: seq<Network>, steps: seq<Step>, i: nat)
    requires i <= |steps| < |states|
  {
    forall j :: 0 <= j < i ==> Welcoming(dir, states[j], steps[j])
  }

  /**
   In every state of a run, u knowing v means that v knows u or a message that teaches it is in
   flight, if and only if no delivery ignores anybody.
   */
  lemma {:induction false} RunMirroredIff(dir: Directory, states: seq<Network>, steps: seq<Step>, i: nat)
    requires ValidDirectory(dir) && IsRun(dir, states, steps) && i < |states|
    ensures MirroredUpTo(dir, states, i) <==> WelcomingUpTo(dir, states, steps, i)
  {
    if i == 0 {
      InitialMirrored(dir);
    } else {
      RunMirroredIff(dir, states, steps, i - 1);
      RunWellFormed(dir, states, steps, i - 1);
      if Mirrored(dir, states[i - 1]) {
        StepMirroredIff(dir, states[i - 1], states[i], steps[i - 1]);
      }
    }
  }

  /** A delivery before state `i` ignored `v`, and nothing that introduces `u` to `v` was in flight since. */
  ghost predicate IgnoredSince(dir: Directory, states: seq<Network>, steps: seq<Step>,
                               u: NodeId, v: NodeId, j: nat, i: nat)
    requires i <= |steps| < |states| && u in dir && v in dir
  {
    && j < i && Ignores(dir, states[j], steps[j], u, v)
    && forall l :: j < l <= i ==> !Pending(dir, states[l], u, v)
  }

  ghost predicate Forgotten(dir: Directory, states: seq<Network>, steps: seq<Step>, u: NodeId, v: NodeId, i: nat)
    requires i <= |steps| < |states| && u in dir && v in dir
  {
    exists j :: IgnoredSince(dir, states, steps, u, v, j, i)
  }

  lemma ForgottenMore(dir: Directory, states: seq<Network>, steps: seq<Step>, u: NodeId, v: NodeId, i: nat)
    requires 0 < i <= |steps| < |states| && u in dir && v in dir
    requires !Pending(dir, states[i], u, v)
    ensures Forgotten(dir, states, steps, u, v, i)
       <==> Forgotten(dir, states, steps, u, v, i - 1) || Ignores(dir, states[i - 1], steps[i - 1], u, v)
  {
    if Forgotten(dir, states, steps, u, v, i - 1) {
      var j :| IgnoredSince(dir, states, steps, u, v, j, i - 1);
      assert IgnoredSince(dir, states, steps, u, v, j, i);
    } else if Ignores(dir, states[i - 1], steps[i - 1], u, v) {
      assert IgnoredSince(dir, states, steps, u, v, i - 1, i);
    } else if Forgotten(dir, states, steps, u, v, i) {
      var j :| IgnoredSince(dir, states, steps, u, v, j, i);
      assert IgnoredSince(dir, states, steps, u, v, j, i - 1);
    }
  }

  /** In every run, the pairs that are lost are exactly those ignored once and not introduced since. */
  lemma {:induction false} LostIffForgotten(dir: Directory, states: seq<Network>, steps: seq<Step>,
                                            u: NodeId, v: NodeId, i: nat)
    requires ValidDirectory(dir) && IsRun(dir, states, steps) && i < |states| && u in dir && v in dir
    ensures Lost(dir, states[i], u, v) <==> Forgotten(dir, states, steps, u, v, i)
  {
    if i > 0 {
      LostIffForgotten(dir, states, steps, u, v, i - 1);
      RunWellFormed(dir, states, steps, i - 1);
      LostIff(dir, states[i - 1], states[i], steps[i - 1], u, v);
      if !Pending(dir, states[i], u, v) {
        ForgottenMore(dir, states, steps, u, v, i);
      }
    }
  }

  /**
   With nothing left in flight, u and v know each other or neither the other, if and only if
   neither ignored the other without an introduction in flight later.
   */
  lemma SymmetricAtRestIff(dir: Directory, states: seq<Network>, steps: seq<Step>, i: nat, u: NodeId, v: NodeId)
    requires ValidDirectory(dir) && IsRun(dir, states, steps) && i < |states|
    requires states[i].inflight == [] && u in dir && v in dir
    ensures (Knows(states[i], u, v) <==> Knows(states[i], v, u))
       <==> !Forgotten(dir, states, steps, u, v, i) && !Forgotten(dir, states, steps, v, u, i)
  {
    LostIffForgotten(dir, states, steps, u, v, i);
    LostIffForgotten(dir, states, steps, v, u, i);
  }

  /** In particular, with nothing left in flight, knowledge is symmetric when no delivery ignored anybody. */
  lemma SymmetricAtRest(dir: Directory, states: seq<Network>, steps: seq<Step>, i: nat, u: NodeId, v: NodeId)
    requires ValidDirectory(dir) && IsRun(dir, states, steps) && i < |states|
    requires states[i].inflight == [] && WelcomingUpTo(dir, states, steps, i) && u in dir && v in dir
    ensures Knows(states[i], u, v) <==> Knows(states[i], v, u)
  {
    SymmetricAtRestIff(dir, states, steps, i, u, v);
  }

  function Deliveries(steps: seq<Step>): nat {
    if steps == [] then 0 else Deliveries(steps[..|steps| - 1]) + (if steps[|steps| - 1].Deliver? then 1 else 0)
  }

  function Joins(steps: seq<Step>): nat {
    if steps == [] then 0 else Joins(steps[..|steps| - 1]) + (if steps[|steps| - 1].Join? then 1 else 0)
  }

  lemma StepMeasure(dir: Directory, s: Network, s': Network, step: Step)
    requires ValidDirectory(dir) && WellFormed(dir, s) && Next(dir, s, s', step)
    ensures s'.tables.Keys == dir.Keys
    ensures Measure(dir, s') + (if step.Deliver? then 1 else 0)
         <= Measure(dir, s) + (if step.Join? then 2 else 0)
  {
    match step
    case Deliver(_, _, _, _) => DeliverDecreases(dir, s, s', step);
    case Join(u, seed) =>
      var e := Envelope(dir[seed].address, JoinRequest(dir[u]));
      WeightAppend(s.inflight, [e]);
      assert Weight([e]) == 2 by { assert [e][..0] == []; }
    case Mark(_, _, _) => assert Unknown(dir, s'.tables) == Unknown(dir, s.tables);
    case Heard(_, _, _) => assert Unknown(dir, s'.tables) == Unknown(dir, s.tables);
  }

  /**
   A run can deliver no more messages than three per pair of strangers at the start plus two
   per join request made: however messages are ordered, every handshake dies out.
   */
  lemma {:induction false} DeliveriesBounded(dir: Directory, states: seq<Network>, steps: seq<Step>)
    requires ValidDirectory(dir) && IsRun(dir, states, steps)
    ensures states[|steps|].tables.Keys == dir.Keys
    ensures Deliveries(steps) + Measure(dir, states[|steps|])
         <= 3 * |Unknown(dir, Initial(dir).tables)| + 2 * Joins(steps)
  {
    if steps != [] {
      var n := |steps| - 1;
      assert IsRun(dir, states[..n + 1], steps[..n]) by {
        assert forall i :: 0 <= i < n ==> states[..n + 1][i] == states[i] && steps[..n][i] == steps[i];
      }
      DeliveriesBounded(dir, states[..n + 1], steps[..n]);
      RunWellFormed(dir, states, steps, n);
      StepMeasure(dir, states[n], states[n + 1], steps[n]);
    }
  }

  lemma {:induction false} ListingExists(m: Members) returns (nodes: seq<Node>)
    requires WellKeyed(m)
    ensures ListsActive(nodes, m)
    decreases |m|
  {
    nodes := [];
    if m != map[] {
      var id :| id in m;
      var rest := m - {id};
      assert rest.Keys == m.Keys - {id} && |rest.Keys| == |rest| && |m.Keys| == |m|;
      nodes := ListingExists(rest);
      if m[id].status == Active {
        nodes := nodes + [m[id].node];
      }
      forall o | o in m && m[o].status == Active ensures m[o].node in nodes {
        assert o != id ==> o in rest && rest[o] == m[o];
      }
    }
  }

  /** Messages in flight can always be delivered, so a run only stops when it is at rest. */
  lemma DeliveryEnabled(dir: Directory, s: Network) returns (s': Network, step: Step)
    requires ValidDirectory(dir) && WellFormed(dir, s) && s.inflight != []
    ensures Next(dir, s, s', step) && step.Deliver?
  {
    var e := s.inflight[0];
    assert EnvelopeOk(dir, e);
    var r :| r in dir && dir[r].address == e.to;
    assert TableOk(dir, r, s.tables[r]);
    var m', out := s.tables[r], [];
    match e.msg {
      case JoinRequest(n) =>
        m' := Added(m', n);
        var nodes := ListingExists(m');
        out := [Envelope(n.address, JoinResponse(true, nodes))];
      case JoinResponse(success, peers) =>
        m', out := Absorb(dir[r], m', peers).0, Absorb(dir[r], m', peers).1;
    }
    s' := Network(s.tables[r := m'], Replaced(s.inflight, 0, out));
    step := Deliver(0, r, m', out);
  }
}
