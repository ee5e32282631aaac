/**
 What the handshake is for: nodes that join through members who already know the founder end up
 fully connected, however their joins overlap and messages are ordered, as long as join requests
 are handled by nodes that count everybody they know as active.
 */
module JoinMesh {
  import opened Membership
  import opened JoinProtocol

  ghost predicate AllActive(m: Members) {
    forall id {:trigger m[id]} :: id in m ==> m[id].status == Active
  }

  /** Every node of `cluster` has exactly `cluster` in its table. */
  ghost predicate Meshed(dir: Directory, s: Network, cluster: set<NodeId>)
    requires s.tables.Keys == dir.Keys && cluster <= dir.Keys
  {
    forall k {:trigger s.tables[k]} :: k in cluster ==> s.tables[k].Keys == cluster
  }

  // ---------------------------------------------------------------------------
  // A cluster that gathers around its founder
  // ---------------------------------------------------------------------------

  /** The table of a cluster member: cluster nodes only. */
  ghost predicate MemberTable(m: Members, cluster: set<NodeId>) {
    m.Keys <= cluster
  }

  /** A message between cluster nodes about cluster nodes. */
  ghost predicate Inside(dir: Directory, cluster: set<NodeId>, e: Envelope) {
    && (forall k :: k in dir && Listens(dir, k) == e.to ==> k in cluster)
    && (forall v :: v in dir && Introduces(dir, e.msg, v) ==> v in cluster)
  }

  /** The founder asks nobody, so it is only ever sent requests. */
  ghost predicate Leading(dir: Directory, f: NodeId, e: Envelope)
    requires f in dir
  {
    (e.to == Listens(dir, f) ==> e.msg.JoinRequest?) && e.msg != JoinRequest(dir[f])
  }

  /** A request of `u` is on its way to somebody who knows the founder. */
  ghost predicate Asking(dir: Directory, s: Network, u: NodeId, f: NodeId, k: NodeId)
    requires u in dir
  {
    k in dir && Knows(s, k, f) && Envelope(Listens(dir, k), JoinRequest(dir[u])) in s.inflight
  }

  /** Node `u` knows the founder or is about to. */
  ghost predicate Finds(dir: Directory, s: Network, u: NodeId, f: NodeId)
    requires u in dir && f in dir
  {
    Knows(s, u, f) || Pending(dir, s, f, u) || exists k :: Asking(dir, s, u, f, k)
  }

  /** One of the two knows the other or is about to. */
  ghost predicate Met(dir: Directory, s: Network, u: NodeId, v: NodeId)
    requires u in dir && v in dir
  {
    Knows(s, u, v) || Knows(s, v, u) || Pending(dir, s, v, u) || Pending(dir, s, u, v)
  }

  ghost predicate MemberTables(s: Network, cluster: set<NodeId>) {
    forall u {:trigger s.tables[u]} :: u in cluster ==> u in s.tables && MemberTable(s.tables[u], cluster)
  }

  ghost predicate MembersTalk(dir: Directory, inflight: seq<Envelope>, cluster: set<NodeId>, f: NodeId)
    requires f in dir
  {
    forall e :: e in inflight ==> Inside(dir, cluster, e) && Leading(dir, f, e)
  }

  ghost predicate AllFind(dir: Directory, s: Network, cluster: set<NodeId>, f: NodeId)
    requires cluster <= dir.Keys && f in dir
  {
    forall u {:trigger Finds(dir, s, u, f)} :: u in cluster ==> Finds(dir, s, u, f)
  }

  ghost predicate FounderIntroduces(dir: Directory, s: Network, f: NodeId) {
    forall u, v {:trigger Met(dir, s, u, v)} ::
      u in dir && v in dir && Knows(s, f, u) && Knows(s, f, v) ==> Met(dir, s, u, v)
  }

  ghost predicate Gathering(dir: Directory, s: Network, cluster: set<NodeId>, f: NodeId)
    requires cluster <= dir.Keys && f in cluster
  {
    && MemberTables(s, cluster) && MembersTalk(dir, s.inflight, cluster, f)
    && AllFind(dir, s, cluster, f) && FounderIntroduces(dir, s, f)
  }

  /** A handler in the cluster learns only cluster nodes. */
  lemma HandlesOnlyAdds(dir: Directory, r: NodeId, m: Members, msg: Message, m': Members, out: seq<Envelope>,
                        cluster: set<NodeId>)
    requires ValidDirectory(dir) && r in dir && EnvelopeOk(dir, Envelope(Listens(dir, r), msg))
    requires Handles(dir[r], m, msg, m', out) && MemberTable(m, cluster)
    requires Inside(dir, cluster, Envelope(Listens(dir, r), msg))
    ensures MemberTable(m', cluster)
  {
    forall id | id in m' ensures id in cluster {
      if id !in m {
        HandlesLearns(dir, r, m, msg, m', out, id);
      }
    }
  }

  /** What a handler sends stays inside the cluster, and the founder is asked but never answered. */
  lemma HandlesInside(dir: Directory, r: NodeId, m: Members, msg: Message, m': Members, out: seq<Envelope>,
                      cluster: set<NodeId>, f: NodeId, e: Envelope)
    requires ValidDirectory(dir) && r in dir && f in dir && r in cluster && cluster <= dir.Keys
    requires EnvelopeOk(dir, Envelope(Listens(dir, r), msg)) && Handles(dir[r], m, msg, m', out) && e in out
    requires Inside(dir, cluster, Envelope(Listens(dir, r), msg)) && Leading(dir, f, Envelope(Listens(dir, r), msg))
    requires MemberTable(m', cluster)
    ensures Inside(dir, cluster, e) && Leading(dir, f, e)
  {
    if msg.JoinRequest? {
      var n := msg.node.id;
      assert IsNode(dir, msg.node) && Introduces(dir, msg, n);
      assert e == out[0] && e.to == Listens(dir, n);
      forall v | v in dir && Introduces(dir, e.msg, v) ensures v in cluster {
        var j :| 0 <= j < |e.msg.peers| && e.msg.peers[j] == dir[v];
      }
    } else {
      var j :| 0 <= j < |out| && out[j] == e;
      AbsorbSends(dir[r], m, msg.peers, j);
      var p :| p in msg.peers && p.address == e.to;
      assert IsNode(dir, p) && Introduces(dir, msg, p.id) && e.to == Listens(dir, p.id);
    }
  }

  /** The answer to a request introduces everybody its sender knows, if it counts all of them as active. */
  lemma AnswerIntroduces(dir: Directory, r: NodeId, m: Members, u: NodeId, m': Members, out: seq<Envelope>, v: NodeId)
    requires ValidDirectory(dir) && r in dir && u in dir && v in dir
    requires TableOk(dir, r, m') && AllActive(m) && v in m'
    requires Handles(dir[r], m, JoinRequest(dir[u]), m', out)
    ensures |out| == 1 && out[0].to == dir[u].address && Introduces(dir, out[0].msg, v)
  {
    assert v != u ==> m[v].status == Active;
    assert m'[v].status == Active && m'[v].node == dir[v];
  }

  // ---------------------------------------------------------------------------
  // What a step keeps
  // ---------------------------------------------------------------------------

  /** A join request is only delivered to a node that counts everybody it knows as active. */
  ghost predicate Attentive(s: Network, step: Step) {
    step.Deliver? && step.index < |s.inflight| && s.inflight[step.index].msg.JoinRequest? ==>
      step.receiver in s.tables && AllActive(s.tables[step.receiver])
  }

  lemma MetKept(dir: Directory, s: Network, s': Network, step: Step, u: NodeId, v: NodeId)
    requires ValidDirectory(dir) && WellFormed(dir, s) && Next(dir, s, s', step)
    requires u in dir && v in dir && Met(dir, s, u, v)
    ensures Met(dir, s', u, v)
  {
    if Knows(s, u, v) {
      KnowsKept(dir, s, s', step, u, v);
    } else if Knows(s, v, u) {
      KnowsKept(dir, s, s', step, v, u);
    } else if Pending(dir, s, v, u) {
      PendingKept(dir, s, s', step, u, v);
    } else {
      PendingKept(dir, s, s', step, v, u);
    }
  }

  /** Whoever a cluster node answers hears of everybody that node knows. */
  lemma AnswerPending(dir: Directory, s: Network, s': Network, step: Step, u: NodeId, v: NodeId)
    requires ValidDirectory(dir) && WellFormed(dir, s) && Next(dir, s, s', step) && step.Deliver?
    requires u in dir && v in dir && s.inflight[step.index].msg == JoinRequest(dir[u])
    requires Attentive(s, step) && Knows(s', step.receiver, v)
    ensures Pending(dir, s', v, u)
  {
    var r := step.receiver;
    DeliversWellFormed(dir, s, s', step.index, r, step.table, step.out);
    assert TableOk(dir, r, s'.tables[r]);
    AnswerIntroduces(dir, r, s.tables[r], u, step.table, step.out, v);
    ReplacedMembers(s.inflight, step.index, step.out);
    assert step.out[0] in s'.inflight;
  }

  lemma DeliverTables(dir: Directory, s: Network, s': Network, step: Step, cluster: set<NodeId>, f: NodeId)
    requires ValidDirectory(dir) && WellFormed(dir, s) && cluster <= dir.Keys && f in cluster
    requires Gathering(dir, s, cluster, f) && Next(dir, s, s', step) && step.Deliver?
    ensures step.receiver in cluster && s'.tables.Keys == dir.Keys && MemberTables(s', cluster)
  {
    var e, r := s.inflight[step.index], step.receiver;
    assert e in s.inflight && EnvelopeOk(dir, e) && Inside(dir, cluster, e);
    assert e.to == Listens(dir, r) && e == Envelope(Listens(dir, r), e.msg);
    HandlesOnlyAdds(dir, r, s.tables[r], e.msg, step.table, step.out, cluster);
  }

  lemma DeliverMessages(dir: Directory, s: Network, s': Network, step: Step, cluster: set<NodeId>, f: NodeId)
    requires ValidDirectory(dir) && WellFormed(dir, s) && cluster <= dir.Keys && f in cluster
    requires Gathering(dir, s, cluster, f) && Next(dir, s, s', step) && step.Deliver?
    ensures MembersTalk(dir, s'.inflight, cluster, f)
  {
    var e, r := s.inflight[step.index], step.receiver;
    assert e in s.inflight && EnvelopeOk(dir, e) && e == Envelope(Listens(dir, r), e.msg);
    DeliverTables(dir, s, s', step, cluster, f);
    ReplacedMembers(s.inflight, step.index, step.out);
    assert MemberTable(s'.tables[r], cluster);
    forall o | o in step.out ensures Inside(dir, cluster, o) && Leading(dir, f, o) {
      HandlesInside(dir, r, s.tables[r], e.msg, step.table, step.out, cluster, f, o);
    }
  }

  lemma FindsKept(dir: Directory, s: Network, s': Network, step: Step, cluster: set<NodeId>, u: NodeId, f: NodeId)
    requires ValidDirectory(dir) && WellFormed(dir, s) && cluster <= dir.Keys && f in cluster && u in dir
    requires Gathering(dir, s, cluster, f) && Next(dir, s, s', step) && Attentive(s, step) && Finds(dir, s, u, f)
    ensures Finds(dir, s', u, f)
  {
    if Knows(s, u, f) {
      KnowsKept(dir, s, s', step, u, f);
    } else if Pending(dir, s, f, u) {
      PendingKept(dir, s, s', step, u, f);
    } else {
      var k :| Asking(dir, s, u, f, k);
      var e := Envelope(Listens(dir, k), JoinRequest(dir[u]));
      KnowsKept(dir, s, s', step, k, f);
      MessageKept(dir, s, s', step, e);
      if e in s'.inflight {
        assert Asking(dir, s', u, f, k);
      } else {
        assert Listens(dir, step.receiver) == Listens(dir, k);
        AnswerPending(dir, s, s', step, u, f);
      }
    }
  }

  /** The founder introduces whoever asks to everybody it knows. */
  lemma DeliverMet(dir: Directory, s: Network, s': Network, step: Step, cluster: set<NodeId>, f: NodeId,
                   u: NodeId, v: NodeId)
    requires ValidDirectory(dir) && WellFormed(dir, s) && cluster <= dir.Keys && f in cluster && u in dir && v in dir
    requires Gathering(dir, s, cluster, f) && Next(dir, s, s', step) && step.Deliver? && Attentive(s, step)
    requires Knows(s', f, u) && Knows(s', f, v)
    ensures Met(dir, s', u, v)
  {
    if Knows(s, f, u) && Knows(s, f, v) {
      assert Met(dir, s, u, v);
      MetKept(dir, s, s', step, u, v);
    } else {
      var e := s.inflight[step.index];
      assert e in s.inflight && EnvelopeOk(dir, e) && Leading(dir, f, e) && step.receiver == f;
      assert e.msg.JoinRequest? && IsNode(dir, e.msg.node);
      if e.msg.node.id == u {
        AnswerPending(dir, s, s', step, u, v);
      } else {
        AnswerPending(dir, s, s', step, v, u);
      }
    }
  }

  lemma DeliverGathers(dir: Directory, s: Network, s': Network, step: Step, cluster: set<NodeId>, f: NodeId)
    requires ValidDirectory(dir) && WellFormed(dir, s) && cluster <= dir.Keys && f in cluster
    requires Gathering(dir, s, cluster, f) && Next(dir, s, s', step) && step.Deliver? && Attentive(s, step)
    ensures s'.tables.Keys == dir.Keys && Gathering(dir, s', cluster, f)
  {
    DeliverTables(dir, s, s', step, cluster, f);
    DeliverMessages(dir, s, s', step, cluster, f);
    forall u | u in cluster ensures Finds(dir, s', u, f) {
      FindsKept(dir, s, s', step, cluster, u, f);
    }
    forall u, v | u in dir && v in dir && Knows(s', f, u) && Knows(s', f, v) ensures Met(dir, s', u, v) {
      DeliverMet(dir, s, s', step, cluster, f, u, v);
    }
  }

  /** Steps that deliver nothing keep members on the way to the founder and its pairs met. */
  lemma QuietGathers(dir: Directory, s: Network, s': Network, step: Step, cluster: set<NodeId>, f: NodeId)
    requires ValidDirectory(dir) && WellFormed(dir, s) && cluster <= dir.Keys && f in cluster
    requires Gathering(dir, s, cluster, f) && Next(dir, s, s', step) && !step.Deliver?
    requires s'.tables.Keys == dir.Keys && s'.tables[f].Keys == s.tables[f].Keys
    ensures AllFind(dir, s', cluster, f) && FounderIntroduces(dir, s', f)
  {
    forall u | u in cluster ensures Finds(dir, s', u, f) {
      FindsKept(dir, s, s', step, cluster, u, f);
    }
    forall u, v | u in dir && v in dir && Knows(s', f, u) && Knows(s', f, v) ensures Met(dir, s', u, v) {
      assert Met(dir, s, u, v);
      MetKept(dir, s, s', step, u, v);
    }
  }

  /** Deliveries to attentive nodes and status changes of any kind keep a cluster gathered. */
  lemma StepGathers(dir: Directory, s: Network, s': Network, step: Step, cluster: set<NodeId>, f: NodeId)
    requires ValidDirectory(dir) && WellFormed(dir, s) && cluster <= dir.Keys && f in cluster
    requires Gathering(dir, s, cluster, f) && Next(dir, s, s', step) && !step.Join? && Attentive(s, step)
    ensures s'.tables.Keys == dir.Keys && Gathering(dir, s', cluster, f)
  {
    if step.Deliver? {
      DeliverGathers(dir, s, s', step, cluster, f);
    } else {
      forall u | u in cluster ensures MemberTable(s'.tables[u], cluster) {
        assert MemberTable(s.tables[u], cluster);
      }
      QuietGathers(dir, s, s', step, cluster, f);
    }
  }

  /** Joins go through somebody who knows the founder, and requests are delivered to attentive nodes. */
  ghost predicate Guided(s: Network, step: Step, f: NodeId) {
    if step.Join? then Knows(s, step.seed, f) && step.node != f else Attentive(s, step)
  }

  /** Whoever knows the founder belongs to its cluster. */
  lemma SeedIsMember(dir: Directory, s: Network, cluster: set<NodeId>, f: NodeId, k: NodeId)
    requires ValidDirectory(dir) && WellFormed(dir, s) && Mirrored(dir, s) && cluster <= dir.Keys && f in cluster
    requires Gathering(dir, s, cluster, f) && Knows(s, k, f)
    ensures k in cluster
  {
    if Knows(s, f, k) {
      assert MemberTable(s.tables[f], cluster);
    } else {
      var e :| e in s.inflight && e.to == dir[f].address && Introduces(dir, e.msg, k);
      assert Inside(dir, cluster, e);
    }
  }

  lemma JoinMessages(dir: Directory, inflight: seq<Envelope>, n: NodeId, seed: NodeId, cluster: set<NodeId>, f: NodeId)
    requires ValidDirectory(dir) && f in dir && n in dir && n != f && seed in cluster && cluster <= dir.Keys
    requires MembersTalk(dir, inflight, cluster, f)
    ensures MembersTalk(dir, inflight + [Envelope(dir[seed].address, JoinRequest(dir[n]))], cluster + {n}, f)
  {
    assert dir[seed].address == Listens(dir, seed);
  }

  lemma JoinGathers(dir: Directory, s: Network, s': Network, step: Step, cluster: set<NodeId>, f: NodeId)
    requires ValidDirectory(dir) && WellFormed(dir, s) && Mirrored(dir, s) && cluster <= dir.Keys && f in cluster
    requires Gathering(dir, s, cluster, f) && Next(dir, s, s', step) && step.Join? && Guided(s, step, f)
    requires s.tables[step.node].Keys <= cluster + {step.node}
    ensures s'.tables.Keys == dir.Keys && Gathering(dir, s', cluster + {step.node}, f)
  {
    var n, seed, grown := step.node, step.seed, cluster + {step.node};
    SeedIsMember(dir, s, cluster, f, seed);
    JoinMessages(dir, s.inflight, n, seed, cluster, f);
    QuietGathers(dir, s, s', step, cluster, f);
    assert Asking(dir, s', n, f, seed);
    forall u | u in grown ensures MemberTable(s'.tables[u], grown) {
      assert u in cluster ==> MemberTable(s.tables[u], cluster);
    }
  }

  /** At rest a gathered cluster is a full mesh. */
  lemma RestIsMeshed(dir: Directory, s: Network, cluster: set<NodeId>, f: NodeId)
    requires ValidDirectory(dir) && WellFormed(dir, s) && Mirrored(dir, s) && cluster <= dir.Keys && f in cluster
    requires Gathering(dir, s, cluster, f) && s.inflight == []
    ensures Meshed(dir, s, cluster)
  {
    forall u, v | u in cluster && v in cluster ensures v in s.tables[u] {
      assert Finds(dir, s, u, f) && Finds(dir, s, v, f);
      assert Knows(s, u, f) && Knows(s, v, f) && Knows(s, f, u) && Knows(s, f, v);
      assert Met(dir, s, u, v);
      assert Knows(s, u, v);
    }
    forall u | u in cluster ensures s.tables[u].Keys == cluster {
      assert MemberTable(s.tables[u], cluster);
    }
  }

  /** A full mesh at rest is gathered around each of its nodes. */
  lemma MeshGathers(dir: Directory, s: Network, cluster: set<NodeId>, f: NodeId)
    requires WellFormed(dir, s) && cluster <= dir.Keys && f in cluster && Meshed(dir, s, cluster) && s.inflight == []
    ensures Gathering(dir, s, cluster, f)
  {
    forall u | u in cluster ensures MemberTable(s.tables[u], cluster) && Finds(dir, s, u, f) {
      assert s.tables[u].Keys == cluster;
      assert Knows(s, u, f);
    }
    assert s.tables[f].Keys == cluster;
    forall u, v | u in dir && v in dir && Knows(s, f, u) && Knows(s, f, v) ensures Met(dir, s, u, v) {
      assert s.tables[u].Keys == cluster;
      assert Knows(s, u, v);
    }
  }

  // ---------------------------------------------------------------------------
  // Whole runs
  // ---------------------------------------------------------------------------

  /** The founder and everybody who has asked to join. */
  function Cluster(founder: NodeId, steps: seq<Step>): set<NodeId> {
    if steps == [] then {founder}
    else
      var last := steps[|steps| - 1];
      Cluster(founder, steps[..|steps| - 1]) + if last.Join? then {last.node} else {}
  }

  /** Every node outside the cluster knows only itself. */
  ghost predicate OthersAlone(dir: Directory, s: Network, cluster: set<NodeId>)
    requires s.tables.Keys == dir.Keys
  {
    forall k {:trigger s.tables[k]} :: k in dir && k !in cluster ==> s.tables[k].Keys == {k}
  }

  ghost predicate Gathered(dir: Directory, s: Network, cluster: set<NodeId>, f: NodeId) {
    && WellFormed(dir, s) && Mirrored(dir, s)
    && cluster <= dir.Keys && f in cluster && Gathering(dir, s, cluster, f)
  }

  /** Attentive nodes ignore nobody. */
  lemma AttentiveMirrors(dir: Directory, s: Network, s': Network, step: Step)
    requires ValidDirectory(dir) && WellFormed(dir, s) && Mirrored(dir, s) && Next(dir, s, s', step)
    requires Attentive(s, step)
    ensures Mirrored(dir, s')
  {
    StepMirroredIff(dir, s, s', step);
  }

  lemma QuietStep(dir: Directory, s: Network, s': Network, step: Step, cluster: set<NodeId>, f: NodeId)
    requires ValidDirectory(dir) && Gathered(dir, s, cluster, f) && Next(dir, s, s', step)
    requires !step.Join? && Attentive(s, step)
    ensures Gathered(dir, s', cluster, f)
    ensures OthersAlone(dir, s, cluster) ==> OthersAlone(dir, s', cluster)
  {
    StepWellFormed(dir, s, s', step);
    AttentiveMirrors(dir, s, s', step);
    StepGathers(dir, s, s', step, cluster, f);
    if step.Deliver? {
      DeliverTables(dir, s, s', step, cluster, f);
    }
  }

  lemma JoinStep(dir: Directory, s: Network, s': Network, step: Step, cluster: set<NodeId>, f: NodeId)
    requires ValidDirectory(dir) && Gathered(dir, s, cluster, f) && OthersAlone(dir, s, cluster)
    requires Next(dir, s, s', step) && step.Join? && Guided(s, step, f)
    ensures Gathered(dir, s', cluster + {step.node}, f) && OthersAlone(dir, s', cluster + {step.node})
  {
    StepWellFormed(dir, s, s', step);
    AttentiveMirrors(dir, s, s', step);
    assert TableOk(dir, step.node, s.tables[step.node]);
    assert step.node in cluster ==> MemberTable(s.tables[step.node], cluster);
    JoinGathers(dir, s, s', step, cluster, f);
  }

  ghost predicate GuidedUpTo(states: seq<Network>, steps: seq<Step>, f: NodeId, i: nat)
    requires |states| == |steps| + 1 && i <= |steps|
  {
    forall j :: 0 <= j < i ==> Guided(states[j], steps[j], f)
  }

  lemma {:induction false} GuidedRun(dir: Directory, states: seq<Network>, steps: seq<Step>, founder: NodeId, i: nat)
    requires ValidDirectory(dir) && founder in dir && IsRun(dir, states, steps)
    requires i <= |steps| && GuidedUpTo(states, steps, founder, i)
    ensures Gathered(dir, states[i], Cluster(founder, steps[..i]), founder)
    ensures OthersAlone(dir, states[i], Cluster(founder, steps[..i]))
  {
    if i == 0 {
      InitialMirrored(dir);
      assert steps[..0] == [];
      assert Meshed(dir, states[0], {founder});
      MeshGathers(dir, states[0], {founder}, founder);
    } else {
      GuidedRun(dir, states, steps, founder, i - 1);
      assert steps[..i][..i - 1] == steps[..i - 1];
      var s, s', step, cluster := states[i - 1], states[i], steps[i - 1], Cluster(founder, steps[..i - 1]);
      assert Guided(s, step, founder);
      if step.Join? {
        JoinStep(dir, s, s', step, cluster, founder);
      } else {
        QuietStep(dir, s, s', step, cluster, founder);
        assert Cluster(founder, steps[..i]) == cluster;
      }
    }
  }

  /**
   From the start, in every run whose joins go through nodes that already know the founder and whose
   join requests are delivered to nodes that count everybody they know as active, however joins
   overlap and statuses change otherwise: whenever it is at rest, the founder and everybody who
   joined are a full mesh.
   */
  lemma GuidedJoinsMesh(dir: Directory, states: seq<Network>, steps: seq<Step>, founder: NodeId, i: nat)
    requires ValidDirectory(dir) && founder in dir && IsRun(dir, states, steps)
    requires i <= |steps| && GuidedUpTo(states, steps, founder, i) && states[i].inflight == []
    ensures states[i].tables.Keys == dir.Keys && Cluster(founder, steps[..i]) <= dir.Keys
    ensures Meshed(dir, states[i], Cluster(founder, steps[..i]))
  {
    GuidedRun(dir, states, steps, founder, i);
    RestIsMeshed(dir, states[i], Cluster(founder, steps[..i]), founder);
  }

  /** A join by a node that knows only itself, through a member, with nothing in flight; or an attentive step. */
  ghost predicate Orderly(s: Network, step: Step, cluster: set<NodeId>) {
    if step.Join? then
      && s.inflight == [] && step.seed in cluster && step.node != step.seed
      && step.node in s.tables && s.tables[step.node].Keys == {step.node}
    else Attentive(s, step)
  }

  ghost predicate AllOrderly(states: seq<Network>, steps: seq<Step>, founder: NodeId)
    requires |states| == |steps| + 1
  {
    forall i :: 0 <= i < |steps| ==> Orderly(states[i], steps[i], Cluster(founder, steps[..i]))
  }

  lemma OrderlyJoinIsGuided(dir: Directory, s: Network, step: Step, cluster: set<NodeId>, f: NodeId)
    requires ValidDirectory(dir) && Gathered(dir, s, cluster, f) && step.Join? && Orderly(s, step, cluster)
    ensures Guided(s, step, f)
  {
    RestIsMeshed(dir, s, cluster, f);
    assert s.tables[step.seed].Keys == cluster && s.tables[f].Keys == cluster;
  }

  lemma {:induction false} OrderlyIsGuided(dir: Directory, states: seq<Network>, steps: seq<Step>,
                                           founder: NodeId, i: nat)
    requires ValidDirectory(dir) && founder in dir && IsRun(dir, states, steps) && AllOrderly(states, steps, founder)
    requires i <= |steps|
    ensures GuidedUpTo(states, steps, founder, i)
  {
    if i > 0 {
      OrderlyIsGuided(dir, states, steps, founder, i - 1);
      var s, step, cluster := states[i - 1], steps[i - 1], Cluster(founder, steps[..i - 1]);
      assert Orderly(s, step, cluster);
      if step.Join? {
        GuidedRun(dir, states, steps, founder, i - 1);
        OrderlyJoinIsGuided(dir, s, step, cluster, founder);
      }
    }
  }

  /**
   In particular when every join waits until nothing is in flight: whenever the run is at rest,
   the founder and everybody who joined are a full mesh.
   */
  lemma OrderlyJoinsMesh(dir: Directory, states: seq<Network>, steps: seq<Step>, founder: NodeId, i: nat)
    requires ValidDirectory(dir) && founder in dir && IsRun(dir, states, steps) && AllOrderly(states, steps, founder)
    requires i < |states| && states[i].inflight == []
    ensures states[i].tables.Keys == dir.Keys && Cluster(founder, steps[..i]) <= dir.Keys
    ensures Meshed(dir, states[i], Cluster(founder, steps[..i]))
  {
    OrderlyIsGuided(dir, states, steps, founder, i);
    GuidedJoinsMesh(dir, states, steps, founder, i);
  }

  // ---------------------------------------------------------------------------
  // One more node for an existing mesh
  // ---------------------------------------------------------------------------

  /** Deliveries to attentive nodes and any status changes, starting in `states[0]`. */
  ghost predicate Settles(dir: Directory, states: seq<Network>, steps: seq<Step>) {
    && |states| == |steps| + 1
    && (forall i :: 0 <= i < |steps| ==>
          && !steps[i].Join? && Attentive(states[i], steps[i]) && states[i].tables.Keys == dir.Keys
          && Next(dir, states[i], states[i + 1], steps[i]))
  }

  lemma SettlesGathers(dir: Directory, states: seq<Network>, steps: seq<Step>, cluster: set<NodeId>, f: NodeId)
    requires ValidDirectory(dir) && Settles(dir, states, steps) && Gathered(dir, states[0], cluster, f)
    ensures Gathered(dir, states[|steps|], cluster, f)
  {
    var k := 0;
    while k < |steps|
      invariant k <= |steps| && Gathered(dir, states[k], cluster, f)
    {
      QuietStep(dir, states[k], states[k + 1], steps[k], cluster, f);
      k := k + 1;
    }
  }

  /** Without the request that is under way the mesh would be at rest. */
  lemma BeforeRequest(dir: Directory, s: Network, n: NodeId, seed: NodeId)
    requires ValidDirectory(dir) && n in dir && seed in dir && n != seed
    requires WellFormed(dir, s) && Mirrored(dir, s) && s.tables[n].Keys == {n}
    requires s.inflight == [Envelope(Listens(dir, seed), JoinRequest(dir[n]))]
    ensures WellFormed(dir, s.(inflight := [])) && Mirrored(dir, s.(inflight := []))
  {
    var before := s.(inflight := []);
    forall u, v | u in dir && v in dir && Knows(before, u, v) ensures Knows(before, v, u) {
      assert Knows(s, u, v);
    }
  }

  lemma RequestGathers(dir: Directory, s: Network, cluster: set<NodeId>, n: NodeId, seed: NodeId)
    requires ValidDirectory(dir) && n in dir && n !in cluster && cluster <= dir.Keys && seed in cluster
    requires WellFormed(dir, s) && Mirrored(dir, s) && Meshed(dir, s, cluster) && s.tables[n].Keys == {n}
    requires s.inflight == [Envelope(Listens(dir, seed), JoinRequest(dir[n]))]
    ensures Gathering(dir, s, cluster + {n}, seed)
  {
    var before := s.(inflight := []);
    assert [] + [Envelope(dir[seed].address, JoinRequest(dir[n]))] == s.inflight;
    assert TableOk(dir, n, s.tables[n]) && s.tables[seed].Keys == cluster;
    BeforeRequest(dir, s, n, seed);
    MeshGathers(dir, before, cluster, seed);
    JoinGathers(dir, before, s, Join(n, seed), cluster, seed);
  }

  /**
   A newcomer that asks any member of a full mesh at rest: once the traffic has died out, the
   mesh has grown by exactly that node, however the messages were ordered.
   */
  lemma JoinExtendsMesh(dir: Directory, states: seq<Network>, steps: seq<Step>,
                        cluster: set<NodeId>, n: NodeId, seed: NodeId)
    requires ValidDirectory(dir) && n in dir && n !in cluster && cluster <= dir.Keys && seed in cluster
    requires Settles(dir, states, steps)
    requires WellFormed(dir, states[0]) && Mirrored(dir, states[0])
    requires Meshed(dir, states[0], cluster) && states[0].tables[n].Keys == {n}
    requires states[0].inflight == [Envelope(Listens(dir, seed), JoinRequest(dir[n]))]
    requires states[|steps|].inflight == []
    ensures states[|steps|].tables.Keys == dir.Keys
    ensures Meshed(dir, states[|steps|], cluster + {n})
  {
    RequestGathers(dir, states[0], cluster, n, seed);
    SettlesGathers(dir, states, steps, cluster + {n}, seed);
    RestIsMeshed(dir, states[|steps|], cluster + {n}, seed);
  }

  // ---------------------------------------------------------------------------
  // Runs in which everybody stays active
  // ---------------------------------------------------------------------------

  /** No status change other than back to active. */
  predicate Harmless(step: Step) {
    step.Mark? ==> step.status == Active
  }

  ghost predicate ActiveAmong(s: Network, nodes: set<NodeId>) {
    forall k {:trigger s.tables[k]} :: k in nodes ==> k in s.tables && AllActive(s.tables[k])
  }

  lemma TableStaysActive(dir: Directory, s: Network, s': Network, step: Step, k: NodeId)
    requires ValidDirectory(dir) && WellFormed(dir, s) && Next(dir, s, s', step) && Harmless(step)
    requires k in dir && AllActive(s.tables[k])
    ensures k in s'.tables && AllActive(s'.tables[k])
  {
    if step.Deliver? && step.receiver == k {
      var msg := s.inflight[step.index].msg;
      assert EnvelopeOk(dir, s.inflight[step.index]);
      if msg.JoinResponse? {
        forall id | id in step.table ensures step.table[id].status == Active {
          AbsorbEntries(dir[k], s.tables[k], msg.peers, id);
        }
      }
    }
  }

  lemma StaysActive(dir: Directory, s: Network, s': Network, step: Step, nodes: set<NodeId>)
    requires ValidDirectory(dir) && WellFormed(dir, s) && Next(dir, s, s', step) && Harmless(step)
    requires nodes <= dir.Keys && ActiveAmong(s, nodes)
    ensures ActiveAmong(s', nodes)
  {
    forall k | k in nodes ensures k in s'.tables && AllActive(s'.tables[k]) {
      TableStaysActive(dir, s, s', step, k);
    }
  }

  /** While nobody is marked other than active, every node counts everybody as active and is attentive. */
  lemma {:induction false} ActiveRun(dir: Directory, states: seq<Network>, steps: seq<Step>, i: nat)
    requires ValidDirectory(dir) && IsRun(dir, states, steps) && i <= |steps|
    requires forall j :: 0 <= j < i ==> Harmless(steps[j])
    ensures ActiveAmong(states[i], dir.Keys)
    ensures forall j :: 0 <= j < i ==> Attentive(states[j], steps[j])
  {
    if i > 0 {
      ActiveRun(dir, states, steps, i - 1);
      RunWellFormed(dir, states, steps, i - 1);
      StaysActive(dir, states[i - 1], states[i], steps[i - 1], dir.Keys);
    }
  }

  /** Then the condition on joins is enough, and everybody in the mesh is active. */
  lemma ActiveJoinsMesh(dir: Directory, states: seq<Network>, steps: seq<Step>, founder: NodeId, i: nat)
    requires ValidDirectory(dir) && founder in dir && IsRun(dir, states, steps)
    requires i <= |steps| && states[i].inflight == []
    requires forall j :: 0 <= j < i ==> Harmless(steps[j]) && (steps[j].Join? ==> Guided(states[j], steps[j], founder))
    ensures states[i].tables.Keys == dir.Keys && Cluster(founder, steps[..i]) <= dir.Keys
    ensures Meshed(dir, states[i], Cluster(founder, steps[..i])) && ActiveAmong(states[i], Cluster(founder, steps[..i]))
  {
    ActiveRun(dir, states, steps, i);
    GuidedJoinsMesh(dir, states, steps, founder, i);
  }

  ghost predicate HarmlessSteps(dir: Directory, states: seq<Network>, steps: seq<Step>) {
    && |states| == |steps| + 1
    && (forall i :: 0 <= i < |steps| ==>
          && !steps[i].Join? && Harmless(steps[i]) && states[i].tables.Keys == dir.Keys
          && Next(dir, states[i], states[i + 1], steps[i]))
  }

  lemma ActiveStep(dir: Directory, s: Network, s': Network, step: Step, cluster: set<NodeId>, f: NodeId)
    requires ValidDirectory(dir) && Gathered(dir, s, cluster, f) && ActiveAmong(s, cluster)
    requires Next(dir, s, s', step) && !step.Join? && Harmless(step)
    ensures Attentive(s, step) && Gathered(dir, s', cluster, f) && ActiveAmong(s', cluster)
  {
    if step.Deliver? {
      DeliverTables(dir, s, s', step, cluster, f);
    }
    QuietStep(dir, s, s', step, cluster, f);
    StaysActive(dir, s, s', step, cluster);
  }

  lemma ActiveSteps(dir: Directory, states: seq<Network>, steps: seq<Step>, cluster: set<NodeId>, f: NodeId)
    requires ValidDirectory(dir) && HarmlessSteps(dir, states, steps)
    requires Gathered(dir, states[0], cluster, f) && ActiveAmong(states[0], cluster)
    ensures Gathered(dir, states[|steps|], cluster, f) && ActiveAmong(states[|steps|], cluster)
  {
    var k := 0;
    while k < |steps|
      invariant k <= |steps| && Gathered(dir, states[k], cluster, f) && ActiveAmong(states[k], cluster)
    {
      ActiveStep(dir, states[k], states[k + 1], steps[k], cluster, f);
      k := k + 1;
    }
  }

  /** The same for one more node: when all concerned are active at first, the grown mesh is all active. */
  lemma ActiveJoinExtendsMesh(dir: Directory, states: seq<Network>, steps: seq<Step>,
                              cluster: set<NodeId>, n: NodeId, seed: NodeId)
    requires ValidDirectory(dir) && n in dir && n !in cluster && cluster <= dir.Keys && seed in cluster
    requires HarmlessSteps(dir, states, steps) && ActiveAmong(states[0], cluster + {n})
    requires WellFormed(dir, states[0]) && Mirrored(dir, states[0])
    requires Meshed(dir, states[0], cluster) && states[0].tables[n].Keys == {n}
    requires states[0].inflight == [Envelope(Listens(dir, seed), JoinRequest(dir[n]))]
    requires states[|steps|].inflight == []
    ensures states[|steps|].tables.Keys == dir.Keys
    ensures Meshed(dir, states[|steps|], cluster + {n}) && ActiveAmong(states[|steps|], cluster + {n})
  {
    RequestGathers(dir, states[0], cluster, n, seed);
    ActiveSteps(dir, states, steps, cluster + {n}, seed);
    RestIsMeshed(dir, states[|steps|], cluster + {n}, seed);
  }
}
