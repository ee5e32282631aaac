/**
 Cluster membership (src/cluster/state.rs and the membership part of src/cluster/manager.rs):
 the member table, and the handlers that turn one incoming message into table updates and
 outgoing messages.
 */
module Membership {

  type NodeId = string
  type Address = string

  datatype Node = Node(id: NodeId, address: Address, apiAddress: Address, startedAt: nat)

  datatype Status = Joining | Syncing | Active | Suspected | Dead | Leaving

  datatype Member = Member(node: Node, status: Status, lastSequence: nat)

  type Members = map<NodeId, Member>

  datatype Message =
    | JoinRequest(node: Node)
    | JoinResponse(success: bool, peers: seq<Node>)
    | Heartbeat(from: NodeId, sequence: nat)
    | Leave(from: NodeId)

  datatype Envelope = Envelope(to: Address, msg: Message)

  function Added(m: Members, node: Node): Members {
    m[node.id := Member(node, Active, 0)]
  }

  function WithHeartbeat(m: Members, id: NodeId, sequence: nat): Members {
    if id !in m then m
    else m[id := Member(m[id].node, if m[id].status == Suspected then Active else m[id].status, sequence)]
  }

  function WithStatus(m: Members, id: NodeId, status: Status): Members {
    if id !in m then m else m[id := m[id].(status := status)]
  }

  predicate WellKeyed(m: Members) {
    forall id :: id in m ==> m[id].node.id == id
  }

  /** `nodes` lists the active members, in any order. */
  ghost predicate ListsActive(nodes: seq<Node>, m: Members) {
    && (forall k :: 0 <= k < |nodes| ==>
          nodes[k].id in m && m[nodes[k].id].status == Active && m[nodes[k].id].node == nodes[k])
    && (forall id {:trigger m[id]} :: id in m && m[id].status == Active ==> m[id].node in nodes)
  }

  /** No node is listed twice. */
  ghost predicate Distinct(nodes: seq<Node>) {
    forall i, j :: 0 <= i < j < |nodes| ==> nodes[i].id != nodes[j].id
  }

  /** What a node does with the peers of a successful join response: new table and handshakes to send. */
  function Absorb(local: Node, m: Members, peers: seq<Node>): (Members, seq<Envelope>) {
    if peers == [] then (m, [])
    else
      var (m', out) := Absorb(local, m, peers[..|peers| - 1]);
      var peer := peers[|peers| - 1];
      if peer.id == local.id then (m', out)
      else if peer.id in m' then (Added(m', peer), out)
      else (Added(m', peer), out + [Envelope(peer.address, JoinRequest(local))])
  }

  /** Handling one message takes table `m` to `m'` and sends `out`. */
  ghost predicate Handles(local: Node, m: Members, msg: Message, m': Members, out: seq<Envelope>) {
    match msg
    case JoinRequest(node) =>
      && m' == Added(m, node)
      && |out| == 1 && out[0].to == node.address
      && out[0].msg.JoinResponse? && out[0].msg.success && ListsActive(out[0].msg.peers, m')
    case JoinResponse(success, peers) =>
      && m' == (if success then Absorb(local, m, peers).0 else m)
      && out == (if success then Absorb(local, m, peers).1 else [])
    case Heartbeat(from, sequence) => m' == WithHeartbeat(m, from, sequence) && out == []
    case Leave(from) => m' == m - {from} && out == []
  }

  class ClusterState {
    var members: Members

    constructor ()
      ensures members == map[]
    {
      members := map[];
    }

    method AddMember(node: Node, status: Status) returns (isNew: bool)
      modifies this
      ensures members == old(members)[node.id := Member(node, status, 0)]
      ensures isNew <==> node.id !in old(members)
    {
      var exists_ := node.id in members;
      members := members[node.id := Member(node, status, 0)];
      isNew := !exists_;
    }

    method RemoveMember(id: NodeId)
      modifies this
      ensures members == old(members) - {id}
    {
      members := members - {id};
    }

    method UpdateHeartbeat(id: NodeId, sequence: nat)
      modifies this
      ensures members == WithHeartbeat(old(members), id, sequence)
    {
      if id in members {
        var member := members[id].(lastSequence := sequence);
        if member.status == Suspected {
          member := member.(status := Active);
        }
        members := members[id := member];
      }
    }

    method MarkStatus(id: NodeId, status: Status)
      modifies this
      ensures members == WithStatus(old(members), id, status)
    {
      if id in members {
        members := members[id := members[id].(status := status)];
      }
    }

    method ActiveNodes() returns (nodes: seq<Node>)
      requires WellKeyed(members)
      ensures ListsActive(nodes, members) && Distinct(nodes)
    {
      nodes := [];
      var rest := members.Keys;
      while rest != {}
        invariant rest <= members.Keys
        invariant forall k :: 0 <= k < |nodes| ==> nodes[k].id in members.Keys - rest
        invariant ListsActive(nodes, map id | id in members.Keys - rest :: members[id]) && Distinct(nodes)
        decreases rest
      {
        var id :| id in rest;
        rest := rest - {id};
        if members[id].status == Active {
          nodes := nodes + [members[id].node];
        }
      }
      assert (map id | id in members.Keys - rest :: members[id]) == members;
    }
  }

  class ClusterManager {
    const local: Node
    const state: ClusterState
    /** Every message handed to the transport so far. */
    var sent: seq<Envelope>

    constructor (local: Node, state: ClusterState)
      modifies state
      ensures this.local == local && this.state == state && sent == []
      ensures state.members == Added(old(state.members), local)
    {
      this.local := local;
      this.state := state;
      sent := [];
      new;
      var _ := state.AddMember(local, Active);
    }

    method JoinCluster(seed: Address)
      modifies this
      ensures sent == old(sent) + [Envelope(seed, JoinRequest(local))]
    {
      sent := sent + [Envelope(seed, JoinRequest(local))];
    }

    method HandleMessage(msg: Message)
      requires WellKeyed(state.members)
      modifies this, state
      ensures old(sent) <= sent
      ensures Handles(local, old(state.members), msg, state.members, sent[|old(sent)|..])
    {
      match msg
      case JoinRequest(node) =>
        var _ := state.AddMember(node, Active);
        var peers := state.ActiveNodes();
        sent := sent + [Envelope(node.address, JoinResponse(true, peers))];
      case JoinResponse(success, peers) =>
        if success {
          var k := 0;
          while k < |peers|
            invariant k <= |peers| && old(sent) <= sent
            invariant state.members == Absorb(local, old(state.members), peers[..k]).0
            invariant sent == old(sent) + Absorb(local, old(state.members), peers[..k]).1
          {
            assert peers[..k + 1][..k] == peers[..k];
            var peer := peers[k];
            if peer.id != local.id {
              var isNew := state.AddMember(peer, Active);
              if isNew {
                sent := sent + [Envelope(peer.address, JoinRequest(local))];
              }
            }
            k := k + 1;
          }
          assert peers[..k] == peers;
        }
      case Heartbeat(from, sequence) =>
        state.UpdateHeartbeat(from, sequence);
      case Leave(from) =>
        state.RemoveMember(from);
    }
  }

  /** Some peer in the list has this id. */
  ghost predicate Names(peers: seq<Node>, id: NodeId) {
    exists p :: p in peers && p.id == id
  }

  ghost predicate Greets(local: Node, out: seq<Envelope>, peers: seq<Node>, id: NodeId) {
    exists p :: p in peers && p.id == id && Envelope(p.address, JoinRequest(local)) in out
  }

  /** Absorbing a response adds exactly the listed peers other than the node itself. */
  lemma {:induction false} AbsorbKeys(local: Node, m: Members, peers: seq<Node>, id: NodeId)
    ensures id in Absorb(local, m, peers).0 <==> id in m || (id != local.id && Names(peers, id))
    ensures id == local.id && id in m ==> Absorb(local, m, peers).0[id] == m[id]
  {
    if peers != [] {
      var init, peer := peers[..|peers| - 1], peers[|peers| - 1];
      AbsorbKeys(local, m, init, id);
      assert peers == init + [peer];
      assert Names(peers, id) <==> Names(init, id) || peer.id == id;
    }
  }

  /** Every peer that was new gets a handshake. */
  lemma {:induction false} AbsorbGreets(local: Node, m: Members, peers: seq<Node>, id: NodeId)
    requires id in Absorb(local, m, peers).0 && id !in m
    ensures Greets(local, Absorb(local, m, peers).1, peers, id)
  {
    if peers != [] {
      var init, peer := peers[..|peers| - 1], peers[|peers| - 1];
      assert peers == init + [peer];
      var (m0, out0) := Absorb(local, m, init);
      if id in m0 {
        AbsorbGreets(local, m, init, id);
        var p :| p in init && p.id == id && Envelope(p.address, JoinRequest(local)) in out0;
        assert p in peers && Envelope(p.address, JoinRequest(local)) in Absorb(local, m, peers).1;
      } else {
        assert peer in peers && Envelope(peer.address, JoinRequest(local)) in Absorb(local, m, peers).1;
      }
    }
  }

  /** Nothing but handshakes to listed peers is sent. */
  lemma {:induction false} AbsorbSends(local: Node, m: Members, peers: seq<Node>, k: nat)
    requires k < |Absorb(local, m, peers).1|
    ensures Absorb(local, m, peers).1[k].msg == JoinRequest(local)
    ensures exists p :: p in peers && p.id != local.id && p.address == Absorb(local, m, peers).1[k].to
  {
    if peers != [] {
      var init, peer := peers[..|peers| - 1], peers[|peers| - 1];
      assert peers == init + [peer];
      if k < |Absorb(local, m, init).1| {
        AbsorbSends(local, m, init, k);
      } else {
        assert peer in peers;
      }
    }
  }

  /** Every entry a response writes carries one of the peers it listed, as active. */
  lemma {:induction false} AbsorbEntries(local: Node, m: Members, peers: seq<Node>, id: NodeId)
    requires id in Absorb(local, m, peers).0
    ensures (id in m && Absorb(local, m, peers).0[id] == m[id])
         || exists p :: p in peers && p.id == id && Absorb(local, m, peers).0[id] == Member(p, Active, 0)
  {
    if peers != [] {
      var init, peer := peers[..|peers| - 1], peers[|peers| - 1];
      assert peers == init + [peer];
      if peer.id != local.id && peer.id == id {
        assert peer in peers;
      } else {
        AbsorbEntries(local, m, init, id);
      }
    }
  }
}
