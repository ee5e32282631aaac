/**
 Runs of the join protocol that come to rest with something missing: a join through a node that is
 itself still joining, a join while the founder suspects a member, and a join through a node that
 is syncing.
 */
module JoinLimits {
  import opened Membership
  import opened JoinProtocol

  function One(x: Node): Members {
    map[x.id := Member(x, Active, 0)]
  }

  function Answer(n: Node, peers: seq<Node>): Envelope {
    Envelope(n.address, JoinResponse(true, peers))
  }

  function Request(n: Node, to: Node): Envelope {
    Envelope(to.address, JoinRequest(n))
  }

  lemma Answers(r: Node, m: Members, n: Node, peers: seq<Node>)
    requires ListsActive(peers, Added(m, n))
    ensures Handles(r, m, JoinRequest(n), Added(m, n), [Answer(n, peers)])
  {
  }

  lemma ListsTwo(x: Node, y: Node)
    requires x.id != y.id
    ensures ListsActive([x, y], Added(One(x), y))
  {
    var m, nodes := Added(One(x), y), [x, y];
    assert nodes[0] == x && nodes[1] == y;
    forall id | id in m ensures m[id].node in nodes {
      assert id == x.id || id == y.id;
    }
  }

  lemma Learns(local: Node, m: Members, x: Node)
    requires x.id != local.id
    ensures Handles(local, m, JoinResponse(true, [x, local]), Added(m, x),
                    if x.id in m then [] else [Request(local, x)])
  {
    assert [x, local][..1] == [x] && [x][..0] == [];
    assert Absorb(local, m, [x]).1 == if x.id in m then [] else [Request(local, x)];
  }

  /** A run that ends in `s` and in which everybody joins through one of `seeds`. */
  ghost predicate Reaches(dir: Directory, states: seq<Network>, steps: seq<Step>, s: Network, seeds: set<NodeId>) {
    && IsRun(dir, states, steps) && states[|steps|] == s
    && forall i :: 0 <= i < |steps| && steps[i].Join? ==> steps[i].seed in seeds
  }

  lemma Extend(dir: Directory, states: seq<Network>, steps: seq<Step>, s: Network, step: Step, s': Network,
               seeds: set<NodeId>)
    returns (states': seq<Network>, steps': seq<Step>)
    requires Reaches(dir, states, steps, s, seeds) && s.tables.Keys == dir.Keys && Next(dir, s, s', step)
    requires step.Join? ==> step.seed in seeds
    ensures Reaches(dir, states', steps', s', seeds)
  {
    states', steps' := states + [s'], steps + [step];
    forall i | 0 <= i < |steps'|
      ensures states'[i].tables.Keys == dir.Keys && Next(dir, states'[i], states'[i + 1], steps'[i])
    {
      if i < |steps| {
        assert states'[i] == states[i] && states'[i + 1] == states[i + 1] && steps'[i] == steps[i];
      }
    }
  }

  lemma Asks(dir: Directory, states: seq<Network>, steps: seq<Step>, s: Network, n: Node, seed: Node,
             seeds: set<NodeId>)
    returns (states': seq<Network>, steps': seq<Step>)
    requires Reaches(dir, states, steps, s, seeds) && s.tables.Keys == dir.Keys
    requires IsNode(dir, n) && IsNode(dir, seed) && seed.id in seeds
    ensures Reaches(dir, states', steps', s.(inflight := s.inflight + [Request(n, seed)]), seeds)
  {
    states', steps' := Extend(dir, states, steps, s, Join(n.id, seed.id),
                              s.(inflight := s.inflight + [Request(n, seed)]), seeds);
  }

  /** One more step of the run: the last message of the bag is delivered. */
  lemma Turn(dir: Directory, states: seq<Network>, steps: seq<Step>, tables: map<NodeId, Members>,
             kept: seq<Envelope>, e: Envelope, r: NodeId, m': Members, out: seq<Envelope>, seeds: set<NodeId>)
    returns (states': seq<Network>, steps': seq<Step>)
    requires tables.Keys == dir.Keys && Reaches(dir, states, steps, Network(tables, kept + [e]), seeds)
    requires r in dir && dir[r].address == e.to && Handles(dir[r], tables[r], e.msg, m', out)
    ensures Reaches(dir, states', steps', Network(tables[r := m'], kept + out), seeds)
  {
    var s := Network(tables, kept + [e]);
    assert s.inflight[..|kept|] == kept && s.inflight[|kept| + 1..] == [];
    var s' := Network(tables[r := m'], Replaced(s.inflight, |kept|, out));
    assert s'.inflight == kept + out;
    states', steps' := Extend(dir, states, steps, s, Deliver(|kept|, r, m', out), s', seeds);
  }

  /** A request is answered with a list of the two, and the newcomer learns the seed. */
  lemma Answering(dir: Directory, states: seq<Network>, steps: seq<Step>, tables: map<NodeId, Members>,
                  kept: seq<Envelope>, n: Node, seed: Node, seeds: set<NodeId>)
    returns (states': seq<Network>, steps': seq<Step>)
    requires tables.Keys == dir.Keys && IsNode(dir, n) && IsNode(dir, seed) && n.id != seed.id
    requires ListsActive([seed, n], Added(tables[seed.id], n))
    requires Reaches(dir, states, steps, Network(tables, kept + [Request(n, seed)]), seeds)
    ensures Reaches(dir, states', steps',
                    Network(tables[seed.id := Added(tables[seed.id], n)][n.id := Added(tables[n.id], seed)],
                            kept + if seed.id in tables[n.id] then [] else [Request(n, seed)]), seeds)
  {
    var known, answer := Added(tables[seed.id], n), Answer(n, [seed, n]);
    Answers(seed, tables[seed.id], n, [seed, n]);
    states', steps' := Turn(dir, states, steps, tables, kept, Request(n, seed), seed.id, known, [answer], seeds);
    Learns(n, tables[n.id], seed);
    states', steps' := Turn(dir, states', steps', tables[seed.id := known], kept, answer, n.id,
                            Added(tables[n.id], seed),
                            if seed.id in tables[n.id] then [] else [Request(n, seed)], seeds);
  }

  /** Between two nodes that know each other a request changes nothing. */
  lemma Again(dir: Directory, states: seq<Network>, steps: seq<Step>, tables: map<NodeId, Members>,
              kept: seq<Envelope>, n: Node, seed: Node, seeds: set<NodeId>)
    returns (states': seq<Network>, steps': seq<Step>)
    requires tables.Keys == dir.Keys && IsNode(dir, n) && IsNode(dir, seed) && n.id != seed.id
    requires Added(tables[seed.id], n) == tables[seed.id] && Added(tables[n.id], seed) == tables[n.id]
    requires ListsActive([seed, n], tables[seed.id])
    requires Reaches(dir, states, steps, Network(tables, kept + [Request(n, seed)]), seeds)
    ensures Reaches(dir, states', steps', Network(tables, kept), seeds)
  {
    states', steps' := Answering(dir, states, steps, tables, kept, n, seed, seeds);
    assert tables[seed.id := tables[seed.id]][n.id := tables[n.id]] == tables && kept + [] == kept;
    assert seed.id in Added(tables[n.id], seed);
  }

  /** The whole handshake of `n` with a seed that lists only the two, the rest of the bag waiting. */
  lemma Handshake(dir: Directory, states: seq<Network>, steps: seq<Step>, tables: map<NodeId, Members>,
                  kept: seq<Envelope>, n: Node, seed: Node, seeds: set<NodeId>)
    returns (states': seq<Network>, steps': seq<Step>)
    requires tables.Keys == dir.Keys && IsNode(dir, n) && IsNode(dir, seed) && n.id != seed.id
    requires ListsActive([seed, n], Added(tables[seed.id], n)) && seed.id !in tables[n.id]
    requires Reaches(dir, states, steps, Network(tables, kept + [Request(n, seed)]), seeds)
    ensures Reaches(dir, states', steps',
                    Network(tables[seed.id := Added(tables[seed.id], n)][n.id := Added(tables[n.id], seed)], kept),
                    seeds)
  {
    var known, more := Added(tables[seed.id], n), Added(tables[n.id], seed);
    var t := tables[seed.id := known][n.id := more];
    states', steps' := Answering(dir, states, steps, tables, kept, n, seed, seeds);
    assert Added(known, n) == known && Added(more, seed) == more;
    states', steps' := Again(dir, states', steps', t, kept, n, seed, seeds);
  }

  lemma Start(dir: Directory, seeds: set<NodeId>) returns (states: seq<Network>, steps: seq<Step>)
    ensures Reaches(dir, states, steps, Initial(dir), seeds)
    ensures Initial(dir).tables.Keys == dir.Keys
    ensures ValidDirectory(dir) ==> forall x :: IsNode(dir, x) ==> Initial(dir).tables[x.id] == One(x)
  {
    states, steps := [Initial(dir)], [];
  }

  ghost predicate Three(dir: Directory, a: Node, b: Node, c: Node) {
    && ValidDirectory(dir) && IsNode(dir, a) && IsNode(dir, b) && IsNode(dir, c)
    && a.id != b.id && b.id != c.id && a.id != c.id
  }

  /** At rest with a knowing both b and c while b and c remain strangers. */
  ghost predicate Strangers(s: Network, a: Node, b: Node, c: Node) {
    && s.inflight == [] && Knows(s, a.id, b.id) && Knows(s, a.id, c.id) && Knows(s, b.id, a.id) && Knows(s, c.id, a.id)
    && !Knows(s, b.id, c.id) && !Knows(s, c.id, b.id)
  }

  /**
   When c joins through a while a joins through b, everything can come to rest with a knowing
   both b and c while b and c remain strangers: knowledge is symmetric but not transitive.
   */
  lemma OverlapLeavesStrangers(dir: Directory, a: Node, b: Node, c: Node)
    returns (states: seq<Network>, steps: seq<Step>)
    requires Three(dir, a, b, c)
    ensures IsRun(dir, states, steps) && Strangers(states[|steps|], a, b, c)
  {
    var seeds := {a.id, b.id};
    states, steps := Start(dir, seeds);
    var t := Initial(dir).tables;
    states, steps := Asks(dir, states, steps, Initial(dir), a, b, seeds);
    assert [] + [Request(a, b)] == [Request(a, b)];
    states, steps := Asks(dir, states, steps, Network(t, [Request(a, b)]), c, a, seeds);
    ListsTwo(a, c);
    states, steps := Handshake(dir, states, steps, t, [Request(a, b)], c, a, seeds);
    ListsTwo(b, a);
    var t' := t[a.id := Added(One(a), c)][c.id := Added(One(c), a)];
    states, steps := Handshake(dir, states, steps, t', [], a, b, seeds);
  }

  /** The members of `a` when it does not count `b` as active. */
  lemma ListsWithout(a: Node, b: Node, c: Node, status: Status)
    requires a.id != b.id && b.id != c.id && a.id != c.id && status != Active
    ensures ListsActive([a, c], Added(WithStatus(Added(One(a), b), b.id, status), c))
  {
    var m, nodes := Added(WithStatus(Added(One(a), b), b.id, status), c), [a, c];
    assert nodes[0] == a && nodes[1] == c;
    forall id | id in m && m[id].status == Active ensures m[id].node in nodes {
      assert id == a.id || id == c.id;
    }
  }

  /**
   When the founder a, through which both b and c join one after the other, does not count b as
   active in between, b and c remain strangers.
   */
  lemma SuspicionLeavesStrangers(dir: Directory, a: Node, b: Node, c: Node, status: Status)
    returns (states: seq<Network>, steps: seq<Step>)
    requires Three(dir, a, b, c) && status != Active
    ensures IsRun(dir, states, steps) && Strangers(states[|steps|], a, b, c)
    ensures forall i :: 0 <= i < |steps| && steps[i].Join? ==> steps[i].seed == a.id
  {
    var seeds := {a.id};
    states, steps := Start(dir, seeds);
    var t0 := Initial(dir).tables;
    states, steps := Asks(dir, states, steps, Initial(dir), b, a, seeds);
    ListsTwo(a, b);
    states, steps := Handshake(dir, states, steps, t0, [], b, a, seeds);
    var t1 := t0[a.id := Added(One(a), b)][b.id := Added(One(b), a)];
    var t2 := t1[a.id := WithStatus(t1[a.id], b.id, status)];
    states, steps := Extend(dir, states, steps, Network(t1, []), Mark(a.id, b.id, status), Network(t2, []), seeds);
    states, steps := Asks(dir, states, steps, Network(t2, []), c, a, seeds);
    ListsWithout(a, b, c, status);
    states, steps := Handshake(dir, states, steps, t2, [], c, a, seeds);
  }

  /**
   A join request that a node takes while it marks itself as syncing is answered without naming
   that node: at rest it knows the newcomer, but the newcomer does not know it.
   */
  lemma SyncingSeedIsNotIntroduced(dir: Directory, n: Node, seed: Node) returns (states: seq<Network>, steps: seq<Step>)
    requires ValidDirectory(dir) && IsNode(dir, n) && IsNode(dir, seed) && n.id != seed.id
    ensures IsRun(dir, states, steps)
    ensures var s := states[|steps|];
            s.inflight == [] && Knows(s, seed.id, n.id) && !Knows(s, n.id, seed.id)
  {
    var seeds := {seed.id};
    states, steps := Start(dir, seeds);
    var t0 := Initial(dir).tables;
    states, steps := Asks(dir, states, steps, Initial(dir), n, seed, seeds);
    var syncing := WithStatus(One(seed), seed.id, Syncing);
    var t1 := t0[seed.id := syncing];
    var s := Network(t0, [] + [Request(n, seed)]);
    states, steps := Extend(dir, states, steps, s, Mark(seed.id, seed.id, Syncing), s.(tables := t1), seeds);
    assert [n][0] == n;
    Answers(seed, syncing, n, [n]);
    var answer := Answer(n, [n]);
    states, steps := Turn(dir, states, steps, t1, [], Request(n, seed), seed.id, Added(syncing, n), [answer], seeds);
    var t2 := t1[seed.id := Added(syncing, n)];
    assert [n][..0] == [];
    assert Absorb(n, t2[n.id], [n]) == (t2[n.id], []);
    states, steps := Turn(dir, states, steps, t2, [], answer, n.id, t2[n.id], [], seeds);
  }
}
