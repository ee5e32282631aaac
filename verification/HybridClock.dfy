/**
 Hybrid logical clocks (src/cluster/hlc.rs): the value type, `tick` and `receive`, and what
 they guarantee over whole distributed runs. The wall clock is an arbitrary input, so it may
 run backwards. The 32-bit counter wraps, as an unchecked build of the source does.
 */
module HybridClock {

  import opened Numbers

  datatype Clock = Clock(physical: nat, logical: nat, node: string)

  datatype Ordering = Less | Equal | Greater

  function CompareNat(a: nat, b: nat): Ordering {
    if a < b then Less else if a == b then Equal else Greater
  }

  /** Order of Rust strings: lexicographic by code point. */
  function CompareText(a: string, b: string): Ordering {
    if a == [] then (if b == [] then Equal else Less)
    else if b == [] then Greater
    else if a[0] < b[0] then Less
    else if b[0] < a[0] then Greater
    else CompareText(a[1..], b[1..])
  }

  function Compare(a: Clock, b: Clock): Ordering {
    match CompareNat(a.physical, b.physical)
    case Equal =>
      (match CompareNat(a.logical, b.logical)
       case Equal => CompareText(a.node, b.node)
       case other => other)
    case other => other
  }

  predicate IsNewerThan(a: Clock, b: Clock) {
    Compare(a, b) == Greater
  }

  /** Strictly above in the two numeric components, whatever the node ids. */
  predicate Above(a: Clock, b: Clock) {
    a.physical > b.physical || (a.physical == b.physical && a.logical > b.logical)
  }

  function Increment(logical: nat): nat {
    (logical + 1) % U32_LIMIT
  }

  function Tick(self: Clock, node: string, now: nat): Clock {
    if now > self.physical then Clock(now, 0, node)
    else Clock(self.physical, Increment(self.logical), node)
  }

  function Receive(self: Clock, other: Clock, node: string, now: nat): Clock {
    if now > self.physical && now > other.physical then Clock(now, 0, node)
    else if self.physical > other.physical then
      if now >= self.physical then Clock(now, 0, node)
      else Clock(self.physical, Increment(self.logical), node)
    else if other.physical > self.physical then
      Clock(other.physical, Increment(other.logical), node)
    else Clock(self.physical, Increment(Max(self.logical, other.logical)), node)
  }

  /** The corner of `receive` that resets the counter although time did not advance. */
  predicate ResetsCounter(self: Clock, other: Clock, now: nat) {
    now == self.physical > other.physical
  }

  /** The counter `receive` increments, when it increments one. */
  function Incremented(self: Clock, other: Clock, now: nat): nat {
    if now > self.physical && now > other.physical then 0
    else if self.physical > other.physical then (if now >= self.physical then 0 else self.logical)
    else if other.physical > self.physical then other.logical
    else Max(self.logical, other.logical)
  }

  lemma {:induction false} CompareTextReflexive(a: string)
    ensures CompareText(a, a) == Equal
  {
    if a != [] {
      CompareTextReflexive(a[1..]);
    }
  }

  lemma {:induction false} CompareTextEqual(a: string, b: string)
    requires CompareText(a, b) == Equal
    ensures a == b
  {
    if a != [] {
      CompareTextEqual(a[1..], b[1..]);
      assert a == [a[0]] + a[1..] && b == [b[0]] + b[1..];
    }
  }

  /** `tick` is newer than the clock it starts from, exactly when the counter does not wrap. */
  lemma TickNewerIff(self: Clock, now: nat)
    requires self.logical < U32_LIMIT
    ensures IsNewerThan(Tick(self, self.node, now), self)
            <==> (now > self.physical || self.logical + 1 < U32_LIMIT)
  {
  }

  /** On a node's own clock, `receive` is newer than the clock it updates iff it misses the reset corner. */
  lemma ReceiveNewerThanSelfIff(self: Clock, other: Clock, now: nat)
    requires Incremented(self, other, now) + 1 < U32_LIMIT
    ensures IsNewerThan(Receive(self, other, self.node, now), self) <==> !ResetsCounter(self, other, now)
  {
    CompareTextReflexive(self.node);
  }

  lemma ReceiveNewerThanRemote(self: Clock, other: Clock, node: string, now: nat)
    requires Incremented(self, other, now) + 1 < U32_LIMIT
    ensures Above(Receive(self, other, node, now), other)
    ensures IsNewerThan(Receive(self, other, node, now), other)
  {
  }

  /** A clock of `node` that is not behind the wall reading. */
  predicate Admissible(c: Clock, node: string, now: nat) {
    c.node == node && c.physical >= now
  }

  /** Of two clocks of one node, the second is the first or comes after it. */
  predicate AtMost(a: Clock, b: Clock) {
    a == b || Above(b, a)
  }

  /** `tick` gives the least admissible clock above the one it starts from, while the counter does not wrap. */
  lemma TickIsLeast(self: Clock, node: string, now: nat, c: Clock)
    requires now <= self.physical ==> self.logical + 1 < U32_LIMIT
    ensures Admissible(Tick(self, node, now), node, now) && Above(Tick(self, node, now), self)
    ensures Admissible(c, node, now) && Above(c, self) ==> AtMost(Tick(self, node, now), c)
  {
  }

  /**
   Outside the reset, `receive` gives the least admissible clock above both clocks. In the reset it
   gives the least admissible clock above the remote one, whatever the local counter was.
   */
  lemma ReceiveIsLeast(self: Clock, other: Clock, node: string, now: nat, c: Clock)
    requires Incremented(self, other, now) + 1 < U32_LIMIT
    ensures var r := Receive(self, other, node, now);
            && Admissible(r, node, now) && Above(r, other) && (Above(r, self) || ResetsCounter(self, other, now))
            && (Admissible(c, node, now) && Above(c, other) && (Above(c, self) || ResetsCounter(self, other, now)) ==>
                  AtMost(r, c))
  {
  }

  // ---------------------------------------------------------------------------
  // Runs: events of any number of nodes, in an order consistent with causality
  // ---------------------------------------------------------------------------

  /** `prev` is the previous event on the same node, `from` the event whose clock the message carried. */
  datatype Kind = Start | Local(prev: nat) | Remote(prev: nat, from: nat)

  datatype Event = Event(node: string, kind: Kind, wall: nat, clock: Clock)

  type Run = seq<Event>

  ghost predicate IsPrevious(r: Run, p: nat, i: nat)
    requires i < |r|
  {
    p < i && r[p].node == r[i].node && forall k :: p < k < i ==> r[k].node != r[i].node
  }

  ghost predicate ValidEvent(r: Run, i: nat)
    requires i < |r|
  {
    var e := r[i];
    match e.kind
    case Start =>
      (forall k :: 0 <= k < i ==> r[k].node != e.node) && e.clock == Clock(e.wall, 0, e.node)
    case Local(p) =>
      IsPrevious(r, p, i) && e.clock == Tick(r[p].clock, e.node, e.wall)
    case Remote(p, f) =>
      IsPrevious(r, p, i) && f < i && e.clock == Receive(r[p].clock, r[f].clock, e.node, e.wall)
  }

  ghost predicate ValidRun(r: Run) {
    forall i :: 0 <= i < |r| ==> ValidEvent(r, i)
  }

  ghost predicate Overflows(r: Run, i: nat)
    requires i < |r| && ValidEvent(r, i)
  {
    match r[i].kind
    case Start => false
    case Local(p) => r[i].wall <= r[p].clock.physical && r[p].clock.logical + 1 >= U32_LIMIT
    case Remote(p, f) => Incremented(r[p].clock, r[f].clock, r[i].wall) + 1 >= U32_LIMIT
  }

  ghost predicate HitsReset(r: Run, i: nat)
    requires i < |r| && ValidEvent(r, i)
  {
    r[i].kind.Remote? && ResetsCounter(r[r[i].kind.prev].clock, r[r[i].kind.from].clock, r[i].wall)
  }

  ghost predicate NoOverflow(r: Run)
    requires ValidRun(r)
  {
    forall i :: 0 <= i < |r| ==> ValidEvent(r, i) && !Overflows(r, i)
  }

  ghost predicate NoReset(r: Run)
    requires ValidRun(r)
  {
    forall i :: 0 <= i < |r| ==> ValidEvent(r, i) && !HitsReset(r, i)
  }

  /** Lamport's happens-before relation on the events of a run. */
  ghost predicate HappensBefore(r: Run, i: nat, j: nat)
    requires ValidRun(r) && j < |r|
    decreases j
  {
    assert ValidEvent(r, j);
    match r[j].kind
    case Start => false
    case Local(p) => i == p || HappensBefore(r, i, p)
    case Remote(p, f) => i == p || i == f || HappensBefore(r, i, p) || HappensBefore(r, i, f)
  }

  ghost predicate CausallyOrdered(r: Run)
    requires ValidRun(r)
  {
    forall i: nat, j: nat :: j < |r| && HappensBefore(r, i, j) ==> i < |r| && IsNewerThan(r[j].clock, r[i].clock)
  }

  lemma {:induction false} HappensBeforeEarlier(r: Run, i: nat, j: nat)
    requires ValidRun(r) && j < |r| && HappensBefore(r, i, j)
    ensures i < j
    decreases j
  {
    assert ValidEvent(r, j);
    match r[j].kind
    case Local(p) =>
      if i != p { HappensBeforeEarlier(r, i, p); }
    case Remote(p, f) =>
      if i != p && i != f {
        if HappensBefore(r, i, p) { HappensBeforeEarlier(r, i, p); } else { HappensBeforeEarlier(r, i, f); }
      }
  }

  lemma {:induction false} ClockNode(r: Run, i: nat)
    requires ValidRun(r) && i < |r|
    ensures r[i].clock.node == r[i].node
  {
    assert ValidEvent(r, i);
  }

  lemma {:induction false} CausalStepsAbove(r: Run, i: nat, j: nat)
    requires ValidRun(r) && NoOverflow(r) && NoReset(r)
    requires j < |r| && HappensBefore(r, i, j)
    ensures i < j && Above(r[j].clock, r[i].clock)
    decreases j
  {
    HappensBeforeEarlier(r, i, j);
    assert ValidEvent(r, j) && !Overflows(r, j) && !HitsReset(r, j);
    match r[j].kind
    case Local(p) =>
      if i != p { CausalStepsAbove(r, i, p); }
    case Remote(p, f) =>
      ReceiveNewerThanRemote(r[p].clock, r[f].clock, r[j].node, r[j].wall);
      if i != p && i != f {
        if HappensBefore(r, i, p) { CausalStepsAbove(r, i, p); } else { CausalStepsAbove(r, i, f); }
      }
  }

  lemma ResetBreaksOrder(r: Run, j: nat)
    requires ValidRun(r) && NoOverflow(r)
    requires j < |r| && ValidEvent(r, j) && HitsReset(r, j)
    ensures r[j].kind.Remote? && HappensBefore(r, r[j].kind.prev, j)
    ensures !IsNewerThan(r[j].clock, r[r[j].kind.prev].clock)
  {
    var p, f := r[j].kind.prev, r[j].kind.from;
    ClockNode(r, p);
    assert !Overflows(r, j);
    ReceiveNewerThanSelfIff(r[p].clock, r[f].clock, r[j].wall);
  }

  /**
   Main theorem. In every run without counter overflow, each event's clock is newer than the
   clocks of all its causal predecessors if and only if no receive hits the reset corner.
   */
  lemma CausalOrderIffNoReset(r: Run)
    requires ValidRun(r) && NoOverflow(r)
    ensures CausallyOrdered(r) <==> NoReset(r)
  {
    if NoReset(r) {
      forall i: nat, j: nat | j < |r| && HappensBefore(r, i, j)
        ensures i < |r| && IsNewerThan(r[j].clock, r[i].clock)
      {
        CausalStepsAbove(r, i, j);
      }
    } else {
      var j :| 0 <= j < |r| && !(ValidEvent(r, j) && !HitsReset(r, j));
      ResetBreaksOrder(r, j);
    }
  }

  /** Every physical part is a wall reading taken by the event itself or by a causal predecessor. */
  lemma {:induction false} PhysicalIsAWallReading(r: Run, j: nat) returns (i: nat)
    requires ValidRun(r) && j < |r|
    ensures i <= j && (i == j || HappensBefore(r, i, j))
    ensures r[j].clock.physical == r[i].wall
    decreases j
  {
    assert ValidEvent(r, j);
    match r[j].kind
    case Start =>
      i := j;
    case Local(p) =>
      if r[j].wall > r[p].clock.physical { i := j; } else { i := PhysicalIsAWallReading(r, p); }
    case Remote(p, f) =>
      if r[j].clock.physical == r[j].wall { i := j; }
      else if r[j].clock.physical == r[p].clock.physical { i := PhysicalIsAWallReading(r, p); }
      else { i := PhysicalIsAWallReading(r, f); }
  }

  /** A clock never runs ahead of the largest wall reading taken so far anywhere in the run. */
  lemma PhysicalBoundedByWalls(r: Run, j: nat, bound: nat)
    requires ValidRun(r) && j < |r|
    requires forall k :: 0 <= k <= j ==> r[k].wall <= bound
    ensures r[j].clock.physical <= bound
  {
    var i := PhysicalIsAWallReading(r, j);
  }

  /** The reset corner is reachable: four events on two nodes whose wall clocks stand still. */
  lemma ResetIsReachable() returns (r: Run)
    ensures ValidRun(r) && NoOverflow(r) && !CausallyOrdered(r)
  {
    var a := Event("a", Start, 5, Clock(5, 0, "a"));
    var b := Event("b", Start, 4, Clock(4, 0, "b"));
    var c := Event("a", Local(0), 5, Clock(5, 1, "a"));
    var d := Event("a", Remote(2, 1), 5, Clock(5, 0, "a"));
    r := [a, b, c, d];
    assert ValidEvent(r, 0) && ValidEvent(r, 1) && ValidEvent(r, 2) && ValidEvent(r, 3);
    assert HitsReset(r, 3);
    CausalOrderIffNoReset(r);
  }
}
