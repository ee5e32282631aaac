/**
 Concurrent calls of the channel manager (src/scripting/channel_manager.rs): every call takes the
 lock on the channels and the lock on the connections one after the other, so the pieces of
 different calls interleave. Pieces that are still to come are remembered as pending.
 */
module ChannelHalves {
  import opened Channels

  /** Still to be listed, still to be unlisted, or unlisted with its connection and still to be dropped. */
  datatype Phase = Listing | Unlisting | Dropping

  /** The calls under way, by connection and channel. */
  type Pending = map<(string, string), Phase>

  datatype Busy = Busy(m: State, subs: Pending, pres: Pending)

  datatype Step =
    | Connect(id: string)
    | Disconnect(id: string)
    | BeginSubscribe(id: string, channel: string)
    | EndSubscribe(id: string, channel: string)
    | BeginUnsubscribe(id: string, channel: string)
    | EndUnsubscribe(id: string, channel: string)
    | DropOne(id: string, channel: string)
    | BeginJoin(id: string, channel: string, user: string)
    | EndJoin(id: string, channel: string)
    | BeginLeave(id: string, channel: string)
    | EndLeave(id: string, channel: string)
    | LeaveOne(id: string, channel: string)

  const IDLE := Busy(INITIAL, map[], map[])

  predicate In(p: Pending, id: string, c: string, phase: Phase) {
    (id, c) in p && p[(id, c)] == phase
  }

  /** No call of this connection is under way. */
  predicate Quiet(p: Pending, id: string) {
    forall k :: k in p ==> k.0 != id
  }

  predicate ListsSubscription(m: State, id: string, c: string) {
    id in m.connections && c in m.connections[id].subscribed
  }

  predicate ListsPresence(m: State, id: string, c: string) {
    id in m.connections && c in m.connections[id].present
  }

  /**
   Polite calls of any number of connections at once: subscribing when unsubscribed, unsubscribing
   when subscribed, one call at a time per connection and channel, and no connection disconnected
   between the halves of a call of its own.
   */
  predicate Enabled(b: Busy, s: Step) {
    match s
    case Connect(id) => id !in b.m.connections && Quiet(b.subs, id) && Quiet(b.pres, id)
    case Disconnect(id) => id in b.m.connections && Quiet(b.subs, id) && Quiet(b.pres, id)
    case BeginSubscribe(id, c) => id in b.m.connections && !ListsSubscription(b.m, id, c) && (id, c) !in b.subs
    case EndSubscribe(id, c) => In(b.subs, id, c, Listing)
    case BeginUnsubscribe(id, c) => ListsSubscription(b.m, id, c) && (id, c) !in b.subs
    case EndUnsubscribe(id, c) => In(b.subs, id, c, Unlisting)
    case DropOne(id, c) => In(b.subs, id, c, Dropping)
    case BeginJoin(id, c, user) => id in b.m.connections && (id, c) !in b.pres
    case EndJoin(id, c) => In(b.pres, id, c, Listing)
    case BeginLeave(id, c) => id in b.m.connections && (id, c) !in b.pres
    case EndLeave(id, c) => In(b.pres, id, c, Unlisting)
    case LeaveOne(id, c) => In(b.pres, id, c, Dropping)
  }

  function Pairs(id: string, channels: set<string>): set<(string, string)> {
    set c | c in channels :: (id, c)
  }

  function ToDrop(id: string, channels: set<string>): Pending {
    map k | k in Pairs(id, channels) :: Dropping
  }

  function Apply(b: Busy, s: Step): Busy
    requires Enabled(b, s)
  {
    match s
    case Connect(id) => b.(m := Registered(b.m, id))
    case Disconnect(id) =>
      var conn := b.m.connections[id];
      Busy(b.m.(connections := b.m.connections - {id}),
           b.subs + ToDrop(id, conn.subscribed), b.pres + ToDrop(id, conn.present))
    case BeginSubscribe(id, c) => Busy(CountSubscriber(b.m, c), b.subs[(id, c) := Listing], b.pres)
    case EndSubscribe(id, c) => Busy(Note(b.m, id, c, true, true), b.subs - {(id, c)}, b.pres)
    case BeginUnsubscribe(id, c) => Busy(DropSubscriber(b.m, c), b.subs[(id, c) := Unlisting], b.pres)
    case EndUnsubscribe(id, c) => Busy(Note(b.m, id, c, true, false), b.subs - {(id, c)}, b.pres)
    case DropOne(id, c) => Busy(DropSubscriber(b.m, c), b.subs - {(id, c)}, b.pres)
    case BeginJoin(id, c, user) => Busy(AddPresence(b.m, id, c, user), b.subs, b.pres[(id, c) := Listing])
    case EndJoin(id, c) => Busy(Note(b.m, id, c, false, true), b.subs, b.pres - {(id, c)})
    case BeginLeave(id, c) => Busy(DropPresence(b.m, id, c), b.subs, b.pres[(id, c) := Unlisting])
    case EndLeave(id, c) => Busy(Note(b.m, id, c, false, false), b.subs, b.pres - {(id, c)})
    case LeaveOne(id, c) => Busy(DropPresence(b.m, id, c), b.subs, b.pres - {(id, c)})
  }

  ghost predicate Runs(b: Busy, steps: seq<Step>)
    decreases |steps|
  {
    steps == [] || (Enabled(b, steps[0]) && Runs(Apply(b, steps[0]), steps[1..]))
  }

  ghost function After(b: Busy, steps: seq<Step>): Busy
    requires Runs(b, steps)
    decreases |steps|
  {
    if steps == [] then b else After(Apply(b, steps[0]), steps[1..])
  }

  // ---------------------------------------------------------------------------
  // Who counts, while calls are under way
  // ---------------------------------------------------------------------------

  /** Whether a connection counts for a channel: what its pending call says, otherwise what it lists. */
  predicate Counts(p: Pending, listed: bool, id: string, c: string) {
    if (id, c) in p then p[(id, c)] != Unlisting else listed
  }

  ghost function Ids(b: Busy, p: Pending): set<string> {
    b.m.connections.Keys + set k | k in p :: k.0
  }

  ghost function Counting(b: Busy, c: string): set<string> {
    set id | id in Ids(b, b.subs) && Counts(b.subs, ListsSubscription(b.m, id, c), id, c)
  }

  ghost function Attending(b: Busy, c: string): set<string> {
    set id | id in Ids(b, b.pres) && Counts(b.pres, ListsPresence(b.m, id, c), id, c)
  }

  lemma CountingIs(b: Busy, id: string, c: string)
    ensures id in Counting(b, c) <==> Counts(b.subs, ListsSubscription(b.m, id, c), id, c)
  {
    if (id, c) in b.subs {
      assert (id, c).0 in Ids(b, b.subs);
    }
  }

  lemma AttendingIs(b: Busy, id: string, c: string)
    ensures id in Attending(b, c) <==> Counts(b.pres, ListsPresence(b.m, id, c), id, c)
  {
    if (id, c) in b.pres {
      assert (id, c).0 in Ids(b, b.pres);
    }
  }

  /** A pending call fits what its connection lists. */
  predicate PendingOk(m: State, k: (string, string), phase: Phase) {
    match phase
    case Listing => k.0 in m.connections && !ListsSubscription(m, k.0, k.1)
    case Unlisting => ListsSubscription(m, k.0, k.1)
    case Dropping => k.0 !in m.connections
  }

  predicate AttendOk(m: State, k: (string, string), phase: Phase) {
    if phase == Dropping then k.0 !in m.connections else k.0 in m.connections
  }

  ghost predicate BalancedAt(b: Busy, c: string) {
    Get(b.m, c).subscribers == |Counting(b, c)| && Get(b.m, c).presence.Keys == Attending(b, c)
  }

  ghost predicate Balanced(b: Busy) {
    && (forall k :: k in b.subs ==> PendingOk(b.m, k, b.subs[k]))
    && (forall k :: k in b.pres ==> AttendOk(b.m, k, b.pres[k]))
    && (forall c :: BalancedAt(b, c))
  }

  /** What a step does to the connections that count for channel d. */
  ghost function CountingAfter(b: Busy, s: Step, d: string): set<string> {
    match s
    case BeginSubscribe(id, c) => if c == d then Counting(b, d) + {id} else Counting(b, d)
    case BeginUnsubscribe(id, c) => if c == d then Counting(b, d) - {id} else Counting(b, d)
    case DropOne(id, c) => if c == d then Counting(b, d) - {id} else Counting(b, d)
    case _ => Counting(b, d)
  }

  ghost function AttendingAfter(b: Busy, s: Step, d: string): set<string> {
    match s
    case BeginJoin(id, c, user) => if c == d then Attending(b, d) + {id} else Attending(b, d)
    case BeginLeave(id, c) => if c == d then Attending(b, d) - {id} else Attending(b, d)
    case LeaveOne(id, c) => if c == d then Attending(b, d) - {id} else Attending(b, d)
    case _ => Attending(b, d)
  }

  lemma CountsStep(b: Busy, s: Step, id: string, d: string)
    requires Enabled(b, s) && ((id, d) in b.subs ==> PendingOk(b.m, (id, d), b.subs[(id, d)]))
    ensures id in Counting(Apply(b, s), d) <==> id in CountingAfter(b, s, d)
  {
    CountingIs(b, id, d);
    CountingIs(Apply(b, s), id, d);
  }

  lemma CountingStep(b: Busy, s: Step, d: string)
    requires Balanced(b) && Enabled(b, s)
    ensures Counting(Apply(b, s), d) == CountingAfter(b, s, d)
  {
    forall id ensures id in Counting(Apply(b, s), d) <==> id in CountingAfter(b, s, d) {
      assert (id, d) in b.subs ==> PendingOk(b.m, (id, d), b.subs[(id, d)]);
      CountsStep(b, s, id, d);
    }
  }

  lemma AttendsStep(b: Busy, s: Step, id: string, d: string)
    requires Enabled(b, s) && ((id, d) in b.pres ==> AttendOk(b.m, (id, d), b.pres[(id, d)]))
    ensures id in Attending(Apply(b, s), d) <==> id in AttendingAfter(b, s, d)
  {
    AttendingIs(b, id, d);
    AttendingIs(Apply(b, s), id, d);
  }

  lemma AttendingStep(b: Busy, s: Step, d: string)
    requires Balanced(b) && Enabled(b, s)
    ensures Attending(Apply(b, s), d) == AttendingAfter(b, s, d)
  {
    forall id ensures id in Attending(Apply(b, s), d) <==> id in AttendingAfter(b, s, d) {
      assert (id, d) in b.pres ==> AttendOk(b.m, (id, d), b.pres[(id, d)]);
      AttendsStep(b, s, id, d);
    }
  }

  /** The pieces that run under the lock on the channels, seen by one channel. */
  lemma Pieces(m: State, id: string, c: string, user: string, d: string)
    ensures Get(CountSubscriber(m, c), d)
         == if c == d then Get(m, d).(subscribers := Get(m, d).subscribers + 1) else Get(m, d)
    ensures Get(DropSubscriber(m, c), d) == if c == d then Without(Get(m, d), id, false, true) else Get(m, d)
    ensures Get(AddPresence(m, id, c, user), d)
         == if c == d then Get(m, d).(presence := Get(m, d).presence[id := user]) else Get(m, d)
  {
  }

  lemma LeavePiece(m: State, id: string, c: string, d: string)
    ensures Get(DropPresence(m, id, c), d).subscribers == Get(m, d).subscribers
    ensures Get(DropPresence(m, id, c), d).presence.Keys
         == if c == d then Get(m, d).presence.Keys - {id} else Get(m, d).presence.Keys
  {
  }

  lemma SubscribersStep(b: Busy, s: Step, d: string)
    requires Balanced(b) && Enabled(b, s)
    ensures Get(Apply(b, s).m, d).subscribers == |CountingAfter(b, s, d)|
  {
    assert BalancedAt(b, d);
    match s {
      case BeginSubscribe(id, c) =>
        Pieces(b.m, id, c, "", d);
        CountingIs(b, id, d);
      case BeginUnsubscribe(id, c) =>
        Pieces(b.m, id, c, "", d);
        CountingIs(b, id, d);
        SizeWithout(Counting(b, d), id);
      case DropOne(id, c) =>
        Pieces(b.m, id, c, "", d);
        CountingIs(b, id, d);
        SizeWithout(Counting(b, d), id);
      case BeginJoin(id, c, user) => Pieces(b.m, id, c, user, d);
      case BeginLeave(id, c) => LeavePiece(b.m, id, c, d);
      case LeaveOne(id, c) => LeavePiece(b.m, id, c, d);
      case _ =>
    }
  }

  lemma PresenceStep(b: Busy, s: Step, d: string)
    requires Balanced(b) && Enabled(b, s)
    ensures Get(Apply(b, s).m, d).presence.Keys == AttendingAfter(b, s, d)
  {
    assert BalancedAt(b, d);
    match s {
      case BeginSubscribe(id, c) => Pieces(b.m, id, c, "", d);
      case BeginUnsubscribe(id, c) => Pieces(b.m, id, c, "", d);
      case DropOne(id, c) => Pieces(b.m, id, c, "", d);
      case BeginJoin(id, c, user) =>
        Pieces(b.m, id, c, user, d);
        assert Get(b.m, d).presence[id := user].Keys == Get(b.m, d).presence.Keys + {id};
      case BeginLeave(id, c) => LeavePiece(b.m, id, c, d);
      case LeaveOne(id, c) => LeavePiece(b.m, id, c, d);
      case _ =>
    }
  }

  lemma PendingStep(b: Busy, s: Step)
    requires Balanced(b) && Enabled(b, s)
    ensures forall k :: k in Apply(b, s).subs ==> PendingOk(Apply(b, s).m, k, Apply(b, s).subs[k])
    ensures forall k :: k in Apply(b, s).pres ==> AttendOk(Apply(b, s).m, k, Apply(b, s).pres[k])
  {
    var b' := Apply(b, s);
    forall k | k in b'.subs ensures PendingOk(b'.m, k, b'.subs[k]) {
      assert k in b.subs ==> PendingOk(b.m, k, b.subs[k]);
    }
    forall k | k in b'.pres ensures AttendOk(b'.m, k, b'.pres[k]) {
      assert k in b.pres ==> AttendOk(b.m, k, b.pres[k]);
    }
  }

  lemma StepBalanced(b: Busy, s: Step)
    requires Balanced(b) && Enabled(b, s)
    ensures Balanced(Apply(b, s))
  {
    PendingStep(b, s);
    forall d ensures BalancedAt(Apply(b, s), d) {
      CountingStep(b, s, d);
      AttendingStep(b, s, d);
      SubscribersStep(b, s, d);
      PresenceStep(b, s, d);
    }
  }

  lemma {:induction false} RunBalanced(b: Busy, steps: seq<Step>)
    requires Balanced(b) && Runs(b, steps)
    ensures Balanced(After(b, steps))
    decreases |steps|
  {
    if steps != [] {
      StepBalanced(b, steps[0]);
      RunBalanced(Apply(b, steps[0]), steps[1..]);
    }
  }

  lemma IdleBalanced()
    ensures Balanced(IDLE)
  {
    forall c ensures BalancedAt(IDLE, c) {
      assert Counting(IDLE, c) == {} && Attending(IDLE, c) == {};
    }
  }

  // ---------------------------------------------------------------------------
  // What every interleaving of polite calls guarantees
  // ---------------------------------------------------------------------------

  ghost function Marked(p: Pending, c: string, phase: Phase): set<string> {
    set k | k in p && k.1 == c && p[k] == phase :: k.0
  }

  lemma MarkedIs(p: Pending, id: string, c: string, phase: Phase)
    ensures id in Marked(p, c, phase) <==> In(p, id, c, phase)
  {
    if In(p, id, c, phase) {
      assert (id, c).0 in Marked(p, c, phase);
    }
  }

  lemma SizeOfBalance(all: set<string>, listed: set<string>, adds: set<string>, drops: set<string>, leaves: set<string>)
    requires all == listed - leaves + adds + drops && leaves <= listed
    requires adds !! listed && drops !! listed && adds !! drops
    ensures |all| == |listed| - |leaves| + |adds| + |drops|
  {
    assert listed == (listed - leaves) + leaves;
    assert |listed - leaves + adds + drops| == |listed - leaves + adds| + |drops|;
  }

  /**
   In every state of every interleaving, a channel's count is the number of connections that list
   it, plus the calls that counted but have not listed yet, plus the disconnected connections not
   dropped yet, minus the calls that dropped but have not unlisted yet.
   */
  lemma CountAddsUp(steps: seq<Step>, c: string)
    requires Runs(IDLE, steps)
    ensures var b := After(IDLE, steps);
      Get(b.m, c).subscribers == |Subscribers(b.m, c)| + |Marked(b.subs, c, Listing)| + |Marked(b.subs, c, Dropping)|
                                 - |Marked(b.subs, c, Unlisting)|
  {
    IdleBalanced();
    RunBalanced(IDLE, steps);
    var b := After(IDLE, steps);
    assert BalancedAt(b, c);
    var listed, adds := Subscribers(b.m, c), Marked(b.subs, c, Listing);
    var drops, leaves := Marked(b.subs, c, Dropping), Marked(b.subs, c, Unlisting);
    forall id
      ensures id in Counting(b, c) <==> (id in listed && id !in leaves) || id in adds || id in drops
      ensures (id in leaves ==> id in listed) && (id in adds || id in drops ==> id !in listed)
      ensures !(id in adds && id in drops)
    {
      CountingIs(b, id, c);
      MarkedIs(b.subs, id, c, Listing);
      MarkedIs(b.subs, id, c, Dropping);
      MarkedIs(b.subs, id, c, Unlisting);
      assert (id, c) in b.subs ==> PendingOk(b.m, (id, c), b.subs[(id, c)]);
    }
    SizeOfBalance(Counting(b, c), listed, adds, drops, leaves);
  }

  /** When all calls have finished, counts and presence are what the connections list. */
  lemma MirroredWhenFinished(steps: seq<Step>)
    requires Runs(IDLE, steps) && After(IDLE, steps).subs == map[] && After(IDLE, steps).pres == map[]
    ensures Mirrored(After(IDLE, steps).m)
  {
    IdleBalanced();
    RunBalanced(IDLE, steps);
    var b := After(IDLE, steps);
    forall c ensures MirroredAt(b.m, c) {
      assert BalancedAt(b, c);
      assert Counting(b, c) == Subscribers(b.m, c);
      assert Attending(b, c) == Present(b.m, c);
    }
  }
}
