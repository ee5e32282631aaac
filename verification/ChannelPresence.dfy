/**
 Who a channel says is present, in terms of the calls made: each connection under the user info of
 its last join that nothing took back. First for calls one after another, then for calls whose
 pieces interleave.
 */
module ChannelPresence {
  import Wrappers
  import opened Channels
  import H = ChannelHalves

  type Entry = Wrappers.Option<string>

  /** The user info stored for a connection. */
  function Shown(m: State, id: string, c: string): Entry {
    if id in Get(m, c).presence then Wrappers.Some(Get(m, c).presence[id]) else Wrappers.None
  }

  predicate Lists(m: State, id: string, c: string) {
    id in m.connections && c in m.connections[id].present
  }

  // ---------------------------------------------------------------------------
  // Calls one after another
  // ---------------------------------------------------------------------------

  /** A registration that nothing has ended. */
  ghost predicate RegisteredBy(calls: seq<Call>, id: string) {
    exists k :: RegisteredFrom(calls, k, id)
  }

  ghost predicate RegisteredFrom(calls: seq<Call>, k: nat, id: string) {
    k < |calls| && calls[k] == Register(id) && forall j :: k < j < |calls| ==> calls[j] != Unregister(id)
  }

  /** A later call of the same connection takes a join back: another join, a leave, or, if listed, unregistering. */
  predicate Undoes(call: Call, id: string, c: string, listed: bool) {
    || (call.Join? && call.id == id && call.channel == c)
    || call == Leave(id, c)
    || (listed && call == Unregister(id))
  }

  ghost predicate StandsFrom(calls: seq<Call>, k: nat, id: string, c: string, user: string) {
    && k < |calls| && calls[k] == Join(id, c, user)
    && forall j :: k < j < |calls| ==> !Undoes(calls[j], id, c, RegisteredBy(calls[..k], id))
  }

  /** The last join of `id` in `c` was as `user`, and nothing took it back. */
  ghost predicate Stands(calls: seq<Call>, id: string, c: string, user: string) {
    exists k :: StandsFrom(calls, k, id, c, user)
  }

  lemma {:induction false} AfterLast(m: State, calls: seq<Call>)
    requires calls != []
    ensures After(m, calls) == Apply(After(m, calls[..|calls| - 1]), calls[|calls| - 1])
    decreases |calls|
  {
    if |calls| > 1 {
      AfterLast(Apply(m, calls[0]), calls[1..]);
      assert calls[1..][..|calls| - 2] == calls[..|calls| - 1][1..];
    } else {
      assert calls[1..] == [] && calls[..0] == [];
    }
  }

  /** What one call does to one entry of one channel: those of other connections stay as they are. */
  lemma ShownStep(m: State, call: Call, id: string, c: string)
    ensures Shown(Apply(m, call), id, c)
         == if call.Join? && call.id == id && call.channel == c then Wrappers.Some(call.user)
            else if call == Leave(id, c) || (call == Unregister(id) && Lists(m, id, c)) then Wrappers.None
            else Shown(m, id, c)
  {
    if call.Unregister? && call.id in m.connections {
      UnregisteredChannel(m, call.id, c);
    }
  }

  lemma ListsStep(m: State, call: Call, id: string, c: string)
    ensures id in Apply(m, call).connections
       <==> call == Register(id) || (id in m.connections && call != Unregister(id))
    ensures Lists(Apply(m, call), id, c)
       <==> if call.Join? && call.id == id && call.channel == c then id in m.connections
            else Lists(m, id, c) && call != Leave(id, c) && call != Unregister(id)
  {
  }

  lemma RegisteredMore(calls: seq<Call>, call: Call, id: string)
    ensures RegisteredBy(calls + [call], id)
       <==> call == Register(id) || (RegisteredBy(calls, id) && call != Unregister(id))
  {
    var all := calls + [call];
    assert all[|calls|] == call && forall j :: 0 <= j < |calls| ==> all[j] == calls[j];
    if call == Register(id) {
      assert RegisteredFrom(all, |calls|, id);
    } else if RegisteredBy(calls, id) && call != Unregister(id) {
      var k :| RegisteredFrom(calls, k, id);
      assert RegisteredFrom(all, k, id);
    } else if RegisteredBy(all, id) {
      var k :| RegisteredFrom(all, k, id);
      assert RegisteredFrom(calls, k, id);
    }
  }

  lemma {:induction false} RegisteredRun(calls: seq<Call>, id: string)
    ensures id in After(INITIAL, calls).connections <==> RegisteredBy(calls, id)
  {
    if calls != [] {
      var front, last := calls[..|calls| - 1], calls[|calls| - 1];
      RegisteredRun(front, id);
      AfterLast(INITIAL, calls);
      ListsStep(After(INITIAL, front), last, id, "");
      RegisteredMore(front, last, id);
      assert front + [last] == calls;
    }
  }

  lemma StandsMore(calls: seq<Call>, call: Call, k: nat, id: string, c: string, user: string)
    requires k < |calls|
    ensures StandsFrom(calls + [call], k, id, c, user)
       <==> StandsFrom(calls, k, id, c, user) && !Undoes(call, id, c, RegisteredBy(calls[..k], id))
  {
    var all := calls + [call];
    assert all[..k] == calls[..k] && all[|calls|] == call;
    assert forall j :: 0 <= j < |calls| ==> all[j] == calls[j];
  }

  lemma JoinStands(calls: seq<Call>, id: string, c: string, user: string)
    ensures StandsFrom(calls + [Join(id, c, user)], |calls|, id, c, user)
  {
  }

  /** The state in terms of a standing join: shown as its user, and listed exactly if it was registered then. */
  ghost predicate Reflects(calls: seq<Call>, m: State, id: string, c: string) {
    && (forall k: nat, user :: StandsFrom(calls, k, id, c, user) ==>
          Shown(m, id, c) == Wrappers.Some(user) && (Lists(m, id, c) <==> RegisteredBy(calls[..k], id)))
    && (Shown(m, id, c).Some? ==> Stands(calls, id, c, Shown(m, id, c).value))
  }

  lemma ReflectsStanding(calls: seq<Call>, call: Call, m: State, id: string, c: string, k: nat, user: string)
    requires Reflects(calls, m, id, c) && (id in m.connections <==> RegisteredBy(calls, id))
    requires StandsFrom(calls + [call], k, id, c, user)
    ensures Shown(Apply(m, call), id, c) == Wrappers.Some(user)
    ensures Lists(Apply(m, call), id, c) <==> RegisteredBy((calls + [call])[..k], id)
  {
    ShownStep(m, call, id, c);
    ListsStep(m, call, id, c);
    if k < |calls| {
      StandsMore(calls, call, k, id, c, user);
      assert (calls + [call])[..k] == calls[..k];
    } else {
      assert (calls + [call])[..k] == calls;
    }
  }

  lemma ReflectsShown(calls: seq<Call>, call: Call, m: State, id: string, c: string)
    requires Reflects(calls, m, id, c) && Shown(Apply(m, call), id, c).Some?
    ensures Stands(calls + [call], id, c, Shown(Apply(m, call), id, c).value)
  {
    ShownStep(m, call, id, c);
    var user := Shown(Apply(m, call), id, c).value;
    if call.Join? && call.id == id && call.channel == c {
      JoinStands(calls, id, c, user);
    } else {
      var k :| StandsFrom(calls, k, id, c, user);
      StandsMore(calls, call, k, id, c, user);
      assert StandsFrom(calls + [call], k, id, c, user);
    }
  }

  lemma {:induction false} ReflectsRun(calls: seq<Call>, id: string, c: string)
    ensures Reflects(calls, After(INITIAL, calls), id, c)
  {
    if calls != [] {
      var front, last := calls[..|calls| - 1], calls[|calls| - 1];
      assert front + [last] == calls;
      ReflectsRun(front, id, c);
      RegisteredRun(front, id);
      AfterLast(INITIAL, calls);
      var m := After(INITIAL, front);
      forall k: nat, user | StandsFrom(calls, k, id, c, user)
        ensures Shown(Apply(m, last), id, c) == Wrappers.Some(user)
        ensures Lists(Apply(m, last), id, c) <==> RegisteredBy(calls[..k], id)
      {
        ReflectsStanding(front, last, m, id, c, k, user);
      }
      if Shown(Apply(m, last), id, c).Some? {
        ReflectsShown(front, last, m, id, c);
      }
    }
  }

  /** After any calls, a channel shows `id` as `user` if and only if that is its last join there and it stands. */
  lemma PresenceIsLastJoin(calls: seq<Call>, id: string, c: string, user: string)
    ensures var presence := Get(After(INITIAL, calls), c).presence;
            (id in presence && presence[id] == user) <==> Stands(calls, id, c, user)
  {
    ReflectsRun(calls, id, c);
  }

  // ---------------------------------------------------------------------------
  // Calls whose pieces interleave
  // ---------------------------------------------------------------------------

  /** The piece that changes the entry of `id` in `c`, if it is one. */
  predicate Touches(s: H.Step, id: string, c: string) {
    (s.BeginJoin? || s.BeginLeave? || s.LeaveOne?) && s.id == id && s.channel == c
  }

  /** The last piece that touched the entry joined as `user`. */
  ghost predicate LastJoined(steps: seq<H.Step>, id: string, c: string, user: string) {
    exists k :: 0 <= k < |steps| && steps[k] == H.BeginJoin(id, c, user)
                && forall j :: k < j < |steps| ==> !Touches(steps[j], id, c)
  }

  lemma ShownPiece(b: H.Busy, s: H.Step, id: string, c: string)
    requires H.Enabled(b, s)
    ensures Shown(H.Apply(b, s).m, id, c)
         == if !Touches(s, id, c) then Shown(b.m, id, c)
            else if s.BeginJoin? then Wrappers.Some(s.user) else Wrappers.None
  {
  }

  lemma LastJoinedMore(steps: seq<H.Step>, s: H.Step, id: string, c: string, user: string)
    ensures LastJoined(steps + [s], id, c, user)
       <==> if Touches(s, id, c) then s == H.BeginJoin(id, c, user) else LastJoined(steps, id, c, user)
  {
    var all := steps + [s];
    assert all[|steps|] == s && forall j :: 0 <= j < |steps| ==> all[j] == steps[j];
    if !Touches(s, id, c) && LastJoined(steps, id, c, user) {
      var k :| 0 <= k < |steps| && steps[k] == H.BeginJoin(id, c, user)
               && forall j :: k < j < |steps| ==> !Touches(steps[j], id, c);
      assert all[k] == H.BeginJoin(id, c, user);
    }
  }

  lemma {:induction false} HalvesLast(b: H.Busy, steps: seq<H.Step>)
    requires H.Runs(b, steps) && steps != []
    ensures H.Runs(b, steps[..|steps| - 1]) && H.Enabled(H.After(b, steps[..|steps| - 1]), steps[|steps| - 1])
    ensures H.After(b, steps) == H.Apply(H.After(b, steps[..|steps| - 1]), steps[|steps| - 1])
    decreases |steps|
  {
    if |steps| > 1 {
      HalvesLast(H.Apply(b, steps[0]), steps[1..]);
      assert steps[1..][..|steps| - 2] == steps[..|steps| - 1][1..];
    } else {
      assert steps[1..] == [] && steps[..0] == [];
    }
  }

  /** In every state of every interleaving, a channel shows `id` as `user` exactly if it joined so last. */
  lemma {:induction false} PresenceInterleaved(steps: seq<H.Step>, id: string, c: string, user: string)
    requires H.Runs(H.IDLE, steps)
    ensures Shown(H.After(H.IDLE, steps).m, id, c) == Wrappers.Some(user) <==> LastJoined(steps, id, c, user)
    decreases |steps|
  {
    if steps != [] {
      var front, last := steps[..|steps| - 1], steps[|steps| - 1];
      assert front + [last] == steps;
      HalvesLast(H.IDLE, steps);
      PresenceInterleaved(front, id, c, user);
      ShownPiece(H.After(H.IDLE, front), last, id, c);
      LastJoinedMore(front, last, id, c, user);
    }
  }
}
