/**
 Channels and presence (src/scripting/channel_manager.rs): one map of channels with subscriber
 counts and presence, one map of connections listing what each one joined, and two counters.
 `ChannelManager` is the object; the functions on `State` say what each call leaves behind.
 */
module Channels {

  datatype Channel = Channel(presence: map<string, string>, subscribers: nat)

  datatype Connection = Connection(subscribed: set<string>, present: set<string>)

  /** The counters are integers, so that never falling below zero is a result. */
  datatype State = State(
    channels: map<string, Channel>,
    connections: map<string, Connection>,
    activeChannels: int,
    activeConnections: int)

  const NEW_CHANNEL := Channel(map[], 0)

  predicate Empty(ch: Channel) {
    ch.subscribers == 0 && ch.presence == map[]
  }

  // ---------------------------------------------------------------------------
  // The parts of a call that run under one lock
  // ---------------------------------------------------------------------------

  function Get(m: State, c: string): Channel {
    if c in m.channels then m.channels[c] else NEW_CHANNEL
  }

  /** Stores a channel, counting it when it is new. */
  function Put(m: State, c: string, ch: Channel): State {
    m.(channels := m.channels[c := ch],
       activeChannels := if c in m.channels then m.activeChannels else m.activeChannels + 1)
  }

  /** Stores a changed channel, or removes it when nobody is left. */
  function Settle(m: State, c: string, ch: Channel): State
    requires c in m.channels
  {
    if Empty(ch) then m.(channels := m.channels - {c}, activeChannels := m.activeChannels - 1)
    else m.(channels := m.channels[c := ch])
  }

  function CountSubscriber(m: State, c: string): State {
    Put(m, c, Get(m, c).(subscribers := Get(m, c).subscribers + 1))
  }

  function DropSubscriber(m: State, c: string): State {
    if c !in m.channels then m
    else
      var ch := m.channels[c];
      Settle(m, c, ch.(subscribers := if ch.subscribers == 0 then 0 else ch.subscribers - 1))
  }

  function AddPresence(m: State, id: string, c: string, user: string): State {
    Put(m, c, Get(m, c).(presence := Get(m, c).presence[id := user]))
  }

  function DropPresence(m: State, id: string, c: string): State {
    if c !in m.channels || id !in m.channels[c].presence then m
    else Settle(m, c, m.channels[c].(presence := m.channels[c].presence - {id}))
  }

  /** Updates what a connection lists; nothing happens for an unknown connection. */
  function Note(m: State, id: string, c: string, subscribed: bool, add: bool): State {
    if id !in m.connections then m
    else
      var conn := m.connections[id];
      m.(connections := m.connections[id :=
        if subscribed then conn.(subscribed := if add then conn.subscribed + {c} else conn.subscribed - {c})
        else conn.(present := if add then conn.present + {c} else conn.present - {c})])
  }

  // ---------------------------------------------------------------------------
  // Whole calls
  // ---------------------------------------------------------------------------

  function Registered(m: State, id: string): State {
    m.(connections := m.connections[id := Connection({}, {})], activeConnections := m.activeConnections + 1)
  }

  function Subscribed(m: State, id: string, c: string): State {
    Note(CountSubscriber(m, c), id, c, true, true)
  }

  function Unsubscribed(m: State, id: string, c: string): State {
    Note(DropSubscriber(m, c), id, c, true, false)
  }

  function Joined(m: State, id: string, c: string, user: string): State {
    Note(AddPresence(m, id, c, user), id, c, false, true)
  }

  function Left(m: State, id: string, c: string): State {
    Note(DropPresence(m, id, c), id, c, false, false)
  }

  /** A channel after connection `id` has left its presence and given up its subscription. */
  function Without(ch: Channel, id: string, leaves: bool, unsubscribes: bool): Channel {
    Channel(if leaves then ch.presence - {id} else ch.presence,
            if unsubscribes && ch.subscribers > 0 then ch.subscribers - 1 else ch.subscribers)
  }

  /** All channels at once, in no order: what remains of each, if anything does. */
  function Cleaned(channels: map<string, Channel>, id: string, present: set<string>, subscribed: set<string>)
    : map<string, Channel>
  {
    map c | c in channels && !Empty(Without(channels[c], id, c in present, c in subscribed))
      :: Without(channels[c], id, c in present, c in subscribed)
  }

  function Unregistered(m: State, id: string): State {
    if id !in m.connections then m
    else
      var conn := m.connections[id];
      var channels := Cleaned(m.channels, id, conn.present, conn.subscribed);
      var removed := m.channels.Keys - channels.Keys;
      State(channels, m.connections - {id}, m.activeChannels - |removed|, m.activeConnections - 1)
  }

  lemma RemovedCount(channels: map<string, Channel>, id: string, present: set<string>, subscribed: set<string>)
    ensures |channels.Keys - Cleaned(channels, id, present, subscribed).Keys|
         == |channels| - |Cleaned(channels, id, present, subscribed)|
  {
    var kept := Cleaned(channels, id, present, subscribed).Keys;
    assert kept <= channels.Keys && channels.Keys == kept + (channels.Keys - kept);
    assert |channels.Keys| == |channels| && |kept| == |Cleaned(channels, id, present, subscribed)|;
  }

  // ---------------------------------------------------------------------------
  // The invariant every call keeps
  // ---------------------------------------------------------------------------

  ghost predicate NoEmpty(channels: map<string, Channel>) {
    forall c :: c in channels ==> !Empty(channels[c])
  }

  /** The channel counter is right and no stored channel is empty. */
  ghost predicate ChannelsOk(m: State) {
    m.activeChannels == |m.channels| && NoEmpty(m.channels)
  }

  ghost predicate Counted(m: State) {
    ChannelsOk(m) && m.activeConnections == |m.connections|
  }

  lemma PresenceCleanedAt(m: State, orig: map<string, Channel>, id: string, present: set<string>, c: string)
    requires NoEmpty(orig) && c !in present && m.channels == Cleaned(orig, id, present, {})
    ensures c in DropPresence(m, id, c).channels <==> c in Cleaned(orig, id, present + {c}, {})
    ensures c in DropPresence(m, id, c).channels ==>
              DropPresence(m, id, c).channels[c] == Cleaned(orig, id, present + {c}, {})[c]
  {
    if c in orig {
      assert m.channels[c] == orig[c];
      assert id !in orig[c].presence ==> orig[c].presence - {id} == orig[c].presence;
    }
  }

  lemma DropPresenceCleans(m: State, orig: map<string, Channel>, id: string, present: set<string>, c: string)
    requires NoEmpty(orig) && c !in present && m.channels == Cleaned(orig, id, present, {})
    ensures DropPresence(m, id, c).channels == Cleaned(orig, id, present + {c}, {})
  {
    var next, dropped := Cleaned(orig, id, present + {c}, {}), DropPresence(m, id, c).channels;
    PresenceCleanedAt(m, orig, id, present, c);
    forall d ensures d in dropped <==> d in next
             ensures d in dropped ==> dropped[d] == next[d]
    {
      if d != c {
        assert d in dropped <==> d in m.channels;
      }
    }
  }

  lemma DropSubscriberCleans(m: State, orig: map<string, Channel>, id: string, present: set<string>,
                             subscribed: set<string>, c: string)
    requires c !in subscribed && m.channels == Cleaned(orig, id, present, subscribed)
    ensures DropSubscriber(m, c).channels == Cleaned(orig, id, present, subscribed + {c})
  {
    var next := Cleaned(orig, id, present, subscribed + {c});
    assert DropSubscriber(m, c).channels.Keys == next.Keys;
  }

  lemma SettleOk(m: State, c: string, ch: Channel)
    requires ChannelsOk(m) && c in m.channels
    ensures ChannelsOk(Settle(m, c, ch))
  {
    assert (m.channels - {c}).Keys == m.channels.Keys - {c};
    assert m.channels[c := ch].Keys == m.channels.Keys;
    assert |m.channels.Keys| == |m.channels| && |m.channels[c := ch].Keys| == |m.channels[c := ch]|;
    assert |(m.channels - {c}).Keys| == |m.channels - {c}|;
  }

  lemma PutOk(m: State, c: string, ch: Channel)
    requires ChannelsOk(m) && !Empty(ch)
    ensures ChannelsOk(Put(m, c, ch))
  {
    assert m.channels[c := ch].Keys == m.channels.Keys + {c};
    assert |m.channels.Keys| == |m.channels| && |m.channels[c := ch].Keys| == |m.channels[c := ch]|;
  }

  lemma CountSubscriberOk(m: State, c: string)
    requires ChannelsOk(m)
    ensures ChannelsOk(CountSubscriber(m, c))
  {
    PutOk(m, c, Get(m, c).(subscribers := Get(m, c).subscribers + 1));
  }

  lemma AddPresenceOk(m: State, id: string, c: string, user: string)
    requires ChannelsOk(m)
    ensures ChannelsOk(AddPresence(m, id, c, user))
  {
    var ch := Get(m, c).(presence := Get(m, c).presence[id := user]);
    assert id in ch.presence;
    PutOk(m, c, ch);
  }

  // ---------------------------------------------------------------------------
  // The object
  // ---------------------------------------------------------------------------

  class ChannelManager {
    var channels: map<string, Channel>
    var connections: map<string, Connection>
    var activeChannels: int
    var activeConnections: int

    ghost function Contents(): State
      reads this
    {
      State(channels, connections, activeChannels, activeConnections)
    }

    constructor ()
      ensures Contents() == State(map[], map[], 0, 0) && Counted(Contents())
    {
      channels, connections, activeChannels, activeConnections := map[], map[], 0, 0;
    }

    method RegisterConnection(id: string)
      requires Counted(Contents()) && id !in connections
      modifies this
      ensures Contents() == Registered(old(Contents()), id) && Counted(Contents())
    {
      connections := connections[id := Connection({}, {})];
      activeConnections := activeConnections + 1;
    }

    method EnsureChannel(c: string) returns (ch: Channel)
      modifies this
      ensures ch == Get(old(Contents()), c)
      ensures Contents() == Put(old(Contents()), c, ch)
    {
      if c !in channels {
        channels := channels[c := Channel(map[], 0)];
        activeChannels := activeChannels + 1;
      }
      ch := channels[c];
    }

    method Subscribe(id: string, c: string)
      requires Counted(Contents())
      modifies this
      ensures Contents() == Subscribed(old(Contents()), id, c) && Counted(Contents())
    {
      CountSubscriberOk(Contents(), c);
      var ch := EnsureChannel(c);
      channels := channels[c := ch.(subscribers := ch.subscribers + 1)];
      assert channels == old(channels)[c := ch.(subscribers := ch.subscribers + 1)];
      if id in connections {
        var conn := connections[id];
        connections := connections[id := conn.(subscribed := conn.subscribed + {c})];
      }
    }

    method UnsubscribeInternal(c: string)
      requires ChannelsOk(Contents())
      modifies this
      ensures Contents() == DropSubscriber(old(Contents()), c) && ChannelsOk(Contents())
    {
      if c in channels {
        var ch := channels[c];
        ch := ch.(subscribers := if ch.subscribers == 0 then 0 else ch.subscribers - 1);
        SettleOk(Contents(), c, ch);
        channels := channels[c := ch];
        if ch.subscribers == 0 && ch.presence == map[] {
          channels := channels - {c};
          activeChannels := activeChannels - 1;
          assert channels == old(channels) - {c};
        }
      }
    }

    method Unsubscribe(id: string, c: string)
      requires Counted(Contents())
      modifies this
      ensures Contents() == Unsubscribed(old(Contents()), id, c) && Counted(Contents())
    {
      UnsubscribeInternal(c);
      if id in connections {
        var conn := connections[id];
        connections := connections[id := conn.(subscribed := conn.subscribed - {c})];
      }
    }

    method PresenceJoin(id: string, c: string, user: string)
      requires Counted(Contents())
      modifies this
      ensures Contents() == Joined(old(Contents()), id, c, user) && Counted(Contents())
    {
      AddPresenceOk(Contents(), id, c, user);
      var ch := EnsureChannel(c);
      channels := channels[c := ch.(presence := ch.presence[id := user])];
      assert channels == old(channels)[c := ch.(presence := ch.presence[id := user])];
      if id in connections {
        var conn := connections[id];
        connections := connections[id := conn.(present := conn.present + {c})];
      }
    }

    method PresenceLeaveInternal(id: string, c: string)
      requires ChannelsOk(Contents())
      modifies this
      ensures Contents() == DropPresence(old(Contents()), id, c) && ChannelsOk(Contents())
    {
      if c in channels {
        var ch := channels[c];
        if id in ch.presence {
          ch := ch.(presence := ch.presence - {id});
          SettleOk(Contents(), c, ch);
          channels := channels[c := ch];
          if ch.subscribers == 0 && ch.presence == map[] {
            channels := channels - {c};
            activeChannels := activeChannels - 1;
            assert channels == old(channels) - {c};
          }
        }
      }
    }

    method PresenceLeave(id: string, c: string)
      requires Counted(Contents())
      modifies this
      ensures Contents() == Left(old(Contents()), id, c) && Counted(Contents())
    {
      PresenceLeaveInternal(id, c);
      if id in connections {
        var conn := connections[id];
        connections := connections[id := conn.(present := conn.present - {c})];
      }
    }

    method LeaveAll(id: string, present: set<string>)
      requires ChannelsOk(Contents())
      modifies this
      ensures channels == Cleaned(old(channels), id, present, {}) && ChannelsOk(Contents())
      ensures connections == old(connections) && activeConnections == old(activeConnections)
    {
      ghost var orig := channels;
      var todo := present;
      assert channels == Cleaned(orig, id, {}, {});
      assert present - todo == {};
      while todo != {}
        invariant todo <= present
        invariant channels == Cleaned(orig, id, present - todo, {}) && ChannelsOk(Contents())
        invariant connections == old(connections) && activeConnections == old(activeConnections)
        decreases |todo|
      {
        var c :| c in todo;
        DropPresenceCleans(Contents(), orig, id, present - todo, c);
        assert present - todo + {c} == present - (todo - {c});
        PresenceLeaveInternal(id, c);
        todo := todo - {c};
      }
      assert present - todo == present;
    }

    method UnsubscribeAll(id: string, subscribed: set<string>, ghost orig: map<string, Channel>,
                          ghost present: set<string>)
      requires ChannelsOk(Contents()) && channels == Cleaned(orig, id, present, {})
      modifies this
      ensures channels == Cleaned(orig, id, present, subscribed) && ChannelsOk(Contents())
      ensures connections == old(connections) && activeConnections == old(activeConnections)
    {
      var todo := subscribed;
      assert subscribed - todo == {};
      while todo != {}
        invariant todo <= subscribed
        invariant channels == Cleaned(orig, id, present, subscribed - todo) && ChannelsOk(Contents())
        invariant connections == old(connections) && activeConnections == old(activeConnections)
        decreases |todo|
      {
        var c :| c in todo;
        DropSubscriberCleans(Contents(), orig, id, present, subscribed - todo, c);
        assert subscribed - todo + {c} == subscribed - (todo - {c});
        UnsubscribeInternal(c);
        todo := todo - {c};
      }
      assert subscribed - todo == subscribed;
    }

    /** Leaves and unsubscribes channel by channel, in any order the sets happen to be walked. */
    method UnregisterConnection(id: string)
      requires Counted(Contents())
      modifies this
      ensures Contents() == Unregistered(old(Contents()), id) && Counted(Contents())
    {
      if id in connections {
        var conn := connections[id];
        connections := connections - {id};
        assert connections.Keys == old(connections).Keys - {id};
        assert |connections.Keys| == |connections| && |old(connections).Keys| == |old(connections)|;
        ghost var orig := channels;
        LeaveAll(id, conn.present);
        UnsubscribeAll(id, conn.subscribed, orig, conn.present);
        RemovedCount(orig, id, conn.present, conn.subscribed);
        activeConnections := activeConnections - 1;
      }
    }
  }

  // ---------------------------------------------------------------------------
  // The two maps as mirror images
  // ---------------------------------------------------------------------------

  /** The connections that list channel c as subscribed. */
  ghost function Subscribers(m: State, c: string): set<string> {
    set id | id in m.connections && c in m.connections[id].subscribed
  }

  /** The connections that list channel c as present. */
  ghost function Present(m: State, c: string): set<string> {
    set id | id in m.connections && c in m.connections[id].present
  }

  ghost predicate MirroredAt(m: State, c: string) {
    Get(m, c).subscribers == |Subscribers(m, c)| && Get(m, c).presence.Keys == Present(m, c)
  }

  /** Counts and presence maps are what the connections list, for every channel name. */
  ghost predicate Mirrored(m: State) {
    forall c :: MirroredAt(m, c)
  }

  lemma RegisterMirrors(m: State, id: string)
    requires Mirrored(m) && id !in m.connections
    ensures Mirrored(Registered(m, id))
  {
    forall c ensures MirroredAt(Registered(m, id), c) {
      assert MirroredAt(m, c);
      assert Subscribers(Registered(m, id), c) == Subscribers(m, c);
      assert Present(Registered(m, id), c) == Present(m, c);
    }
  }

  /** Subscribing keeps the mirror exactly for a registered connection not subscribed yet. */
  lemma SubscribeMirrorsIff(m: State, id: string, c: string)
    requires Mirrored(m)
    ensures Mirrored(Subscribed(m, id, c))
       <==> id in m.connections && c !in m.connections[id].subscribed
  {
    var m' := Subscribed(m, id, c);
    forall d ensures d != c ==> MirroredAt(m', d) {
      assert MirroredAt(m, d);
      assert Present(m', d) == Present(m, d);
      assert d != c ==> Subscribers(m', d) == Subscribers(m, d);
    }
    assert MirroredAt(m, c) && Present(m', c) == Present(m, c);
    if id in m.connections {
      assert Subscribers(m', c) == Subscribers(m, c) + {id};
    } else {
      assert Subscribers(m', c) == Subscribers(m, c);
    }
    assert MirroredAt(m', c) <==> id in m.connections && c !in m.connections[id].subscribed;
  }

  lemma UnsubscribeElsewhere(m: State, id: string, c: string, d: string)
    requires MirroredAt(m, d) && d != c
    ensures MirroredAt(Unsubscribed(m, id, c), d)
  {
    assert Present(Unsubscribed(m, id, c), d) == Present(m, d);
    assert Subscribers(Unsubscribed(m, id, c), d) == Subscribers(m, d);
  }

  lemma SizeWithout(ids: set<string>, id: string)
    ensures |ids - {id}| == if id in ids then |ids| - 1 else |ids|
  {
    if id !in ids {
      assert ids - {id} == ids;
    }
  }

  lemma UnsubscribedChannel(m: State, id: string, c: string)
    ensures Get(Unsubscribed(m, id, c), c) == Without(Get(m, c), id, false, true)
    ensures Present(Unsubscribed(m, id, c), c) == Present(m, c)
    ensures Subscribers(Unsubscribed(m, id, c), c) == Subscribers(m, c) - {id}
  {
  }

  lemma UnsubscribeThere(m: State, id: string, c: string)
    requires MirroredAt(m, c)
    ensures MirroredAt(Unsubscribed(m, id, c), c) <==> id in Subscribers(m, c) || Get(m, c).subscribers == 0
  {
    UnsubscribedChannel(m, id, c);
    SizeWithout(Subscribers(m, c), id);
  }

  /** Unsubscribing keeps it exactly for a subscriber, or when the channel has no subscribers at all. */
  lemma UnsubscribeMirrorsIff(m: State, id: string, c: string)
    requires Mirrored(m)
    ensures Mirrored(Unsubscribed(m, id, c))
       <==> (id in m.connections && c in m.connections[id].subscribed) || Get(m, c).subscribers == 0
  {
    assert MirroredAt(m, c);
    UnsubscribeThere(m, id, c);
    forall d | d != c ensures MirroredAt(Unsubscribed(m, id, c), d) {
      assert MirroredAt(m, d);
      UnsubscribeElsewhere(m, id, c, d);
    }
    assert id in Subscribers(m, c) <==> id in m.connections && c in m.connections[id].subscribed;
  }

  lemma JoinThere(m: State, id: string, c: string, user: string)
    requires MirroredAt(m, c)
    ensures MirroredAt(Joined(m, id, c, user), c) <==> id in m.connections
  {
    var m' := Joined(m, id, c, user);
    assert Subscribers(m', c) == Subscribers(m, c);
    assert Get(m', c).presence.Keys == Get(m, c).presence.Keys + {id};
    if id in m.connections {
      assert Present(m', c) == Present(m, c) + {id};
    } else {
      assert id !in Present(m', c);
    }
  }

  /** Joining presence keeps it exactly for registered connections. */
  lemma JoinMirrorsIff(m: State, id: string, c: string, user: string)
    requires Mirrored(m)
    ensures Mirrored(Joined(m, id, c, user)) <==> id in m.connections
  {
    var m' := Joined(m, id, c, user);
    assert MirroredAt(m, c);
    JoinThere(m, id, c, user);
    forall d | d != c ensures MirroredAt(m', d) {
      assert MirroredAt(m, d);
      assert Subscribers(m', d) == Subscribers(m, d);
      assert Present(m', d) == Present(m, d);
    }
  }

  /** Leaving presence always keeps it. */
  lemma LeaveMirrors(m: State, id: string, c: string)
    requires Mirrored(m)
    ensures Mirrored(Left(m, id, c))
  {
    var m' := Left(m, id, c);
    forall d ensures MirroredAt(m', d) {
      assert MirroredAt(m, d);
      assert Subscribers(m', d) == Subscribers(m, d);
      assert Present(m', d) == if d == c then Present(m, d) - {id} else Present(m, d);
    }
  }

  lemma UnregisteredChannel(m: State, id: string, c: string)
    requires id in m.connections
    ensures Get(Unregistered(m, id), c)
         == Without(Get(m, c), id, c in m.connections[id].present, c in m.connections[id].subscribed)
  {
  }

  lemma UnregisteredLists(m: State, id: string, c: string)
    ensures Subscribers(Unregistered(m, id), c) == Subscribers(m, c) - {id}
    ensures Present(Unregistered(m, id), c) == Present(m, c) - {id}
    ensures id in Subscribers(m, c) <==> id in m.connections && c in m.connections[id].subscribed
    ensures id in Present(m, c) <==> id in m.connections && c in m.connections[id].present
  {
  }

  lemma UnregisteredAt(m: State, id: string, c: string)
    requires MirroredAt(m, c)
    ensures MirroredAt(Unregistered(m, id), c)
  {
    UnregisteredLists(m, id, c);
    SizeWithout(Subscribers(m, c), id);
    if id in m.connections {
      UnregisteredChannel(m, id, c);
      assert Get(Unregistered(m, id), c).presence.Keys == Get(m, c).presence.Keys - {id};
    } else {
      assert Unregistered(m, id) == m;
    }
  }

  /** Unregistering always keeps it, and leaves no trace of the connection. */
  lemma UnregisterMirrors(m: State, id: string)
    requires Mirrored(m)
    ensures Mirrored(Unregistered(m, id))
    ensures forall c :: id !in Get(Unregistered(m, id), c).presence
    ensures forall c :: Get(Unregistered(m, id), c).subscribers == |Subscribers(m, c) - {id}|
  {
    var m' := Unregistered(m, id);
    forall c ensures MirroredAt(m', c) && id !in Get(m', c).presence
                     && Get(m', c).subscribers == |Subscribers(m, c) - {id}| {
      assert MirroredAt(m, c);
      UnregisteredAt(m, id, c);
      UnregisteredLists(m, id, c);
      assert id !in Present(m', c);
    }
  }

  // ---------------------------------------------------------------------------
  // Whole runs
  // ---------------------------------------------------------------------------

  datatype Call =
    | Register(id: string)
    | Unregister(id: string)
    | Subscribe(id: string, channel: string)
    | Unsubscribe(id: string, channel: string)
    | Join(id: string, channel: string, user: string)
    | Leave(id: string, channel: string)

  function Apply(m: State, call: Call): State {
    match call
    case Register(id) => if id in m.connections then m else Registered(m, id)
    case Unregister(id) => Unregistered(m, id)
    case Subscribe(id, c) => Subscribed(m, id, c)
    case Unsubscribe(id, c) => Unsubscribed(m, id, c)
    case Join(id, c, user) => Joined(m, id, c, user)
    case Leave(id, c) => Left(m, id, c)
  }

  /** Registered connections, subscribing when unsubscribed and unsubscribing when subscribed. */
  predicate Polite(m: State, call: Call) {
    match call
    case Subscribe(id, c) => id in m.connections && c !in m.connections[id].subscribed
    case Unsubscribe(id, c) => id in m.connections && c in m.connections[id].subscribed
    case Join(id, c, user) => id in m.connections
    case _ => true
  }

  const INITIAL := State(map[], map[], 0, 0)

  function After(m: State, calls: seq<Call>): State
    decreases |calls|
  {
    if calls == [] then m else After(Apply(m, calls[0]), calls[1..])
  }

  predicate AllPolite(m: State, calls: seq<Call>)
    decreases |calls|
  {
    calls == [] || (Polite(m, calls[0]) && AllPolite(Apply(m, calls[0]), calls[1..]))
  }

  lemma DropsOk(m: State, id: string, c: string)
    requires ChannelsOk(m)
    ensures ChannelsOk(DropSubscriber(m, c)) && ChannelsOk(DropPresence(m, id, c))
  {
    if c in m.channels {
      var ch := m.channels[c];
      SettleOk(m, c, ch.(subscribers := if ch.subscribers == 0 then 0 else ch.subscribers - 1));
      SettleOk(m, c, ch.(presence := ch.presence - {id}));
    }
  }

  lemma RegisterCounted(m: State, id: string)
    requires Counted(m) && id !in m.connections
    ensures Counted(Registered(m, id))
  {
    var conn := Connection({}, {});
    assert m.connections[id := conn].Keys == m.connections.Keys + {id};
    assert |m.connections[id := conn].Keys| == |m.connections[id := conn]| && |m.connections.Keys| == |m.connections|;
  }

  lemma UnregisterCounted(m: State, id: string)
    requires Counted(m)
    ensures Counted(Unregistered(m, id))
  {
    if id in m.connections {
      RemovedCount(m.channels, id, m.connections[id].present, m.connections[id].subscribed);
      assert (m.connections - {id}).Keys == m.connections.Keys - {id};
      assert |(m.connections - {id}).Keys| == |m.connections - {id}| && |m.connections.Keys| == |m.connections|;
    }
  }

  lemma NoteCounted(m: State, id: string, c: string, subscribed: bool, add: bool)
    requires Counted(m)
    ensures Counted(Note(m, id, c, subscribed, add))
  {
    assert Note(m, id, c, subscribed, add).connections.Keys == m.connections.Keys;
    assert |Note(m, id, c, subscribed, add).connections.Keys| == |Note(m, id, c, subscribed, add).connections|;
    assert |m.connections.Keys| == |m.connections|;
  }

  lemma CallCounted(m: State, call: Call)
    requires Counted(m)
    ensures Counted(Apply(m, call))
  {
    match call
    case Register(id) =>
      if id !in m.connections {
        RegisterCounted(m, id);
      }
    case Unregister(id) => UnregisterCounted(m, id);
    case Subscribe(id, c) =>
      CountSubscriberOk(m, c);
      NoteCounted(CountSubscriber(m, c), id, c, true, true);
    case Unsubscribe(id, c) =>
      DropsOk(m, id, c);
      NoteCounted(DropSubscriber(m, c), id, c, true, false);
    case Join(id, c, user) =>
      AddPresenceOk(m, id, c, user);
      NoteCounted(AddPresence(m, id, c, user), id, c, false, true);
    case Leave(id, c) =>
      DropsOk(m, id, c);
      NoteCounted(DropPresence(m, id, c), id, c, false, false);
  }

  lemma CallMirrored(m: State, call: Call)
    requires Mirrored(m) && Polite(m, call)
    ensures Mirrored(Apply(m, call))
  {
    match call
    case Register(id) =>
      if id !in m.connections {
        RegisterMirrors(m, id);
      }
    case Unregister(id) => UnregisterMirrors(m, id);
    case Subscribe(id, c) => SubscribeMirrorsIff(m, id, c);
    case Unsubscribe(id, c) => UnsubscribeMirrorsIff(m, id, c);
    case Join(id, c, user) => JoinMirrorsIff(m, id, c, user);
    case Leave(id, c) => LeaveMirrors(m, id, c);
  }

  /** After any calls at all, the counters are the map sizes and no stored channel is empty. */
  lemma {:induction false} RunCounted(m: State, calls: seq<Call>)
    requires Counted(m)
    ensures Counted(After(m, calls))
    decreases |calls|
  {
    if calls != [] {
      CallCounted(m, calls[0]);
      RunCounted(Apply(m, calls[0]), calls[1..]);
    }
  }

  lemma EmptyMirrored()
    ensures Mirrored(INITIAL)
  {
    forall c ensures MirroredAt(INITIAL, c) {
      assert Subscribers(INITIAL, c) == {} && Present(INITIAL, c) == {};
    }
  }

  lemma FirstSubscribe(id: string, c: string, call: Call) returns (m: State)
    ensures Mirrored(m) && m.connections.Keys == {id} && c in m.connections[id].subscribed && Get(m, c).subscribers > 0
    ensures After(INITIAL, [Register(id), Subscribe(id, c), call]) == Apply(m, call)
  {
    var calls := [Register(id), Subscribe(id, c), call];
    var m1 := Apply(INITIAL, calls[0]);
    m := Apply(m1, calls[1]);
    assert calls[1..][1..] == [call] && [call][1..] == [];
    assert After(m, [call]) == Apply(m, call);
    assert After(m1, calls[1..]) == Apply(m, call);
    EmptyMirrored();
    RegisterMirrors(INITIAL, id);
    SubscribeMirrorsIff(m1, id, c);
  }

  /** Subscribing twice counts the connection twice. */
  lemma SecondSubscribeMiscounts(id: string, c: string)
    ensures !Mirrored(After(INITIAL, [Register(id), Subscribe(id, c), Subscribe(id, c)]))
  {
    var m := FirstSubscribe(id, c, Subscribe(id, c));
    SubscribeMirrorsIff(m, id, c);
  }

  /** Unsubscribing a connection that is not subscribed takes another one off the count. */
  lemma StrayUnsubscribeMiscounts(id: string, other: string, c: string)
    requires id != other
    ensures !Mirrored(After(INITIAL, [Register(id), Subscribe(id, c), Unsubscribe(other, c)]))
  {
    var m := FirstSubscribe(id, c, Unsubscribe(other, c));
    UnsubscribeMirrorsIff(m, other, c);
  }

  /** After any polite calls, the two maps mirror each other. */
  lemma {:induction false} RunMirrored(m: State, calls: seq<Call>)
    requires Mirrored(m) && AllPolite(m, calls)
    ensures Mirrored(After(m, calls))
    decreases |calls|
  {
    if calls != [] {
      CallMirrored(m, calls[0]);
      RunMirrored(Apply(m, calls[0]), calls[1..]);
    }
  }

  lemma EveryRun(calls: seq<Call>)
    ensures Counted(After(INITIAL, calls))
    ensures AllPolite(INITIAL, calls) ==> Mirrored(After(INITIAL, calls))
  {
    RunCounted(INITIAL, calls);
    EmptyMirrored();
    if AllPolite(INITIAL, calls) {
      RunMirrored(INITIAL, calls);
    }
  }

  /**
   Calls take the two locks one after the other. If a connection is unregistered between the two
   halves of its own subscribe call, the channel counts a subscriber that no connection lists.
   */
  lemma OverlapLeaksSubscriber(m: State, id: string, c: string)
    requires Mirrored(m) && id in m.connections && c !in m.connections[id].subscribed
    ensures var m' := Note(Unregistered(CountSubscriber(m, c), id), id, c, true, true);
      Get(m', c).subscribers == |Subscribers(m', c)| + 1
  {
    var counted := CountSubscriber(m, c);
    assert MirroredAt(m, c);
    UnregisteredChannel(counted, id, c);
    assert Subscribers(Unregistered(counted, id), c) == Subscribers(m, c);
  }

  // ---------------------------------------------------------------------------
  // Interleaved halves
  // ---------------------------------------------------------------------------

  /** The pieces of all calls that run under one lock. */
  datatype Half =
    | Count(channel: string)
    | Drop(channel: string)
    | Enter(id: string, channel: string, user: string)
    | Exit(id: string, channel: string)
    | List(id: string, channel: string, subscribed: bool, add: bool)
    | Connect(id: string)
    | Disconnect(id: string)

  function ApplyHalf(m: State, h: Half): State {
    match h
    case Count(c) => CountSubscriber(m, c)
    case Drop(c) => DropSubscriber(m, c)
    case Enter(id, c, user) => AddPresence(m, id, c, user)
    case Exit(id, c) => DropPresence(m, id, c)
    case List(id, c, subscribed, add) => Note(m, id, c, subscribed, add)
    case Connect(id) => m.(connections := m.connections[id := Connection({}, {})])
    case Disconnect(id) => m.(connections := m.connections - {id})
  }

  function AfterHalves(m: State, halves: seq<Half>): State
    decreases |halves|
  {
    if halves == [] then m else AfterHalves(ApplyHalf(m, halves[0]), halves[1..])
  }

  /** However the halves of concurrent calls interleave, the channel counter stays right and no channel stays empty. */
  lemma {:induction false} HalvesKeepChannels(m: State, halves: seq<Half>)
    requires ChannelsOk(m)
    ensures ChannelsOk(AfterHalves(m, halves))
    decreases |halves|
  {
    if halves != [] {
      match halves[0] {
        case Count(c) => CountSubscriberOk(m, c);
        case Drop(c) => DropsOk(m, "", c);
        case Enter(id, c, user) => AddPresenceOk(m, id, c, user);
        case Exit(id, c) => DropsOk(m, id, c);
        case _ =>
      }
      HalvesKeepChannels(ApplyHalf(m, halves[0]), halves[1..]);
    }
  }
}
