/** The in-memory broadcaster of operation updates: bounded channels, sends that never block, and clean-up. */
module Broadcaster {
  import opened Identifiers

  type ChannelId = nat
  type Update = nat

  const CAPACITY := 16

  /** `offered` and `received` only observe: what was published to the channel's operation while it was subscribed, and
      what its reader has taken out. */
  datatype Channel = Channel(operation: OperationId, buffer: seq<Update>, isOpen: bool, offered: seq<Update>,
    received: seq<Update>) {
    function Sent(update: Update): Channel {
      this.(buffer := if |buffer| < CAPACITY then buffer + [update] else buffer, offered := offered + [update])
    }

    function Read(): Channel {
      if buffer == [] then this else this.(buffer := buffer[1..], received := received + [buffer[0]])
    }

    /** What has come through or still will. */
    function Through(): seq<Update> {
      received + buffer
    }
  }

  datatype Hub = Hub(subscribers: map<OperationId, seq<ChannelId>>, channels: map<ChannelId, Channel>)

  datatype Action =
    | Publish(operation: OperationId, update: Update)
    | Subscribe(operation: OperationId, channel: ChannelId)
    | CleanUp(operation: OperationId, channel: ChannelId)
    | Receive(channel: ChannelId)

  function Subscribers(h: Hub, operation: OperationId): seq<ChannelId> {
    if operation in h.subscribers then h.subscribers[operation] else []
  }

  function Without(list: seq<ChannelId>, channel: ChannelId): seq<ChannelId> {
    if list == [] then []
    else if list[0] == channel then list[1..]
    else [list[0]] + Without(list[1..], channel)
  }

  function After(h: Hub, action: Action): Hub {
    match action
    case Publish(operation, update) =>
      h.(channels := map c | c in h.channels ::
        if c in Subscribers(h, operation) then h.channels[c].Sent(update) else h.channels[c])
    case Subscribe(operation, channel) =>
      if channel in h.channels then h // a fresh channel is never one that exists
      else Hub(h.subscribers[operation := Subscribers(h, operation) + [channel]],
               h.channels[channel := Channel(operation, [], true, [], [])])
    case CleanUp(operation, channel) =>
      var list := Subscribers(h, operation);
      if channel !in list || channel !in h.channels then h
      else
        var rest := Without(list, channel);
        Hub(if rest == [] then h.subscribers - {operation} else h.subscribers[operation := rest],
            h.channels[channel := h.channels[channel].(isOpen := false)])
    case Receive(channel) =>
      if channel in h.channels then h.(channels := h.channels[channel := h.channels[channel].Read()]) else h
  }

  function AfterAll(h: Hub, actions: seq<Action>): Hub {
    if actions == [] then h else After(AfterAll(h, actions[..|actions| - 1]), actions[|actions| - 1])
  }

  const EMPTY := Hub(map[], map[])

  /** s, read in order, can be picked out of t. */
  ghost predicate PickedFrom(s: seq<Update>, t: seq<Update>) {
    s == [] || (t != [] && (PickedFrom(s, t[..|t| - 1])
      || (s[|s| - 1] == t[|t| - 1] && PickedFrom(s[..|s| - 1], t[..|t| - 1]))))
  }

  lemma {:induction false} PickedFromMore(s: seq<Update>, t: seq<Update>, update: Update)
    requires PickedFrom(s, t)
    ensures PickedFrom(s, t + [update]) && PickedFrom(s + [update], t + [update])
  {
  }

  predicate Distinct(list: seq<ChannelId>) {
    forall i, j :: 0 <= i < j < |list| ==> list[i] != list[j]
  }

  /** A channel holds at most its capacity, and what comes through it is, in order, part of what it was offered, all of
      it as long as it was offered no more than it can hold. */
  ghost predicate Intact(channel: Channel) {
    && |channel.buffer| <= CAPACITY
    && PickedFrom(channel.Through(), channel.offered)
    && (|channel.offered| <= CAPACITY ==> channel.Through() == channel.offered)
  }

  /** A channel is open exactly as long as it is listed under its operation. */
  ghost predicate ChannelRight(h: Hub, c: ChannelId)
    requires c in h.channels
  {
    (h.channels[c].isOpen <==> c in Subscribers(h, h.channels[c].operation)) && Intact(h.channels[c])
  }

  ghost predicate Right(h: Hub) {
    && (forall c :: c in h.channels ==> ChannelRight(h, c))
    && (forall o :: o in h.subscribers ==> h.subscribers[o] != [] && Distinct(h.subscribers[o]))
    && (forall o, c :: o in h.subscribers && c in h.subscribers[o] ==> c in h.channels && h.channels[c].operation == o)
  }

  lemma {:induction false} WithoutOnlyDrops(list: seq<ChannelId>, channel: ChannelId)
    requires Distinct(list)
    ensures Distinct(Without(list, channel))
    ensures forall c :: c in Without(list, channel) <==> c in list && c != channel
  {
    if list != [] {
      var rest := list[1..];
      assert forall i :: 0 <= i < |rest| ==> rest[i] == list[i + 1];
      assert list == [list[0]] + rest;
      if list[0] != channel {
        WithoutOnlyDrops(rest, channel);
        var kept := Without(rest, channel);
        forall j | 0 <= j < |kept| ensures kept[j] != list[0] {
          assert kept[j] in kept && kept[j] in rest;
        }
      }
    }
  }

  lemma {:induction false} SentIntact(channel: Channel, update: Update)
    requires Intact(channel)
    ensures Intact(channel.Sent(update))
  {
    PickedFromMore(channel.Through(), channel.offered, update);
    if |channel.buffer| < CAPACITY {
      assert channel.Sent(update).Through() == channel.Through() + [update];
    } else {
      assert channel.Sent(update).Through() == channel.Through();
    }
  }

  lemma {:induction false} OthersIntact(operation: OperationId, channel: Channel)
    ensures Intact(Channel(operation, [], true, [], []))
    ensures Intact(channel) ==> Intact(channel.(isOpen := false)) && Intact(channel.Read())
  {
    assert channel.Read().Through() == channel.Through();
    assert channel.(isOpen := false).Through() == channel.Through();
  }

  lemma {:induction false} PublishKeepsRight(h: Hub, operation: OperationId, update: Update)
    requires Right(h)
    ensures Right(After(h, Publish(operation, update)))
  {
    hide Intact;
    var h' := After(h, Publish(operation, update));
    forall c | c in h'.channels ensures ChannelRight(h', c) {
      assert ChannelRight(h, c);
      SentIntact(h.channels[c], update);
    }
  }

  lemma {:induction false} SubscribeKeepsRight(h: Hub, operation: OperationId, channel: ChannelId)
    requires Right(h)
    ensures Right(After(h, Subscribe(operation, channel)))
  {
    hide Intact;
    var h' := After(h, Subscribe(operation, channel));
    if channel !in h.channels {
      OthersIntact(operation, h'.channels[channel]);
      forall c | c in h'.channels ensures ChannelRight(h', c) {
        assert c in h.channels ==> ChannelRight(h, c);
      }
    }
  }

  lemma {:induction false} CleanUpKeepsRight(h: Hub, operation: OperationId, channel: ChannelId)
    requires Right(h)
    ensures Right(After(h, CleanUp(operation, channel)))
  {
    hide Intact, Without;
    var h' := After(h, CleanUp(operation, channel));
    if operation in h.subscribers && channel in h.subscribers[operation] {
      WithoutOnlyDrops(h.subscribers[operation], channel);
      OthersIntact(operation, h.channels[channel]);
      forall c | c in h'.channels ensures ChannelRight(h', c) {
        assert ChannelRight(h, c);
      }
    }
  }

  lemma {:induction false} ReceiveKeepsRight(h: Hub, channel: ChannelId)
    requires Right(h)
    ensures Right(After(h, Receive(channel)))
  {
    hide Intact;
    if channel in h.channels {
      var h' := After(h, Receive(channel));
      OthersIntact(0, h.channels[channel]);
      forall c | c in h'.channels ensures ChannelRight(h', c) {
        assert ChannelRight(h, c);
      }
    }
  }

  /** After any actions: an open channel is listed under its operation alone, no closed one is listed any more, so that
      no send ever hits a closed channel; and what a reader gets is, in order, part of what was published while it was
      subscribed, and all of it as long as that was no more than a buffer's worth. */
  lemma {:induction false} ActionsKeepRight(actions: seq<Action>)
    ensures Right(AfterAll(EMPTY, actions))
  {
    if actions != [] {
      var h := AfterAll(EMPTY, actions[..|actions| - 1]);
      ActionsKeepRight(actions[..|actions| - 1]);
      match actions[|actions| - 1]
      case Publish(operation, update) => PublishKeepsRight(h, operation, update);
      case Subscribe(operation, channel) => SubscribeKeepsRight(h, operation, channel);
      case CleanUp(operation, channel) => CleanUpKeepsRight(h, operation, channel);
      case Receive(channel) => ReceiveKeepsRight(h, channel);
    }
  }

  class LocalBroadcaster {
    var subscribers: map<OperationId, seq<ChannelId>>
    var channels: map<ChannelId, Channel>

    function Snapshot(): Hub
      reads this
    {
      Hub(subscribers, channels)
    }

    constructor ()
      ensures Snapshot() == EMPTY
    {
      subscribers, channels := map[], map[];
    }

    method PublishUpdate(operation: OperationId, update: Update)
      requires Right(Snapshot())
      modifies this`channels
      ensures Snapshot() == After(old(Snapshot()), Publish(operation, update))
    {
      ghost var before := Snapshot();
      var list := if operation in subscribers then subscribers[operation] else [];
      assert Distinct(list) && forall c :: c in list ==> c in channels;
      hide Right;
      for i := 0 to |list|
        invariant subscribers == before.subscribers && channels.Keys == before.channels.Keys
        invariant forall c :: c in channels ==>
          channels[c] == if c in list[..i] then before.channels[c].Sent(update) else before.channels[c]
      {
        var c := list[i];
        assert list[..i + 1] == list[..i] + [c];
        var channel := channels[c];
        if |channel.buffer| < CAPACITY {
          channels := channels[c := channel.(buffer := channel.buffer + [update],
            offered := channel.offered + [update])];
        } else {
          channels := channels[c := channel.(offered := channel.offered + [update])];
        }
      }
      assert list[..|list|] == list;
      assert channels == After(before, Publish(operation, update)).channels;
    }

    method SubscribeTo(operation: OperationId, channel: ChannelId)
      requires channel !in channels
      modifies this
      ensures Snapshot() == After(old(Snapshot()), Subscribe(operation, channel))
    {
      var list := if operation in subscribers then subscribers[operation] else [];
      subscribers := subscribers[operation := list + [channel]];
      channels := channels[channel := Channel(operation, [], true, [], [])];
    }

    /** The function that a subscriber is given to end its subscription; calling it again does nothing. */
    method CleanUpChannel(operation: OperationId, channel: ChannelId)
      requires Right(Snapshot())
      modifies this
      ensures Snapshot() == After(old(Snapshot()), CleanUp(operation, channel))
    {
      if operation !in subscribers {
        return;
      }
      var list := subscribers[operation];
      for i := 0 to |list|
        invariant subscribers == old(subscribers) && channels == old(channels)
        invariant channel !in list[..i]
      {
        if list[i] == channel {
          WithoutAt(list, channel, i);
          subscribers := subscribers[operation := list[..i] + list[i + 1..]];
          channels := channels[channel := channels[channel].(isOpen := false)];
          if |subscribers[operation]| == 0 {
            subscribers := subscribers - {operation};
          }
          return;
        }
      }
    }
  }

  lemma {:induction false} WithoutAt(list: seq<ChannelId>, channel: ChannelId, i: nat)
    requires i < |list| && list[i] == channel && channel !in list[..i]
    ensures Without(list, channel) == list[..i] + list[i + 1..]
  {
    if i > 0 {
      assert list[..i] == [list[0]] + list[1..][..i - 1];
      WithoutAt(list[1..], channel, i - 1);
    }
  }
}
