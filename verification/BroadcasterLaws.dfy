/** What each action on the broadcaster does, seen from one channel. */
module BroadcasterLaws {
  import opened Identifiers
  import opened Broadcaster

  /** The channel is subscribed to the operation. */
  predicate Listens(h: Hub, c: ChannelId, operation: OperationId) {
    c in h.channels && h.channels[c].isOpen && h.channels[c].operation == operation
  }

  /** An update goes to the end of the buffer of exactly those channels that are subscribed to its operation and hold
      fewer than sixteen; no reader, no other channel and no subscription notices it. */
  lemma {:induction false} PublishesExactly(h: Hub, operation: OperationId, update: Update, c: ChannelId)
    requires Right(h) && c in h.channels
    ensures var h' := After(h, Publish(operation, update));
      && h'.subscribers == h.subscribers && h'.channels.Keys == h.channels.Keys
      && var (before, after) := (h.channels[c], h'.channels[c]);
      && after.buffer == before.buffer
        + (if Listens(h, c, operation) && |before.buffer| < 16 then [update] else [])
      && after.received == before.received && after.isOpen == before.isOpen && after.operation == before.operation
  {
    assert ChannelRight(h, c);
  }

  /** A reader takes the oldest update of its own buffer, and nobody else's. */
  lemma {:induction false} ReceivesExactly(h: Hub, channel: ChannelId, c: ChannelId)
    requires channel in h.channels && c in h.channels
    ensures var h' := After(h, Receive(channel));
      var (before, after) := (h.channels[c], h'.channels[c]);
      && h'.subscribers == h.subscribers && h'.channels.Keys == h.channels.Keys
      && (c == channel && before.buffer != [] ==>
        after.received == before.received + [before.buffer[0]] && [before.buffer[0]] + after.buffer == before.buffer)
      && (c != channel || before.buffer == [] ==> after == before)
      && after.isOpen == before.isOpen && after.operation == before.operation
  {
  }

  /** A subscription opens one empty channel, which is the only change. */
  lemma {:induction false} SubscribesExactly(h: Hub, operation: OperationId, channel: ChannelId, c: ChannelId)
    requires Right(h) && channel !in h.channels
    ensures var h' := After(h, Subscribe(operation, channel));
      && h'.channels.Keys == h.channels.Keys + {channel}
      && (c in h.channels ==> h'.channels[c] == h.channels[c])
      && Listens(h', channel, operation) && h'.channels[channel].buffer == [] && h'.channels[channel].received == []
      && operation in h'.subscribers
      && h'.subscribers[operation]
        == (if operation in h.subscribers then h.subscribers[operation] else []) + [channel]
      && (forall o :: o != operation && o in h.subscribers ==>
        o in h'.subscribers && h'.subscribers[o] == h.subscribers[o])
  {
  }

  /** Ending a subscription closes its channel, which keeps what it holds, and no other; a second time does nothing. */
  lemma {:induction false} CleansUpExactly(h: Hub, operation: OperationId, channel: ChannelId, c: ChannelId)
    requires Right(h) && c in h.channels
    ensures var h' := After(h, CleanUp(operation, channel));
      && h'.channels.Keys == h.channels.Keys
      && h'.channels[c] == (if c == channel && Listens(h, c, operation) then h.channels[c].(isOpen := false)
        else h.channels[c])
      && (!Listens(h, channel, operation) ==> h' == h)
      && (Listens(h, channel, operation) ==>
        forall other, o :: Listens(h', other, o) <==> Listens(h, other, o) && other != channel)
  {
    hide Intact, Without;
    assert ChannelRight(h, c);
    assert channel in h.channels ==> ChannelRight(h, channel);
  }
}
