/**
 * The Discord text channel the bot posts to, seen as a small fallible message
 * store. Every request may fail for reasons outside the model (network,
 * permissions, rate limits); whether it does is passed in as `ok`. A delete or
 * an edit of a message that is no longer in the channel fails as well.
 * The store keeps a log of every request it received, so that properties can
 * talk about which calls a tick made.
 */
module Store {
  import opened Wrappers

  type MessageId = nat

  /** The payload of a status message: the embed built at index.js:26-49,
      reduced to what distinguishes one from another. Every send and every
      edit carries the role mention as its text content. */
  datatype Notice = OnlineNotice(players: int) | OfflineNotice

  /** One request made to the channel. */
  datatype Call =
    | DeleteCall(id: MessageId)
    | SendCall(notice: Notice)
    | EditCall(id: MessageId, notice: Notice)

  datatype StoreState = StoreState(messages: map<MessageId, Notice>, nextId: MessageId, log: seq<Call>)
  {
    /** Identifiers are handed out in increasing order, so every message in
        the channel has an identifier below `nextId`. */
    predicate Valid() {
      forall id :: id in messages ==> id < nextId
    }
  }

  const EmptyChannel := StoreState(map[], 0, [])

  /** `message.delete()`: removes the message when the request goes through. */
  function DeleteMessage(s: StoreState, id: MessageId, ok: bool): (r: (StoreState, bool))
    ensures r.1 <==> ok && id in s.messages
    ensures id !in r.0.messages || !r.1
    ensures r.0.messages == if r.1 then s.messages - {id} else s.messages
    ensures r.0.nextId == s.nextId && r.0.log == s.log + [DeleteCall(id)]
    ensures s.Valid() ==> r.0.Valid()
  {
    var deleted := ok && id in s.messages;
    (s.(messages := if deleted then s.messages - {id} else s.messages, log := s.log + [DeleteCall(id)]), deleted)
  }

  /** `channel.send(...)`: posts a new message and returns its handle, or
      fails (the promise rejects) and posts nothing. */
  function SendMessage(s: StoreState, n: Notice, ok: bool): (r: (StoreState, Option<MessageId>))
    ensures r.1.Some? <==> ok
    ensures ok ==> r.1.value == s.nextId && r.0.messages == s.messages[s.nextId := n]
    ensures ok ==> s.Valid() ==> r.1.value !in s.messages
    ensures !ok ==> r.0.messages == s.messages
    ensures s.nextId <= r.0.nextId && r.0.log == s.log + [SendCall(n)]
    ensures s.Valid() ==> r.0.Valid()
  {
    if ok then
      (StoreState(s.messages[s.nextId := n], s.nextId + 1, s.log + [SendCall(n)]), Some(s.nextId))
    else
      (s.(log := s.log + [SendCall(n)]), None)
  }

  /** `message.edit(...)`: replaces the payload of a message still in the channel. */
  function EditMessage(s: StoreState, id: MessageId, n: Notice, ok: bool): (r: (StoreState, bool))
    ensures r.1 <==> ok && id in s.messages
    ensures r.0.messages == if r.1 then s.messages[id := n] else s.messages
    ensures r.0.nextId == s.nextId && r.0.log == s.log + [EditCall(id, n)]
    ensures s.Valid() ==> r.0.Valid()
  {
    var edited := ok && id in s.messages;
    (s.(messages := if edited then s.messages[id := n] else s.messages, log := s.log + [EditCall(id, n)]), edited)
  }

  /** The channel object the bot fetched at start-up (index.js:24). */
  class Channel {
    var messages: map<MessageId, Notice>
    var nextId: MessageId
    ghost var log: seq<Call>

    ghost function State(): StoreState
      reads this
    {
      StoreState(messages, nextId, log)
    }

    constructor ()
      ensures State() == EmptyChannel && State().Valid()
    {
      messages, nextId, log := map[], 0, [];
    }

    method Delete(id: MessageId, ok: bool) returns (deleted: bool)
      modifies this
      ensures (State(), deleted) == DeleteMessage(old(State()), id, ok)
    {
      log := log + [DeleteCall(id)];
      deleted := ok && id in messages;
      if deleted {
        messages := messages - {id};
      }
    }

    method Send(n: Notice, ok: bool) returns (msg: Option<MessageId>)
      modifies this
      ensures (State(), msg) == SendMessage(old(State()), n, ok)
    {
      log := log + [SendCall(n)];
      if ok {
        msg := Some(nextId);
        messages := messages[nextId := n];
        nextId := nextId + 1;
      } else {
        msg := None;
      }
    }

    method Edit(id: MessageId, n: Notice, ok: bool) returns (edited: bool)
      modifies this
      ensures (State(), edited) == EditMessage(old(State()), id, n, ok)
    {
      log := log + [EditCall(id, n)];
      edited := ok && id in messages;
      if edited {
        messages := messages[id := n];
      }
    }
  }
}
