/** The `send_message` handler of server/server.js. The message store is passed
    in and the store afterwards returned; the emitted Socket.IO events are
    returned in emission order. The clock (`Date.now()`, `toISOString()`) and
    the outcome of the file read/write are inputs. */
module Realtime {
  import opened Wrappers
  import opened Presence
  import opened Messages

  const SendFailedMessage := "Failed to send message"

  /** The `send_message` payload. */
  datatype SendPayload = SendPayload(senderId: int, receiverId: int, message: string)

  /** The server-to-client events. */
  datatype ServerEvent =
    | ReceiveMessage(msg: Message)
    | MessageSent(msg: Message)
    | MessageError(error: string)

  /** An event emitted to one socket. */
  datatype Emission = Emission(to: SocketId, event: ServerEvent)

  /** The record the handler stores for a payload. */
  function NewMessage(data: SendPayload, now: int, isoTime: string): (m: Message)
    ensures m.senderId == data.senderId && m.receiverId == data.receiverId
    ensures m.message == data.message && !m.read
    ensures m.id == now && m.timestamp == isoTime
  {
    Message(now, data.senderId, data.receiverId, data.message, isoTime, false)
  }

  /** One `send_message` event from `senderSocket`. `data` is `None` when the
      client sent no payload (destructuring it throws); `storageOk` is false
      when reading or rewriting messages.json throws. */
  method SendMessage(store: seq<Message>, registry: PresenceRegistry, senderSocket: SocketId,
                     data: Option<SendPayload>, now: int, isoTime: string, storageOk: bool)
    returns (store': seq<Message>, events: seq<Emission>)
    ensures data.None? || !storageOk ==>
      store' == store && events == [Emission(senderSocket, MessageError(SendFailedMessage))]
    ensures data.Some? && storageOk ==>
      && store' == store + [NewMessage(data.value, now, isoTime)]
      && events == (if data.value.receiverId in registry.online
                    then [Emission(registry.online[data.value.receiverId], ReceiveMessage(store'[|store|]))]
                    else [])
                   + [Emission(senderSocket, MessageSent(store'[|store|]))]
  {
    if data.None? || !storageOk {
      return store, [Emission(senderSocket, MessageError(SendFailedMessage))];
    }
    var msg := NewMessage(data.value, now, isoTime);
    store' := store + [msg];
    events := [];
    var receiverSocket := registry.Lookup(data.value.receiverId);
    if receiverSocket.Some? {
      events := events + [Emission(receiverSocket.value, ReceiveMessage(msg))];
    }
    events := events + [Emission(senderSocket, MessageSent(msg))];
  }

  /** A successful send appends one record and leaves the earlier ones as they
      were; the thread between sender and receiver gains exactly that record,
      and every other thread is unchanged. */
  lemma SendExtendsThread(store: seq<Message>, data: SendPayload, now: int, isoTime: string, u: int, o: int)
    ensures var m := NewMessage(data, now, isoTime);
      && PairQuery(store + [m], data.senderId, data.receiverId)
         == PairQuery(store, data.senderId, data.receiverId) + [m]
      && (!Between(m, u, o) ==> PairQuery(store + [m], u, o) == PairQuery(store, u, o))
  {
    var m := NewMessage(data, now, isoTime);
    PairQueryAppend(store, m, data.senderId, data.receiverId);
    PairQueryAppend(store, m, u, o);
  }

  /** The events of a successful send: the acknowledgement to the sender is
      always last, and there is a delivery exactly when the receiver is
      registered, going to the receiver's current socket, carrying the same
      record. A failed send emits one error and nothing else. */
  lemma SendEvents(online: map<int, SocketId>, senderSocket: SocketId, msg: Message,
                   events: seq<Emission>)
    requires events == (if msg.receiverId in online
                        then [Emission(online[msg.receiverId], ReceiveMessage(msg))] else [])
                       + [Emission(senderSocket, MessageSent(msg))]
    ensures events[|events| - 1] == Emission(senderSocket, MessageSent(msg))
    ensures (exists i :: 0 <= i < |events| && events[i].event.ReceiveMessage?) <==> msg.receiverId in online
    ensures forall i :: 0 <= i < |events| && events[i].event.ReceiveMessage? ==>
      events[i] == Emission(online[msg.receiverId], ReceiveMessage(msg))
    ensures forall i :: 0 <= i < |events| ==> !events[i].event.MessageError?
  {
    if msg.receiverId in online {
      assert events[0].event.ReceiveMessage?;
    }
  }

  /** After a successful send the receiver is among the sender's conversations
      (and the sender among the receiver's). */
  lemma SendOpensConversation(store: seq<Message>, data: SendPayload, now: int, isoTime: string)
    ensures var store' := store + [NewMessage(data, now, isoTime)];
      && data.receiverId in Counterparts(store', data.senderId)
      && data.senderId in Counterparts(store', data.receiverId)
  {
    var m := NewMessage(data, now, isoTime);
    var store' := store + [m];
    assert store'[|store|] == m;
    assert FirstContact(store', data.senderId, data.receiverId) <= |store|;
    assert FirstContact(store', data.receiverId, data.senderId) <= |store|;
  }
}
