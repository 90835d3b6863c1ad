/** The real-time handlers of the server: `join_room` and `send_message`. A room is named
    by a user id; what the server emits to each room, in order, is its delivery queue. */
module SocketServer {
  import opened Common
  import opened Messages
  import opened MessageRequests
  import opened Stores
  import ChatRoutes

  /** A connected client socket. */
  type SocketId = nat

  /** One `receive_message` emit: the room it is addressed to and the saved message. */
  datatype Emit = Emit(room: UserId, message: Message)

  /** The delivery queue of `room`: the messages emitted to it, in emit order. */
  function RoomQueue(log: seq<Emit>, room: UserId): (q: seq<Message>)
    ensures |q| <= |log|
    ensures forall m :: m in q ==> Emit(room, m) in log
  {
    if log == [] then []
    else
      var last := log[|log| - 1];
      RoomQueue(log[..|log| - 1], room) + (if last.room == room then [last.message] else [])
  }

  /** Queues follow the emit log: emitting `b` after `a` appends `b`'s share to each queue. */
  lemma {:induction false} RoomQueueAppend(a: seq<Emit>, b: seq<Emit>, room: UserId)
    ensures RoomQueue(a + b, room) == RoomQueue(a, room) + RoomQueue(b, room)
    decreases |b|
  {
    if b == [] {
      assert a + b == a;
    } else {
      assert (a + b)[..|a + b| - 1] == a + b[..|b| - 1];
      RoomQueueAppend(a, b[..|b| - 1], room);
    }
  }

  /** `Message.create({sender, recipient, content})`: the message is validated, then written
      unless the write itself fails (`writeOk` stands for the database's answer). It gets the
      next id and the current time; it is refused without a sender, a recipient or a
      non-empty content. */
  function Persist(msgs: seq<Message>, sender: Option<UserId>, recipient: Option<UserId>,
                   content: Option<string>, now: Time, writeOk: bool): (r: Option<Message>)
    ensures r.Some? <==>
      writeOk && sender.Some? && recipient.Some? && content.Some? && content.value != ""
    ensures r.Some? ==>
      r.value == Message(|msgs|, sender.value, recipient.value, content.value, now) && ValidMessage(r.value)
  {
    if !writeOk then None
    else NewMessage(MessageDraft(sender, recipient, content, None), |msgs|, now)
  }

  /** The socket server: room membership and everything emitted so far. */
  class Server {
    var rooms: map<UserId, set<SocketId>>
    var emitted: seq<Emit>

    constructor ()
      ensures rooms == map[] && emitted == []
    {
      rooms := map[];
      emitted := [];
    }

    /** The sockets in `room`. */
    function Members(room: UserId): set<SocketId>
      reads this
    {
      if room in rooms then rooms[room] else {}
    }

    /** `join_room`: the socket joins the room named by `userId`; no other room changes and
        nothing is emitted. */
    method JoinRoom(socket: SocketId, userId: UserId)
      modifies this
      ensures rooms == old(rooms)[userId := old(Members(userId)) + {socket}]
      ensures forall room :: room != userId ==> Members(room) == old(Members(room))
      ensures emitted == old(emitted)
    {
      rooms := rooms[userId := Members(userId) + {socket}];
    }

    /** `send_message`: saves the message, then emits it to the recipient's room and then to
        the sender's room. Nothing is emitted when saving fails. No connection between the
        two users is checked, and the stored messages before it are kept as they were. */
    method SendMessage(store: ChatStore, sender: Option<UserId>, recipient: Option<UserId>,
                       content: Option<string>, now: Time, writeOk: bool)
      returns (saved: Option<Message>)
      requires store.Valid()
      modifies this, store
      ensures store.Valid()
      ensures rooms == old(rooms) && store.requests == old(store.requests)
      ensures saved == Persist(old(store.messages), sender, recipient, content, now, writeOk)
      ensures saved.None? ==> store.messages == old(store.messages) && emitted == old(emitted)
      ensures saved.Some? ==>
        && store.messages == old(store.messages) + [saved.value]
        && emitted == old(emitted) + [Emit(saved.value.recipient, saved.value), Emit(saved.value.sender, saved.value)]
    {
      saved := Persist(store.messages, sender, recipient, content, now, writeOk);
      if saved.Some? {
        store.messages := store.messages + [saved.value];
        emitted := emitted + [Emit(recipient.value, saved.value)];
        emitted := emitted + [Emit(sender.value, saved.value)];
      }
    }
  }

  /** After a send, the recipient's queue and then the sender's queue end with the message
      (twice for a user writing to themselves); every other queue is as it was. */
  lemma SendFansOut(log: seq<Emit>, m: Message, room: UserId)
    ensures RoomQueue(log + [Emit(m.recipient, m), Emit(m.sender, m)], room) ==
      RoomQueue(log, room)
      + (if room == m.recipient then [m] else [])
      + (if room == m.sender then [m] else [])
  {
    RoomQueueAppend(log, [Emit(m.recipient, m), Emit(m.sender, m)], room);
    assert [Emit(m.recipient, m), Emit(m.sender, m)][..1] == [Emit(m.recipient, m)];
  }

  /** Writing does not need the connection that reading does: a message between two users
      with no accepted request is saved, and their history is still refused. */
  lemma SendNeedsNoConnection(requests: seq<ConnectionRequest>, msgs: seq<Message>,
                              s: UserId, t: UserId, content: string, now: Time)
    requires !ChatRoutes.Connected(requests, s, t) && content != ""
    ensures Persist(msgs, Some(s), Some(t), Some(content), now, true).Some?
    ensures ChatRoutes.History(requests, msgs + [Persist(msgs, Some(s), Some(t), Some(content), now, true).value], s, t)
      == Failure(ChatRoutes.NoActiveConnection)
  {
  }
}
