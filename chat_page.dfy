/** The chat page of the client: how an incoming `receive_message` event updates the shown
    message list, and when the send button emits a `send_message` event. */
module ChatPage {
  import opened Common
  import opened JsStrings
  import opened Messages
  import ChatRoutes
  import SocketServer

  /** The selected conversation: its request id and the partner. */
  datatype SelectedChat = SelectedChat(requestId: nat, partner: UserId)

  /** The `send_message` payload the client emits. */
  datatype OutgoingMessage = OutgoingMessage(sender: UserId, recipient: UserId, content: string, timestamp: Time)

  // ---------------------------------------------------------------------------
  // receive_message

  /** The filter as the page writes it: a chat is selected and the message was sent by the
      partner or by the user, whoever it was sent to. */
  predicate ConsideredAsWritten(selected: Option<SelectedChat>, me: UserId, data: Message) {
    selected.Some? && (data.sender == selected.value.partner || data.sender == me)
  }

  /** The filter the page means: a chat is selected and the message is between the user and
      the partner. */
  predicate Considered(selected: Option<SelectedChat>, me: UserId, data: Message) {
    selected.Some? && ChatRoutes.Between(data, me, selected.value.partner)
  }

  /** A shown message has the same `_id`. */
  predicate SameIdShown(prev: seq<Message>, data: Message) {
    exists i :: 0 <= i < |prev| && prev[i].id == data.id
  }

  /** A shown message has the same timestamp, content and sender. */
  predicate SameTextShown(prev: seq<Message>, data: Message) {
    exists i :: 0 <= i < |prev| && prev[i].timestamp == data.timestamp
      && prev[i].content == data.content && prev[i].sender == data.sender
  }

  /** The message counts as shown already. */
  predicate AlreadyShown(prev: seq<Message>, data: Message) {
    SameIdShown(prev, data) || SameTextShown(prev, data)
  }

  /** The deduplicating update of the list: the old list is kept as a prefix, it grows by at
      most one, it grows exactly when the message was not shown yet, and then by that
      message; afterwards the message is shown. */
  function Dedup(prev: seq<Message>, data: Message): (r: seq<Message>)
    ensures prev <= r && |r| <= |prev| + 1
    ensures |r| == |prev| + 1 <==> !AlreadyShown(prev, data)
    ensures |r| == |prev| + 1 ==> r[|prev|] == data
    ensures AlreadyShown(r, data)
  {
    if SameIdShown(prev, data) then prev
    else if SameTextShown(prev, data) then prev
    else
      var r := prev + [data];
      assert r[|prev|].id == data.id;
      r
  }

  /** The list after an incoming message, as the page writes it. */
  function ReceiveAsWritten(selected: Option<SelectedChat>, me: UserId, prev: seq<Message>, data: Message)
    : (r: seq<Message>)
    ensures !ConsideredAsWritten(selected, me, data) ==> r == prev
    ensures r != prev ==> ConsideredAsWritten(selected, me, data) && r == prev + [data]
    ensures ConsideredAsWritten(selected, me, data) ==>
      (r == prev + [data] <==> !AlreadyShown(prev, data)) && (AlreadyShown(prev, data) ==> r == prev)
  {
    if ConsideredAsWritten(selected, me, data) then Dedup(prev, data) else prev
  }

  /** The list after an incoming message, with the filter the page means. */
  function Receive(selected: Option<SelectedChat>, me: UserId, prev: seq<Message>, data: Message)
    : (r: seq<Message>)
    ensures !Considered(selected, me, data) ==> r == prev
    ensures r != prev ==> Considered(selected, me, data) && r == prev + [data]
    ensures Considered(selected, me, data) ==>
      (r == prev + [data] <==> !AlreadyShown(prev, data)) && (AlreadyShown(prev, data) ==> r == prev)
  {
    if Considered(selected, me, data) then Dedup(prev, data) else prev
  }

  /** Applying the same message twice gives the list that applying it once gives. */
  lemma DedupIdempotent(prev: seq<Message>, data: Message)
    ensures Dedup(Dedup(prev, data), data) == Dedup(prev, data)
  {
  }

  /** The same holds of both versions of the update. */
  lemma ReceiveIdempotent(selected: Option<SelectedChat>, me: UserId, prev: seq<Message>, data: Message)
    ensures Receive(selected, me, Receive(selected, me, prev, data), data) == Receive(selected, me, prev, data)
    ensures ReceiveAsWritten(selected, me, ReceiveAsWritten(selected, me, prev, data), data)
      == ReceiveAsWritten(selected, me, prev, data)
  {
    DedupIdempotent(prev, data);
  }

  /** No two shown messages share an id, or a timestamp, content and sender. */
  predicate NoDuplicates(shown: seq<Message>) {
    forall i, j :: 0 <= i < j < |shown| ==>
      shown[i].id != shown[j].id
      && !(shown[i].timestamp == shown[j].timestamp && shown[i].content == shown[j].content
           && shown[i].sender == shown[j].sender)
  }

  /** The update never introduces a duplicate. */
  lemma DedupKeepsNoDuplicates(prev: seq<Message>, data: Message)
    requires NoDuplicates(prev)
    ensures NoDuplicates(Dedup(prev, data))
  {
    var r := Dedup(prev, data);
    if |r| == |prev| + 1 {
      forall i, j | 0 <= i < j < |r|
        ensures r[i].id != r[j].id
        ensures !(r[i].timestamp == r[j].timestamp && r[i].content == r[j].content && r[i].sender == r[j].sender)
      {
        if j == |prev| {
          assert r[i] == prev[i] && r[j] == data;
          assert !SameIdShown(prev, data) && !SameTextShown(prev, data);
        } else {
          assert r[i] == prev[i] && r[j] == prev[j];
        }
      }
    }
  }

  /** As written, a message the partner sent to a third user is added to the conversation
      (the page also joins the partner's room, so such messages reach it). */
  lemma AsWrittenShowsForeignMessage()
    ensures var me, partner, third := 1, 2, 3;
      var data := Message(0, partner, third, "hi", 0);
      && ReceiveAsWritten(Some(SelectedChat(0, partner)), me, [], data) == [data]
      && !ChatRoutes.Between(data, me, partner)
  {
    var data := Message(0, 2, 3, "hi", 0);
    assert !AlreadyShown([], data);
  }

  /** With the meant filter, a list of the conversation's messages stays one. */
  lemma ReceiveKeepsConversation(partner: UserId, requestId: nat, me: UserId, prev: seq<Message>, data: Message)
    requires forall m :: m in prev ==> ChatRoutes.Between(m, me, partner)
    ensures forall m :: m in Receive(Some(SelectedChat(requestId, partner)), me, prev, data) ==>
      ChatRoutes.Between(m, me, partner)
  {
  }

  // ---------------------------------------------------------------------------
  // handleSendMessage

  /** What the send button emits: nothing for blank text or when no chat is selected;
      otherwise the text as typed (not trimmed) from the user to the partner, stamped with
      the current time. Whatever is emitted has a non-whitespace character. */
  function SendDecision(text: string, selected: Option<SelectedChat>, me: UserId, now: Time)
    : (r: Option<OutgoingMessage>)
    ensures r.None? <==> IsBlank(text) || selected.None?
    ensures r.Some? ==>
      && r.value.sender == me && r.value.recipient == selected.value.partner
      && r.value.content == text && r.value.timestamp == now
    ensures r.Some? ==> exists i :: 0 <= i < |r.value.content| && !IsJsWhitespace(r.value.content[i])
  {
    BlankIffAllWhitespace(text);
    if IsBlank(text) || selected.None? then None
    else Some(OutgoingMessage(me, selected.value.partner, text, now))
  }

  /** Whatever the page emits passes the server's validation, so it is saved whenever the
      database write succeeds. */
  lemma EmittedMessagesAreSaved(text: string, selected: Option<SelectedChat>, me: UserId, now: Time,
                                msgs: seq<Message>, serverNow: Time)
    requires SendDecision(text, selected, me, now).Some?
    ensures var out := SendDecision(text, selected, me, now).value;
      SocketServer.Persist(msgs, Some(out.sender), Some(out.recipient), Some(out.content), serverNow, true).Some?
  {
  }

  /** The page's state: the signed-in user, the selected chat, the shown messages, the text
      box, and the `send_message` events emitted so far. */
  class ChatView {
    const me: UserId
    var selected: Option<SelectedChat>
    var messages: seq<Message>
    var newMessage: string
    var sent: seq<OutgoingMessage>

    constructor (me: UserId)
      ensures this.me == me && selected == None && messages == [] && newMessage == "" && sent == []
    {
      this.me := me;
      selected := None;
      messages := [];
      newMessage := "";
      sent := [];
    }

    /** The `receive_message` listener as the page has it: replaces the list by its update
        under the sender-only filter. */
    method OnReceiveMessage(data: Message)
      modifies this`messages
      ensures messages == ReceiveAsWritten(selected, me, old(messages), data)
    {
      messages := ReceiveAsWritten(selected, me, messages, data);
    }

    /** The listener with the filter the page means: only messages between the user and the
        partner can change the list. */
    method OnReceiveMessageCorrected(data: Message)
      modifies this`messages
      ensures messages == Receive(selected, me, old(messages), data)
    {
      messages := Receive(selected, me, messages, data);
    }

    /** `handleSendMessage`: emits the message and clears the text box, or does nothing. */
    method HandleSendMessage(now: Time) returns (emitted: Option<OutgoingMessage>)
      modifies this`newMessage, this`sent
      ensures emitted == SendDecision(old(newMessage), selected, me, now)
      ensures emitted.None? ==> newMessage == old(newMessage) && sent == old(sent)
      ensures emitted.Some? ==> newMessage == "" && sent == old(sent) + [emitted.value]
    {
      emitted := SendDecision(newMessage, selected, me, now);
      if emitted.Some? {
        sent := sent + [emitted.value];
        newMessage := "";
      }
    }
  }
}
