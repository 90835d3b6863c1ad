/** The `Message` record: one chat message between two users. */
module Messages {
  import opened Common

  /** The document id the store gives each message (`_id`). */
  type MessageId = nat

  /** A stored message: the store's `_id` plus the four schema fields. */
  datatype Message = Message(
    id: MessageId,
    sender: UserId,
    recipient: UserId,
    content: string,
    timestamp: Time)

  /** The fields handed to `create`: any of them may be missing. */
  datatype MessageDraft = MessageDraft(
    sender: Option<UserId>,
    recipient: Option<UserId>,
    content: Option<string>,
    timestamp: Option<Time>)

  /** What every stored message satisfies: a required string is never empty. */
  predicate ValidMessage(m: Message) {
    m.content != ""
  }

  /** Schema validation and defaults: sender, recipient and a non-empty content are
      required; the timestamp defaults to `now`. */
  function NewMessage(d: MessageDraft, id: MessageId, now: Time): (r: Option<Message>)
    ensures r.Some? <==>
      d.sender.Some? && d.recipient.Some? && d.content.Some? && d.content.value != ""
    ensures r.Some? ==>
      && ValidMessage(r.value)
      && r.value.id == id
      && r.value.sender == d.sender.value
      && r.value.recipient == d.recipient.value
      && r.value.content == d.content.value
      && r.value.timestamp == (if d.timestamp.Some? then d.timestamp.value else now)
  {
    if d.sender.None? || d.recipient.None? || d.content.None? || d.content.value == "" then None
    else Some(Message(id, d.sender.value, d.recipient.value, d.content.value, d.timestamp.GetOr(now)))
  }

  /** The draft a stored message came from; validating it rebuilds the message,
      whatever the clock says. */
  function DraftOf(m: Message): (d: MessageDraft)
    requires ValidMessage(m)
    ensures forall now :: NewMessage(d, m.id, now) == Some(m)
  {
    MessageDraft(Some(m.sender), Some(m.recipient), Some(m.content), Some(m.timestamp))
  }
}
