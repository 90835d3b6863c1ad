/** The `MessageRequest` record: a directed connection request from a sender to a
    recipient, with a three-valued status. */
module MessageRequests {
  import opened Common

  /** The status enum; the record can hold no other value. */
  datatype Status = Pending | Accepted | Rejected

  /** The name the enum stores; casting it back gives the same status. */
  function StatusName(s: Status): (r: string)
    ensures ParseStatus(r) == Some(s)
  {
    match s
    case Pending => "pending"
    case Accepted => "accepted"
    case Rejected => "rejected"
  }

  /** Casting a string to the enum: only the three names are accepted. */
  function ParseStatus(name: string): (r: Option<Status>)
    ensures r == Some(Pending) <==> name == "pending"
    ensures r == Some(Accepted) <==> name == "accepted"
    ensures r == Some(Rejected) <==> name == "rejected"
  {
    if name == "pending" then Some(Pending)
    else if name == "accepted" then Some(Accepted)
    else if name == "rejected" then Some(Rejected)
    else None
  }

  /** A stored request. Both endpoints are required; `scheduledTime` and `note` are optional. */
  datatype ConnectionRequest = ConnectionRequest(
    sender: UserId,
    recipient: UserId,
    status: Status,
    scheduledTime: Option<Time>,
    note: Option<string>,
    createdAt: Time)

  /** The fields handed to `create`: any of them may be missing. */
  datatype RequestDraft = RequestDraft(
    sender: Option<UserId>,
    recipient: Option<UserId>,
    status: Option<string>,
    scheduledTime: Option<Time>,
    note: Option<string>,
    createdAt: Option<Time>)

  /** Schema validation and defaults: a request without a sender or a recipient, or with a
      status outside the enum, is refused; a missing status becomes pending and a missing
      creation time becomes `now`. */
  function NewRequest(d: RequestDraft, now: Time): (r: Option<ConnectionRequest>)
    ensures r.Some? <==>
      d.sender.Some? && d.recipient.Some? && (d.status.None? || ParseStatus(d.status.value).Some?)
    ensures r.Some? ==>
      && r.value.sender == d.sender.value
      && r.value.recipient == d.recipient.value
      && r.value.scheduledTime == d.scheduledTime
      && r.value.note == d.note
      && r.value.createdAt == (if d.createdAt.Some? then d.createdAt.value else now)
      && (d.status.None? ==> r.value.status == Pending)
      && (d.status.Some? ==> StatusName(r.value.status) == d.status.value)
  {
    if d.sender.None? || d.recipient.None? then None
    else
      var status := if d.status.None? then Some(Pending) else ParseStatus(d.status.value);
      if status.None? then None
      else Some(ConnectionRequest(d.sender.value, d.recipient.value, status.value,
                                  d.scheduledTime, d.note, d.createdAt.GetOr(now)))
  }

  /** The draft a stored record came from; validating it rebuilds the record. */
  function DraftOf(q: ConnectionRequest): (d: RequestDraft)
    ensures forall now :: NewRequest(d, now) == Some(q)
  {
    RequestDraft(Some(q.sender), Some(q.recipient), Some(StatusName(q.status)), q.scheduledTime, q.note,
                 Some(q.createdAt))
  }

  /** Some request goes from `s` to `t` (the ordered pair), whatever its status. */
  predicate RequestExists(requests: seq<ConnectionRequest>, s: UserId, t: UserId) {
    exists i :: 0 <= i < |requests| && requests[i].sender == s && requests[i].recipient == t
  }

  /** At most one request per ordered (sender, recipient) pair. */
  predicate UniqueOrderedPairs(requests: seq<ConnectionRequest>) {
    forall i, j :: 0 <= i < j < |requests| ==>
      requests[i].sender != requests[j].sender || requests[i].recipient != requests[j].recipient
  }
}
