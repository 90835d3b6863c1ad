/** The chat routes: connection requests (create, list pending, respond), the list of
    accepted conversations, and the message history of a pair. The caller's identity
    (`req.userId`) is given. */
module ChatRoutes {
  import opened Common
  import opened MessageRequests
  import opened Messages
  import opened Stores

  /** A request's id: its position in the request table. */
  type RequestId = nat

  /** The failures the routes answer with. */
  datatype ChatError =
    | RequestAlreadySent  // 400 "Request already sent"
    | RequestNotFound     // 404 "Request not found"
    | Unauthorized        // 403 "Unauthorized"
    | InvalidAction       // 400 "Invalid action"
    | NoActiveConnection  // 403 "No active connection"

  /** The HTTP status each failure is answered with. */
  function HttpStatus(e: ChatError): (code: int)
    ensures code == 403 <==> e == Unauthorized || e == NoActiveConnection
    ensures code == 400 <==> e == RequestAlreadySent || e == InvalidAction
    ensures code == 404 <==> e == RequestNotFound
  {
    match e
    case RequestAlreadySent => 400
    case RequestNotFound => 404
    case Unauthorized => 403
    case InvalidAction => 400
    case NoActiveConnection => 403
  }

  // ---------------------------------------------------------------------------
  // POST /request

  /** `findOne({sender: s, recipient: t})`: the first request for the ordered pair. */
  method FindRequest(store: ChatStore, s: UserId, t: UserId) returns (found: Option<RequestId>)
    ensures found.None? <==> !RequestExists(store.requests, s, t)
    ensures found.Some? ==>
      && found.value < |store.requests|
      && store.requests[found.value].sender == s
      && store.requests[found.value].recipient == t
      && forall j :: 0 <= j < found.value ==>
           store.requests[j].sender != s || store.requests[j].recipient != t
  {
    var i := 0;
    while i < |store.requests|
      invariant 0 <= i <= |store.requests|
      invariant forall j :: 0 <= j < i ==>
        store.requests[j].sender != s || store.requests[j].recipient != t
    {
      if store.requests[i].sender == s && store.requests[i].recipient == t {
        return Some(i);
      }
      i := i + 1;
    }
    return None;
  }

  /** A request for a pair that has none keeps the table at one request per pair. */
  lemma AddRequestKeepsPairsUnique(requests: seq<ConnectionRequest>, q: ConnectionRequest)
    requires UniqueOrderedPairs(requests) && !RequestExists(requests, q.sender, q.recipient)
    ensures UniqueOrderedPairs(requests + [q])
  {
    forall i, j | 0 <= i < j < |requests + [q]|
      ensures (requests + [q])[i].sender != (requests + [q])[j].sender
           || (requests + [q])[i].recipient != (requests + [q])[j].recipient
    {
      if j == |requests| {
        assert !(requests[i].sender == q.sender && requests[i].recipient == q.recipient);
      }
    }
  }

  /** Sends a connection request from `caller` to `recipient`. It fails, changing nothing,
      when a request for the same ordered pair exists in any status; otherwise it adds one
      pending request and leaves every other record as it was. */
  method CreateRequest(store: ChatStore, caller: UserId, recipient: UserId,
                       note: Option<string>, scheduledTime: Option<Time>, now: Time)
    returns (r: Result<RequestId, ChatError>)
    requires store.Valid()
    modifies store
    ensures store.Valid()
    ensures store.messages == old(store.messages)
    ensures RequestExists(old(store.requests), caller, recipient) ==>
      r == Failure(RequestAlreadySent) && store.requests == old(store.requests)
    ensures !RequestExists(old(store.requests), caller, recipient) ==>
      && r == Success(|old(store.requests)|)
      && store.requests ==
           old(store.requests) + [ConnectionRequest(caller, recipient, Pending, scheduledTime, note, now)]
  {
    var existing := FindRequest(store, caller, recipient);
    if existing.Some? {
      return Failure(RequestAlreadySent);
    }
    var record := NewRequest(RequestDraft(Some(caller), Some(recipient), Some("pending"), scheduledTime, note, None), now);
    AddRequestKeepsPairsUnique(store.requests, record.value);
    r := Success(|store.requests|);
    store.requests := store.requests + [record.value];
  }

  /** Only the exact ordered pair blocks a new request: a request from `a` to `b` does not
      stop `b` from sending one to `a`. */
  lemma DuplicateCheckIsDirectional(requests: seq<ConnectionRequest>, a: UserId, b: UserId)
    requires a != b
    requires forall i :: 0 <= i < |requests| ==> requests[i].sender == a && requests[i].recipient == b
    ensures !RequestExists(requests, b, a)
  {
  }

  // ---------------------------------------------------------------------------
  // GET /requests and GET /conversations

  /** The positions from `k` on whose request satisfies `keep`, in table order. */
  function Positions(requests: seq<ConnectionRequest>, keep: ConnectionRequest -> bool, k: nat)
    : (r: seq<RequestId>)
    requires k <= |requests|
    ensures forall j :: 0 <= j < |r| ==> k <= r[j] < |requests| && keep(requests[r[j]])
    ensures forall i :: k <= i < |requests| && keep(requests[i]) ==> i in r
    ensures forall a, b :: 0 <= a < b < |r| ==> r[a] < r[b]
    decreases |requests| - k
  {
    if k == |requests| then []
    else if keep(requests[k]) then [k] + Positions(requests, keep, k + 1)
    else Positions(requests, keep, k + 1)
  }

  /** A request addressed to `user` that is still pending. */
  predicate IsPendingFor(q: ConnectionRequest, user: UserId) {
    q.recipient == user && q.status == Pending
  }

  /** One entry of the pending list: the request and its id. */
  datatype PendingEntry = PendingEntry(requestId: RequestId, request: ConnectionRequest)

  /** The pending requests addressed to `user`: exactly those, each once, in table order. */
  function ListPending(requests: seq<ConnectionRequest>, user: UserId): (r: seq<PendingEntry>)
    ensures forall e :: e in r ==>
      e.requestId < |requests| && requests[e.requestId] == e.request && IsPendingFor(e.request, user)
    ensures forall i :: 0 <= i < |requests| && IsPendingFor(requests[i], user) ==>
      PendingEntry(i, requests[i]) in r
    ensures forall a, b :: 0 <= a < b < |r| ==> r[a].requestId < r[b].requestId
  {
    var ids := Positions(requests, q => IsPendingFor(q, user), 0);
    var r := seq(|ids|, j requires 0 <= j < |ids| => PendingEntry(ids[j], requests[ids[j]]));
    assert forall i :: 0 <= i < |requests| && IsPendingFor(requests[i], user) ==>
      exists j :: 0 <= j < |ids| && ids[j] == i && r[j] == PendingEntry(i, requests[i]);
    r
  }

  /** An accepted request in which `user` is the sender or the recipient. */
  predicate IsAcceptedWith(q: ConnectionRequest, user: UserId) {
    q.status == Accepted && (q.sender == user || q.recipient == user)
  }

  /** A conversation descriptor: the accepted request and the other party. */
  datatype Conversation = Conversation(requestId: RequestId, partner: UserId)

  /** The other endpoint of a request `user` takes part in: together the two are the
      request's sender and recipient. */
  function OtherEndpoint(q: ConnectionRequest, user: UserId): (p: UserId)
    requires q.sender == user || q.recipient == user
    ensures multiset{user, p} == multiset{q.sender, q.recipient}
  {
    if q.sender == user then q.recipient else q.sender
  }

  /** The accepted conversations of `user`: one entry per accepted request `user` takes
      part in, in table order, whose partner is the request's other endpoint. */
  function Conversations(requests: seq<ConnectionRequest>, user: UserId): (r: seq<Conversation>)
    ensures forall c :: c in r ==>
      && c.requestId < |requests|
      && IsAcceptedWith(requests[c.requestId], user)
      && c.partner == OtherEndpoint(requests[c.requestId], user)
    ensures forall i :: 0 <= i < |requests| && IsAcceptedWith(requests[i], user) ==>
      Conversation(i, OtherEndpoint(requests[i], user)) in r
    ensures forall a, b :: 0 <= a < b < |r| ==> r[a].requestId < r[b].requestId
  {
    var ids := Positions(requests, q => IsAcceptedWith(q, user), 0);
    var r := seq(|ids|, j requires 0 <= j < |ids| =>
      Conversation(ids[j], OtherEndpoint(requests[ids[j]], user)));
    assert forall i :: 0 <= i < |requests| && IsAcceptedWith(requests[i], user) ==>
      exists j :: 0 <= j < |ids| && ids[j] == i && r[j] == Conversation(i, OtherEndpoint(requests[i], user));
    r
  }

  // ---------------------------------------------------------------------------
  // POST /request/:id/:action

  /** The status an action sets: "accept" and "reject" only; never back to pending. */
  function Decision(action: string): (r: Option<Status>)
    ensures r == Some(Accepted) <==> action == "accept"
    ensures r == Some(Rejected) <==> action == "reject"
    ensures r != Some(Pending)
  {
    if action == "accept" then Some(Accepted)
    else if action == "reject" then Some(Rejected)
    else None
  }

  /** The recipient of request `id` accepts or rejects it. Unknown ids, callers other than
      the recipient and actions other than accept/reject fail in that order of checks and
      change nothing. Otherwise only the target's status changes, whatever it was before:
      a decided request can be decided again. */
  method Respond(store: ChatStore, id: RequestId, caller: UserId, action: string)
    returns (r: Result<ConnectionRequest, ChatError>)
    requires store.Valid()
    modifies store
    ensures store.Valid()
    ensures store.messages == old(store.messages)
    ensures id >= |old(store.requests)| ==>
      r == Failure(RequestNotFound) && store.requests == old(store.requests)
    ensures id < |old(store.requests)| && old(store.requests)[id].recipient != caller ==>
      r == Failure(Unauthorized) && store.requests == old(store.requests)
    ensures id < |old(store.requests)| && old(store.requests)[id].recipient == caller
            && Decision(action).None? ==>
      r == Failure(InvalidAction) && store.requests == old(store.requests)
    ensures id < |old(store.requests)| && old(store.requests)[id].recipient == caller
            && Decision(action).Some? ==>
      var updated := old(store.requests)[id].(status := Decision(action).value);
      r == Success(updated) && store.requests == old(store.requests)[id := updated]
  {
    if id >= |store.requests| {
      return Failure(RequestNotFound);
    }
    var request := store.requests[id];
    if request.recipient != caller {
      return Failure(Unauthorized);
    }
    var status := Decision(action);
    if status.None? {
      return Failure(InvalidAction);
    }
    request := request.(status := status.value);
    store.requests := store.requests[id := request];
    r := Success(request);
  }

  // ---------------------------------------------------------------------------
  // GET /:userId

  /** A message from `a` to `b` or from `b` to `a`. */
  predicate Between(m: Message, a: UserId, b: UserId) {
    (m.sender == a && m.recipient == b) || (m.sender == b && m.recipient == a)
  }

  /** An accepted request joins `a` and `b`, in either direction. */
  predicate Connected(requests: seq<ConnectionRequest>, a: UserId, b: UserId) {
    exists i :: 0 <= i < |requests| && requests[i].status == Accepted
      && ((requests[i].sender == a && requests[i].recipient == b)
          || (requests[i].sender == b && requests[i].recipient == a))
  }

  /** The messages between `a` and `b`: each as often as it is stored, nothing else. */
  function MessagesBetween(msgs: seq<Message>, a: UserId, b: UserId): (r: seq<Message>)
    ensures forall m :: multiset(r)[m] == if Between(m, a, b) then multiset(msgs)[m] else 0
  {
    if msgs == [] then []
    else
      assert msgs == [msgs[0]] + msgs[1..];
      (if Between(msgs[0], a, b) then [msgs[0]] else []) + MessagesBetween(msgs[1..], a, b)
  }

  /** Timestamps never decrease along `s`. */
  predicate SortedByTimestamp(s: seq<Message>) {
    forall i, j :: 0 <= i < j < |s| ==> s[i].timestamp <= s[j].timestamp
  }

  /** Puts `m` into sorted `s` after every message not later than it. */
  function InsertByTimestamp(m: Message, s: seq<Message>): (r: seq<Message>)
    requires SortedByTimestamp(s)
    ensures SortedByTimestamp(r)
    ensures multiset(r) == multiset(s) + multiset{m}
    ensures forall x :: x in r ==> x in s || x == m
  {
    if s == [] then [m]
    else if s[0].timestamp <= m.timestamp then
      assert s == [s[0]] + s[1..];
      var rest := InsertByTimestamp(m, s[1..]);
      assert forall x :: x in s[1..] ==> s[0].timestamp <= x.timestamp;
      [s[0]] + rest
    else [m] + s
  }

  /** `sort({timestamp: 1})`: the same messages, in non-decreasing timestamp order. */
  function SortByTimestamp(s: seq<Message>): (r: seq<Message>)
    ensures SortedByTimestamp(r)
    ensures multiset(r) == multiset(s)
  {
    if s == [] then []
    else
      assert s == s[..|s| - 1] + [s[|s| - 1]];
      InsertByTimestamp(s[|s| - 1], SortByTimestamp(s[..|s| - 1]))
  }

  /** The history of `me` with `partner`. It fails unless an accepted request joins them in
      either direction; otherwise it is exactly the stored messages between them, in either
      direction, ordered by timestamp. */
  function History(requests: seq<ConnectionRequest>, msgs: seq<Message>, me: UserId, partner: UserId)
    : (r: Result<seq<Message>, ChatError>)
    ensures r.Failure? <==> !Connected(requests, me, partner)
    ensures r.Failure? ==> r.error == NoActiveConnection
    ensures r.Success? ==> SortedByTimestamp(r.value)
    ensures r.Success? ==>
      forall m :: multiset(r.value)[m] == if Between(m, me, partner) then multiset(msgs)[m] else 0
  {
    if !Connected(requests, me, partner) then Failure(NoActiveConnection)
    else Success(SortByTimestamp(MessagesBetween(msgs, me, partner)))
  }

  /** The pair's messages do not depend on which of the two asks. */
  lemma {:induction false} MessagesBetweenSymmetric(msgs: seq<Message>, a: UserId, b: UserId)
    ensures MessagesBetween(msgs, a, b) == MessagesBetween(msgs, b, a)
  {
    if msgs != [] {
      MessagesBetweenSymmetric(msgs[1..], a, b);
    }
  }

  /** Either party gets the same answer: both are refused, or both see the same list. */
  lemma HistorySymmetric(requests: seq<ConnectionRequest>, msgs: seq<Message>, a: UserId, b: UserId)
    ensures History(requests, msgs, a, b) == History(requests, msgs, b, a)
  {
    MessagesBetweenSymmetric(msgs, a, b);
    assert Connected(requests, a, b) <==> Connected(requests, b, a);
  }

  /** Accepting request `id` opens the history of its two endpoints. */
  lemma AcceptOpensHistory(requests: seq<ConnectionRequest>, msgs: seq<Message>, id: RequestId)
    requires id < |requests|
    ensures var accepted := requests[id := requests[id].(status := Accepted)];
      History(accepted, msgs, requests[id].sender, requests[id].recipient).Success?
  {
    var accepted := requests[id := requests[id].(status := Accepted)];
    assert accepted[id].status == Accepted;
  }

  /** A new request shows up in its recipient's pending list; once answered it leaves it. */
  lemma PendingLifecycle(requests: seq<ConnectionRequest>, q: ConnectionRequest, status: Status)
    requires q.status == Pending && status != Pending
    ensures PendingEntry(|requests|, q) in ListPending(requests + [q], q.recipient)
    ensures forall e :: e in ListPending((requests + [q])[|requests| := q.(status := status)], q.recipient) ==>
      e.requestId != |requests|
  {
    assert (requests + [q])[|requests|] == q;
  }
}
