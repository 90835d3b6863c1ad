/** The persistent collections, as objects whose fields the handlers update in place. */
module Stores {
  import opened MessageRequests
  import opened Messages
  import opened SkillUsers

  /** The `MessageRequest` and `Message` collections. A request is addressed by its
      position in `requests`; a message's `_id` is its position in `messages`. */
  class ChatStore {
    var requests: seq<ConnectionRequest>
    var messages: seq<Message>

    /** Every stored message is valid and carries its own position as its id, and there
        is at most one request per ordered pair. */
    ghost predicate Valid()
      reads this
    {
      && UniqueOrderedPairs(requests)
      && forall i :: 0 <= i < |messages| ==> messages[i].id == i && ValidMessage(messages[i])
    }

    constructor ()
      ensures Valid() && requests == [] && messages == []
    {
      requests := [];
      messages := [];
    }
  }

  /** The `SkillUser` collection. */
  class UserRegistry {
    var users: seq<User>

    /** The unique index on email holds. */
    ghost predicate Valid()
      reads this
    {
      UniqueEmails(users)
    }

    constructor ()
      ensures Valid() && users == []
    {
      users := [];
    }
  }
}
