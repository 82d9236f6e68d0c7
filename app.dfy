/**
 * The request handlers as they run against the application's stores: the
 * user documents, the friend-request collection and the notification
 * collection are fields that each handler updates step by step.
 */
module App {
  import opened FriendGraph
  import FriendGraphLemmas

  class Database {
    /** Username of every user document, with its `friends` array as a set. */
    var users: map<Username, set<Username>>
    /** The friend-request collection; a request's id is its position. */
    var friendRequests: seq<FriendRequest>
    /** The notification collection, append-only. */
    var notifications: seq<Notification>

    function State(): Db
      reads this
    {
      Db(users, friendRequests, notifications)
    }

    /**
     * At most one pending request per ordered pair, and symmetric friendship.
     * No handler needs it; it is the property the handlers promise to keep.
     */
    ghost predicate Valid()
      reads this
    {
      UniquePending(friendRequests) && SymmetricFriends(users)
    }

    /** Stores holding the given registered users, none of them with friends yet. */
    constructor (registered: set<Username>)
      ensures users == map u | u in registered :: {}
      ensures friendRequests == [] && notifications == []
      ensures Valid()
    {
      users := map u | u in registered :: {};
      friendRequests := [];
      notifications := [];
    }

    /** The `add_friend` route: a friend request from the session user to `friendUsername`. */
    method AddFriend(session: Option<Username>, friendUsername: Username, now: Timestamp) returns (outcome: Outcome)
      modifies this
      ensures (State(), outcome) == FriendGraph.AddFriend(old(State()), session, friendUsername, now)
      ensures old(Valid()) ==> Valid()
    {
      ghost var before := State();
      if UniquePending(before.requests) {
        FriendGraphLemmas.AddFriendKeepsUniquePending(before, session, friendUsername, now);
      }
      if !LoggedIn(session) {
        return Unauthorized;
      }
      var username := session.value;
      if username == friendUsername {
        return SelfRequest;
      }
      if friendUsername !in users {
        return NotFound;
      }
      if HasPending(friendRequests, username, friendUsername) {
        return Duplicate;
      }
      friendRequests := friendRequests + [FriendRequest(username, friendUsername, Pending, now)];
      notifications := notifications + [Notification(friendUsername, RequestSentText(username), now, false)];
      return Success;
    }

    /** The `accept_friend_request` route: the session user accepts request `requestId`. */
    method AcceptFriendRequest(session: Option<Username>, requestId: RequestId, now: Timestamp) returns (outcome: Outcome)
      modifies this
      ensures (State(), outcome) == FriendGraph.AcceptFriendRequest(old(State()), session, requestId, now)
      ensures old(Valid()) ==> Valid()
    {
      ghost var before := State();
      if Valid() {
        FriendGraphLemmas.AcceptKeepsUniquePending(before, session, requestId, now);
        FriendGraphLemmas.AcceptKeepsSymmetricFriends(before, session, requestId, now);
      }
      if !LoggedIn(session) {
        return Unauthorized;
      }
      var username := session.value;
      if requestId >= |friendRequests| || friendRequests[requestId].to != username {
        return Invalid;
      }
      var friendUsername := friendRequests[requestId].from;
      friendRequests := friendRequests[requestId := friendRequests[requestId].(status := Accepted)];
      users := AddToSet(users, username, friendUsername);
      users := AddToSet(users, friendUsername, username);
      notifications := notifications + [Notification(friendUsername, RequestAcceptedText(username), now, false)];
      return Success;
    }
  }
}
