/**
 * The friend-request state machine of the chat application: the data held
 * in the user, friend-request and notification stores, the two request
 * handlers (send a friend request, accept a friend request) as pure
 * transitions over that data, and the "pending requests addressed to me"
 * query of the dashboard.
 */
module FriendGraph {

  datatype Option<T> = None | Some(value: T)

  type Username = string

  /** An opaque point in time, as returned by the clock. */
  type Timestamp = int

  /**
   * A friend request is identified by its position in the append-only
   * request store: ids are handed out on insertion and never reused.
   */
  type RequestId = nat

  datatype Status = Pending | Accepted

  datatype FriendRequest = FriendRequest(from: Username, to: Username, status: Status, timestamp: Timestamp)

  datatype Notification = Notification(username: Username, message: string, timestamp: Timestamp, read: bool)

  /** What a handler answers; the HTTP layer encodes it as a status code. */
  datatype Outcome = Success | Unauthorized | SelfRequest | NotFound | Duplicate | Invalid

  /**
   * The stores the handlers touch. `users` maps the username of every
   * existing user document to the set held in its `friends` array.
   */
  datatype Db = Db(users: map<Username, set<Username>>, requests: seq<FriendRequest>, notifications: seq<Notification>)

  /** A session counts as logged in when it holds a non-empty username. */
  predicate LoggedIn(session: Option<Username>)
  {
    session.Some? && session.value != ""
  }

  predicate IsPending(r: FriendRequest, from: Username, to: Username)
  {
    r.from == from && r.to == to && r.status == Pending
  }

  /** Some pending request from `from` to `to` is on record. */
  predicate HasPending(requests: seq<FriendRequest>, from: Username, to: Username)
  {
    exists i | 0 <= i < |requests| :: IsPending(requests[i], from, to)
  }

  /** At most one pending request per ordered (from, to) pair. */
  ghost predicate UniquePending(requests: seq<FriendRequest>)
  {
    forall i, j | 0 <= i < |requests| && 0 <= j < |requests| ::
      IsPending(requests[i], requests[j].from, requests[j].to) && requests[j].status == Pending ==> i == j
  }

  /** Among existing user documents, friendship is a symmetric relation. */
  ghost predicate SymmetricFriends(users: map<Username, set<Username>>)
  {
    forall u, v | u in users && v in users :: v in users[u] <==> u in users[v]
  }

  function RequestSentText(sender: Username): string
  {
    sender + " mengirim permintaan teman"
  }

  function RequestAcceptedText(receiver: Username): string
  {
    receiver + " menerima permintaan temanmu"
  }

  /**
   * `$addToSet` on the `friends` array of the document of `who`, without
   * upsert: a missing document stays missing.
   */
  function AddToSet(users: map<Username, set<Username>>, who: Username, friend: Username): (r: map<Username, set<Username>>)
    ensures r.Keys == users.Keys
    ensures who in users ==> r[who] == users[who] + {friend}
    ensures forall u | u in users && u != who :: r[u] == users[u]
  {
    if who in users then users[who := users[who] + {friend}] else users
  }

  /**
   * Sending a friend request from the session user to `friend`: the guards
   * are tried in order, and only a request that passes all of them inserts a
   * pending request and one unread notification for the receiver.
   */
  function AddFriend(db: Db, session: Option<Username>, friend: Username, now: Timestamp): (r: (Db, Outcome))
    ensures r.1 == Unauthorized <==> !LoggedIn(session)
    ensures r.1 == SelfRequest <==> LoggedIn(session) && session.value == friend
    ensures r.1 == NotFound <==> LoggedIn(session) && session.value != friend && friend !in db.users
    ensures r.1 == Duplicate <==>
      LoggedIn(session) && session.value != friend && friend in db.users && HasPending(db.requests, session.value, friend)
    ensures r.1 != Invalid
    ensures r.1 != Success ==> r.0 == db
    ensures r.1 == Success ==>
      && r.0.users == db.users
      && |r.0.requests| == |db.requests| + 1
      && r.0.requests[..|db.requests|] == db.requests
      && r.0.requests[|db.requests|] == FriendRequest(session.value, friend, Pending, now)
      && |r.0.notifications| == |db.notifications| + 1
      && r.0.notifications[..|db.notifications|] == db.notifications
      && r.0.notifications[|db.notifications|] == Notification(friend, RequestSentText(session.value), now, false)
  {
    if !LoggedIn(session) then (db, Unauthorized)
    else
      var me := session.value;
      if me == friend then (db, SelfRequest)
      else if friend !in db.users then (db, NotFound)
      else if HasPending(db.requests, me, friend) then (db, Duplicate)
      else
        var request := FriendRequest(me, friend, Pending, now);
        var note := Notification(friend, RequestSentText(me), now, false);
        (db.(requests := db.requests + [request], notifications := db.notifications + [note]), Success)
  }

  /**
   * Accepting request `id` as the session user. The request must exist and
   * be addressed to the session user; its status is NOT re-checked. The
   * request becomes accepted, each party is added to the other's friend set
   * (where that user document exists) and the sender is notified.
   */
  function AcceptFriendRequest(db: Db, session: Option<Username>, id: RequestId, now: Timestamp): (r: (Db, Outcome))
    ensures r.1 == Unauthorized <==> !LoggedIn(session)
    ensures r.1 == Invalid <==> LoggedIn(session) && (id >= |db.requests| || db.requests[id].to != session.value)
    ensures r.1 == Success || r.1 == Unauthorized || r.1 == Invalid
    ensures r.1 != Success ==> r.0 == db
    ensures r.1 == Success ==>
      && id < |db.requests|
      && |r.0.requests| == |db.requests|
      && r.0.requests[id] == db.requests[id].(status := Accepted)
      && (forall j | 0 <= j < |db.requests| && j != id :: r.0.requests[j] == db.requests[j])
      && r.0.users.Keys == db.users.Keys
      && (session.value in db.users ==> r.0.users[session.value] == db.users[session.value] + {db.requests[id].from})
      && (db.requests[id].from in db.users ==> r.0.users[db.requests[id].from] == db.users[db.requests[id].from] + {session.value})
      && (forall u | u in db.users && u != session.value && u != db.requests[id].from :: r.0.users[u] == db.users[u])
      && |r.0.notifications| == |db.notifications| + 1
      && r.0.notifications[..|db.notifications|] == db.notifications
      && r.0.notifications[|db.notifications|] ==
           Notification(db.requests[id].from, RequestAcceptedText(session.value), now, false)
  {
    if !LoggedIn(session) then (db, Unauthorized)
    else
      var me := session.value;
      if id >= |db.requests| || db.requests[id].to != me then (db, Invalid)
      else
        var sender := db.requests[id].from;
        var requests := db.requests[id := db.requests[id].(status := Accepted)];
        var users := AddToSet(AddToSet(db.users, me, sender), sender, me);
        var note := Notification(sender, RequestAcceptedText(me), now, false);
        (Db(users, requests, db.notifications + [note]), Success)
  }

  /**
   * Ids of the requests in `requests[k..]` that are pending and addressed to
   * `user`, in store order.
   */
  function PendingFrom(requests: seq<FriendRequest>, user: Username, k: nat): (ids: seq<RequestId>)
    ensures forall i :: i in ids <==> k <= i < |requests| && requests[i].to == user && requests[i].status == Pending
    ensures forall a, b | 0 <= a < b < |ids| :: ids[a] < ids[b]
    decreases |requests| - k
  {
    if k >= |requests| then []
    else
      var rest := PendingFrom(requests, user, k + 1);
      assert forall b | 0 <= b < |rest| :: rest[b] in rest;
      if requests[k].to == user && requests[k].status == Pending then [k] + rest else rest
  }

  /** The dashboard's list of friend requests waiting for `user` to answer. */
  function PendingRequestsFor(requests: seq<FriendRequest>, user: Username): (ids: seq<RequestId>)
    ensures forall i :: i in ids <==> 0 <= i < |requests| && requests[i].to == user && requests[i].status == Pending
    ensures forall a, b | 0 <= a < b < |ids| :: ids[a] < ids[b]
  {
    PendingFrom(requests, user, 0)
  }
}
