/**
 * Properties of the friend-request transitions that relate several calls
 * or that every reachable state keeps.
 */
module FriendGraphLemmas {
  import opened FriendGraph

  /** Sending a request never creates a second pending request for one ordered pair. */
  lemma AddFriendKeepsUniquePending(db: Db, session: Option<Username>, friend: Username, now: Timestamp)
    requires UniquePending(db.requests)
    ensures UniquePending(AddFriend(db, session, friend, now).0.requests)
  {
  }

  /** Accepting a request never creates a pending request, so uniqueness is kept. */
  lemma AcceptKeepsUniquePending(db: Db, session: Option<Username>, id: RequestId, now: Timestamp)
    requires UniquePending(db.requests)
    ensures UniquePending(AcceptFriendRequest(db, session, id, now).0.requests)
  {
  }

  /** Accepting adds the friend edge in both directions, so symmetry among existing users is kept. */
  lemma AcceptKeepsSymmetricFriends(db: Db, session: Option<Username>, id: RequestId, now: Timestamp)
    requires SymmetricFriends(db.users)
    ensures SymmetricFriends(AcceptFriendRequest(db, session, id, now).0.users)
  {
  }

  /**
   * `$addToSet` is idempotent: a second union with the same element leaves
   * the friend sets as they were.
   */
  lemma AddToSetIdempotent(users: map<Username, set<Username>>, who: Username, friend: Username)
    ensures AddToSet(AddToSet(users, who, friend), who, friend) == AddToSet(users, who, friend)
  {
  }

  /**
   * The status is not re-checked: accepting the same request a second time
   * succeeds again, leaves the requests and the friend sets as the first
   * accept left them, and appends one more notification for the sender.
   */
  lemma AcceptTwice(db: Db, session: Option<Username>, id: RequestId, first: Timestamp, second: Timestamp)
    requires AcceptFriendRequest(db, session, id, first).1 == Success
    ensures var db1 := AcceptFriendRequest(db, session, id, first).0;
            var (db2, outcome) := AcceptFriendRequest(db1, session, id, second);
            && outcome == Success
            && db2.requests == db1.requests
            && db2.users == db1.users
            && db2.notifications ==
                 db1.notifications + [Notification(db.requests[id].from, RequestAcceptedText(session.value), second, false)]
  {
  }

  /** Two `$addToSet` updates commute. */
  lemma AddToSetCommute(users: map<Username, set<Username>>, a: Username, x: Username, b: Username, y: Username)
    ensures AddToSet(AddToSet(users, a, x), b, y) == AddToSet(AddToSet(users, b, y), a, x)
  {
    var l, r := AddToSet(AddToSet(users, a, x), b, y), AddToSet(AddToSet(users, b, y), a, x);
    assert forall u | u in l :: l[u] == r[u];
  }

  /** Inserting one more request extends every dashboard list by at most that request. */
  lemma {:induction false} PendingFromAppend(requests: seq<FriendRequest>, r: FriendRequest, user: Username, k: nat)
    requires k <= |requests|
    ensures PendingFrom(requests + [r], user, k) ==
              PendingFrom(requests, user, k) + (if r.to == user && r.status == Pending then [|requests|] else [])
    decreases |requests| - k
  {
    var extended := requests + [r];
    if k < |requests| {
      PendingFromAppend(requests, r, user, k + 1);
      assert extended[k] == requests[k];
    } else {
      assert extended[k] == r;
      assert PendingFrom(extended, user, k + 1) == [];
    }
  }

  /** Two request stores that agree on which positions are pending for `user` give the same list. */
  lemma {:induction false} PendingFromAgree(requests: seq<FriendRequest>, other: seq<FriendRequest>, user: Username, k: nat)
    requires |requests| == |other|
    requires forall j | k <= j < |requests| ::
      (requests[j].to == user && requests[j].status == Pending) == (other[j].to == user && other[j].status == Pending)
    ensures PendingFrom(requests, user, k) == PendingFrom(other, user, k)
    decreases |requests| - k
  {
    if k < |requests| {
      PendingFromAgree(requests, other, user, k + 1);
    }
  }

  /**
   * After a request is sent, the receiver's dashboard list gains exactly the
   * new request, at its end; every other user's list is unchanged.
   */
  lemma PendingAfterAddFriend(db: Db, session: Option<Username>, friend: Username, now: Timestamp, user: Username)
    requires AddFriend(db, session, friend, now).1 == Success
    ensures var db' := AddFriend(db, session, friend, now).0;
            PendingRequestsFor(db'.requests, user) ==
              PendingRequestsFor(db.requests, user) + (if user == friend then [|db.requests|] else [])
  {
    var db' := AddFriend(db, session, friend, now).0;
    var r := db'.requests[|db.requests|];
    assert db'.requests == db.requests + [r];
    PendingFromAppend(db.requests, r, user, 0);
  }

  /**
   * After an accept, the accepted request leaves the accepting user's list
   * and nothing else does; every other user's list is unchanged.
   */
  lemma PendingAfterAccept(db: Db, session: Option<Username>, id: RequestId, now: Timestamp, user: Username)
    requires AcceptFriendRequest(db, session, id, now).1 == Success
    ensures var db' := AcceptFriendRequest(db, session, id, now).0;
            && id !in PendingRequestsFor(db'.requests, session.value)
            && (forall i :: i in PendingRequestsFor(db'.requests, session.value) <==>
                             i in PendingRequestsFor(db.requests, session.value) && i != id)
            && (user != session.value ==> PendingRequestsFor(db'.requests, user) == PendingRequestsFor(db.requests, user))
  {
    var db' := AcceptFriendRequest(db, session, id, now).0;
    if user != session.value {
      PendingFromAgree(db'.requests, db.requests, user, 0);
    }
  }

  /**
   * Only the same-direction pending request is checked: a user may send a
   * request to someone who is already a friend. This is one example; the
   * general fact is the `Duplicate` if-and-only-if of `AddFriend`, which
   * looks only at a same-direction pending request.
   */
  lemma RequestToExistingFriend()
    ensures var db := Db(map["alice" := {"bob"}, "bob" := {"alice"}], [], []);
            AddFriend(db, Some("alice"), "bob", 0).1 == Success
  {
  }

  /**
   * Only the same-direction pending request is checked: two users may each
   * hold a pending request to the other. This is one example; the general
   * fact is the `Duplicate` if-and-only-if of `AddFriend`, which looks only
   * at a same-direction pending request.
   */
  lemma CrossedRequests()
    ensures var db0 := Db(map["alice" := {}, "bob" := {}], [], []);
            var (db1, o1) := AddFriend(db0, Some("alice"), "bob", 0);
            var (db2, o2) := AddFriend(db1, Some("bob"), "alice", 1);
            o1 == Success && o2 == Success && HasPending(db2.requests, "alice", "bob") && HasPending(db2.requests, "bob", "alice")
  {
  }

  /**
   * Symmetry holds only among existing user documents: a caller without a
   * document can send a request, and when it is accepted the receiver lists
   * the caller as a friend while no document lists the receiver back.
   */
  lemma OneSidedFriendship()
    ensures var db0 := Db(map["bob" := {}], [], []);
            var (db1, o1) := AddFriend(db0, Some("alice"), "bob", 0);
            var (db2, o2) := AcceptFriendRequest(db1, Some("bob"), 0, 1);
            o1 == Success && o2 == Success && db2.users == map["bob" := {"alice"}]
  {
    var db0 := Db(map["bob" := {}], [], []);
    assert !HasPending(db0.requests, "alice", "bob");
    var db1 := AddFriend(db0, Some("alice"), "bob", 0).0;
    assert db1.requests == [FriendRequest("alice", "bob", Pending, 0)];
    var db2 := AcceptFriendRequest(db1, Some("bob"), 0, 1).0;
    assert db1.users == db0.users;
    assert "alice" !in db1.users;
    assert db2.users.Keys == {"bob"};
    assert db2.users["bob"] == {"alice"};
  }
}
