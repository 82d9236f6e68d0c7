# Friend requests in the SkyGenesis chat application

This project models the friend-request part of the chat application's Flask
app (`app.py`). It covers these pieces:

- the `add_friend` route, which sends a friend request;
- the `accept_friend_request` route, which accepts one;
- the dashboard's query for the requests still waiting for the logged-in
  user to answer.

Without the web framework and the document store, what is left is a
sequential state machine over three stores:

- **users**: a map from the username of every existing user document to the
  set held in that document's `friends` array. `find_one` by username is key
  membership. `update_one` with `$addToSet` is a set union on an existing
  key. Without upsert it does nothing when the document is missing
  (`FriendGraph.AddToSet`).
- **friend requests**: an append-only sequence of
  `FriendRequest(from, to, status, timestamp)`. A request's id is its
  position in that sequence, so an id that was never handed out is simply
  out of range.
- **notifications**: an append-only sequence of
  `Notification(username, message, timestamp, read)`. The message texts are
  the source's own.

The session is an `Option<Username>`. A missing or empty username is "not
logged in", as with the source's `if not username`. Each handler answers an
`Outcome`, which the web layer turns into an HTTP status:

| Outcome | HTTP status |
|---|---|
| `Success` | 200 |
| `Unauthorized` | 401 |
| `SelfRequest` | 400 |
| `NotFound` | 404 |
| `Duplicate` | 400 |
| `Invalid` | 404 |

The project has three files:

- `friend_graph.dfy` (module `FriendGraph`) defines the data. It also
  defines both handlers as pure transitions `Db -> (Db, Outcome)`, and the
  dashboard query. The contracts of these functions state the guard chain
  as if-and-only-if conditions on the outcome. They also state that a
  rejected call changes nothing, and exactly what a successful call changes.
- `friend_graph_lemmas.dfy` (module `FriendGraphLemmas`) proves that both
  handlers preserve two invariants, so they hold in every state
  `App.Database` reaches from its constructor. There is at most one pending
  request per ordered pair. Friendship among existing users is symmetric. The file
  also proves facts about sequences of calls: accepting twice, and how the
  dashboard list changes.
- `app.dfy` (module `App`) holds the handlers in their imperative form. The
  class `Database` keeps the three stores as fields, and its methods update
  them step by step. Each method is proved to produce exactly the pure
  transition and to keep the class invariant `Valid()`.

Two gaps in the handlers' checks are part of the model:

- `accept_friend_request` never re-checks the request's status
  (app.py:55-58). A second accept of the same request therefore succeeds
  again. It leaves the friend sets as they were and notifies the sender a
  second time (`FriendGraphLemmas.AcceptTwice`).
- `add_friend` looks only for a pending request in the same direction
  (app.py:21-25). Existing friends can still send each other requests
  (`FriendGraphLemmas.RequestToExistingFriend`). Two users can each hold a
  pending request to the other (`FriendGraphLemmas.CrossedRequests`).

Friendship is symmetric only among users that have a document.
`add_friend` never checks that the caller has a user document, and the
`$addToSet` on a missing document is skipped. So an accepted request can
leave a one-sided edge: the receiver lists the caller, and no document lists
the receiver back (`FriendGraphLemmas.OneSidedFriendship`).

## Model

| member | source | states |
|---|---|---|
| `FriendGraph.AddFriend` | app.py:7-45 | The outcome is `Unauthorized` exactly when there is no logged-in user. It is `SelfRequest` exactly when the target is the caller, `NotFound` exactly when the target has no user document, and `Duplicate` exactly when a pending request from caller to target exists. Every rejection leaves all stores unchanged. A success keeps the users store. It appends exactly one request (caller, target, pending) and exactly one unread notification to the target, and keeps everything already stored. |
| `FriendGraph.AcceptFriendRequest` | app.py:48-82 | The outcome is `Unauthorized` exactly when there is no logged-in user. It is `Invalid` exactly when the id is unknown or the request is not addressed to the caller. Every rejection leaves all stores unchanged. A success sets that request's status to accepted and leaves all other requests unchanged. It adds the sender to the caller's friend set and the caller to the sender's, each only if that document exists. No other user and no set of documents changes. It appends one unread notification to the sender. |
| `FriendGraph.AddToSet` | app.py:64-71 | `$addToSet` without upsert keeps the set of user documents. It unions the friend into the named user's set when that document exists and changes no other user. |
| `FriendGraph.PendingFrom` | app.py:118 | The returned ids are exactly the positions from `k` on whose request is addressed to the user and still pending. They are listed in insertion order. |
| `FriendGraph.PendingRequestsFor` | app.py:118 | The dashboard list holds exactly the ids of the requests addressed to the user whose status is pending. The model lists them in insertion order, which the unsorted query does not fix. |
| `FriendGraphLemmas.AddFriendKeepsUniquePending` | app.py:21-34 | If the store held at most one pending request per ordered (from, to) pair, it still does after `add_friend`. |
| `FriendGraphLemmas.AcceptKeepsUniquePending` | app.py:60-63 | If the store held at most one pending request per ordered pair, it still does after `accept_friend_request`. |
| `FriendGraphLemmas.AcceptKeepsSymmetricFriends` | app.py:64-71 | If friendship among existing user documents was symmetric, it still is after `accept_friend_request`. |
| `FriendGraphLemmas.AddToSetIdempotent` | app.py:64-71 | Repeating the same `$addToSet` leaves the friend sets as the first one left them. |
| `FriendGraphLemmas.AddToSetCommute` | app.py:64-71 | The two `$addToSet` updates of an accept commute: applying them in either order gives the same users store. |
| `FriendGraphLemmas.AcceptTwice` | app.py:55-77 | Status is not re-checked. After a successful accept, accepting the same request again succeeds. It leaves requests and friend sets unchanged and appends one more notification to the original sender. |
| `FriendGraphLemmas.PendingAfterAddFriend` | app.py:29-34 | After a successful request, the target's dashboard list is the old list followed by the new request's id. Every other user's list is unchanged. |
| `FriendGraphLemmas.PendingAfterAccept` | app.py:60-63 | After a successful accept, the accepted request is no longer in the caller's dashboard list and every other id stays. Every other user's list is unchanged. |
| `FriendGraphLemmas.RequestToExistingFriend` | app.py:21-25 | A user who is already a friend of the target can still send a request to that target. |
| `FriendGraphLemmas.OneSidedFriendship` | app.py:64-71 | When the caller has no user document, an accepted request adds the caller to the receiver's friends. No document lists the receiver back, because the skipped `$addToSet` creates nothing. |
| `FriendGraphLemmas.CrossedRequests` | app.py:21-34 | A request from alice to bob does not stop bob's request to alice. Afterwards pending requests exist in both directions. |
| `App.Database.AddFriend` | app.py:7-45 | The new stores and the outcome are exactly those of `FriendGraph.AddFriend` on the old stores. The class invariant is kept. |
| `App.Database.AcceptFriendRequest` | app.py:48-82 | The new stores and the outcome are exactly those of `FriendGraph.AcceptFriendRequest` on the old stores. The class invariant is kept. |

## Left out

- The web layer (routes, `jsonify`, redirects, templates) is reduced to the `Outcome` datatype. The error texts returned to the client are not modelled.
- Logging and every `except Exception` path that answers 500 are left out. These are failures of the store or the libraries, not logic.
- Parsing a request id with `ObjectId(...)` is left out. A malformed id string raises and answers 500. The model treats ids as abstract keys: positions in the request store.
- `FriendGraph.AddFriend`: both `datetime.utcnow()` calls are one `now` parameter, so the request and its notification carry the same timestamp.
- The non-atomic find-then-insert in `add_friend` is a race between concurrent requests. The handlers are modelled as sequential steps.
- `search_users` is left out. Its core is the store's case-insensitive regex match, `limit(10)` and date formatting, all library behaviour.
- The rest of `dashboard` is left out: the user lookup, the online-user list, the sorted and limited notifications, and the friend list. These are store queries and rendering. Only the pending-request filter is modelled.
- `static/js/main.js` is browser code (DOM updates, `fetch`, sockets, toasts, debouncing) and is not part of this model.
- Creating user documents (registration) is outside the handlers modelled here. `App.Database.constructor` starts from a given set of registered users with no friends and no requests.
- The notification `read` flag is never changed by these handlers. Notifications are only ever appended, unread.
- The dashboard's `find` at app.py:118 returns documents in no fixed order. The model returns request ids rather than documents, and picks insertion order.
- The users store is a map keyed by username, so it assumes one user document per username, while `find_one` and `update_one` act on the first match. Each `friends` array is a set, so its order is lost. Nothing in these handlers depends on either.
- `App.Database.Valid`: the set of user documents is fixed at construction. In the program, a document created later for a user already listed one-sidedly breaks symmetry among existing documents.
