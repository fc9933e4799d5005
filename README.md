# PortLib, modelled in Dafny

PortLib is a small library application with a location-sharing map. This project models its core and proves properties of the model. The core has four parts.

- **Two websocket servers.** The signaling server (backend/src/signalingServer.js) relays publish/subscribe messages between peers. It has a JWT-guarded handshake and a ping/pong liveness check per connection. The location server (websocketServer.js) stores the last location of each user, replays the stored locations to every new connection, broadcasts updates to all clients, and terminates sockets that stop answering pings.
- **The library services.** Borrowing, returning with a late fine, selling and funds (Services/libraryService.js). Transactions: validation, status updates, statistics, the overdue sweep and listing, and pagination (Services/transactionService.js). The book catalogue (backend/src/services/bookService.js). Accounts (Services/userService.js). The records they store come from backend/src/models.
- **The request guards** of Middleware/authMiddleware.js: bearer-token verification and the admin check.
- **A slice of the browser client** (frontend/src/script.js): the table of user markers, the routing of incoming messages, the stale-marker sweep, the bounded reconnect counter, and the "time ago" text.

The files:

- `wrappers.dfy`: `Option` and `Result`.
- `schema.dfy`: the records, their enumerations, defaults and validators.
- `database.dfy`: the three collections as maps in class `Store.Database`. Saving checks the validators and the unique indexes. It also holds the query helpers: `Scan` (natural order) and `Window` (`skip`/`limit`).
- `library_service.dfy`, `transaction_service.dfy`, `book_service.dfy`, `user_service.dfy`: one module per service.
- `decimal.dfy`: JavaScript's decimal text of integers.
- `auth_middleware.dfy`, `signaling.dfy`, `location_server.dfy`, `map_client.dfy`: the guards, the two servers and the client.

Modelling conventions:

- Objects whose fields the source updates in place are classes: the database, both servers and the client. Their methods state the whole new state. Each is proved against a pure function, an invariant (`Valid`), or both.
- Document ids are natural numbers from one shared counter, so natural order is ascending id.
- Times are milliseconds.
- Money is counted in half-units. The late fine is 0.5 per day, so one half-unit per day.
- JavaScript truthiness is written out: an empty string, 0 and an absent value are falsy.
- Foreign code becomes a parameter. This covers `jwt.verify`, bcrypt, the user lookup of the middleware, clocks, and whether a socket write or ping throws.

The services in Services/ import the older schemas in Models/. The book service and this model use the stricter schemas of backend/src/models: non-negative copies, a price for a book on sale, a due date for a borrow, a price for a purchase, and the role enum. `checkAdmin` reads the field `type`, which only the older Models/User.js has. The middleware is therefore modelled over a user record that carries `tokenVersion` and `type` as plain JavaScript values. `Auth.RoleAdminIsNotAdmin` shows that a user of the newer schema never passes `checkAdmin`, whatever its role.

## Model

| member | source | states |
|---|---|---|
| Schema.RoleName | backend/src/models/User.js:9 | the stored spelling of a role parses back to that role |
| Schema.ParseRole | backend/src/models/User.js:9 | exactly "ADMIN" and "MEMBER" are accepted, each as its own role |
| Schema.TxTypeName | backend/src/models/Transaction.js:7 | the stored spelling of a transaction type parses back to it |
| Schema.ParseTxType | backend/src/models/Transaction.js:7 | exactly "borrow" and "purchase" are accepted |
| Schema.StatusName | backend/src/models/Transaction.js:16-20 | the stored spelling of a status parses back to it |
| Schema.ParseStatus | backend/src/models/Transaction.js:16-20 | exactly "active", "completed" and "overdue" are accepted |
| Schema.Trim | backend/src/models/Book.js:5-7 | `trim()`: an infix of the input with only white space cut from either end, that neither starts nor ends with white space; empty exactly when the input is all white space |
| Schema.TrimIdempotent | backend/src/models/Book.js:5-7 | trimming twice is trimming once |
| Schema.TrimDropsSurroundingSpace | backend/src/models/Book.js:5 | a title given as " Dune " is stored as "Dune" |
| Schema.ValidBook | backend/src/models/Book.js:5-22 | the book validators: title, isbn and author non-empty, copies not negative, a price whenever the book is for sale |
| Schema.ValidUser | backend/src/models/User.js:5-7 | the user validators: username and email non-empty |
| Schema.ValidTransaction | backend/src/models/Transaction.js:9-26 | the transaction validators: a borrow has a due date and a purchase a price |
| Schema.NewBook | backend/src/models/Book.js:3-25 | title and author are trimmed; copies default to 1, approved and forSale to false, no price; the book is valid iff title and author are not all white space, the isbn is present and copies are not negative |
| Schema.NewUser | backend/src/models/User.js:3-12 | role defaults to MEMBER, tokenVersion to 1, balance to 0; valid iff username and email are present |
| Schema.NewTransaction | backend/src/models/Transaction.js:8-20 | status defaults to active and startDate to the moment of creation; other fields are kept |
| Store.Scan | Services/libraryService.js:119-123 | the listed ids are exactly the stored ids matching the filter, in strictly increasing (natural) order |
| Store.Window | backend/src/services/bookService.js:36-37 | a negative skip is refused; otherwise a contiguous slice from `skip`; limit 0 means no limit and a negative limit its absolute value |
| Store.Records | Services/libraryService.js:119-126 | the records at the listed ids, in the same order |
| Store.Database.constructor | backend/src/models/Book.js:3-25 | the three collections start empty and consistent |
| Store.Database.SaveBook | backend/src/models/Book.js:5-22 | refused by a failing validator or an isbn already stored, and only then; otherwise stored under a fresh id |
| Store.Database.SaveUser | backend/src/models/User.js:5-9 | refused by a failing validator or an email already stored, and only then; otherwise stored under a fresh id |
| Store.Database.SaveTransaction | backend/src/models/Transaction.js:5-26 | refused exactly when a borrow lacks a due date or a purchase lacks a price |
| Store.RewriteTransactions | backend/src/models/Transaction.js:9-26 | rewriting transactions in place with valid records keeps every collection consistent |
| Library.DueDate | Services/libraryService.js:17-18 | the due date is `durationDays` (14 by default) whole days after now |
| Library.DaysLate | Services/libraryService.js:54-56 | the whole days late: `d` days fit into the delay and `d + 1` do not |
| Library.Fine | Services/libraryService.js:51-62 | an active loan returned after its due date is fined one half-unit per whole day late; any other return costs nothing |
| Library.FineMonotone | Services/libraryService.js:51-57 | a later return is never fined less |
| Library.FlaggedLoanEscapesFine | Services/libraryService.js:51 | a loan at least a day late is fined while active but not once flagged overdue |
| Library.Returned | Services/libraryService.js:64-65 | a returned loan is completed with the return date set, all else kept |
| Library.BorrowBook | Services/libraryService.js:6-34 | errors in source order (book, user, copies) with nothing changed; otherwise one new active borrow due at DueDate and one copy fewer; lifecycle kept |
| Library.ReturnBook | Services/libraryService.js:36-73 | a missing or non-borrow transaction and a completed one are refused; a late active loan fines its user; the loan is completed and the book gets a copy back |
| Library.SellBook | Services/libraryService.js:75-107 | errors in source order (book, user, not for sale, funds); otherwise a completed purchase at the book's price, one copy fewer and the price charged |
| Library.AddUserFunds | Services/libraryService.js:129-145 | a non-positive amount is refused before the lookup; an unknown user is refused; otherwise only the balance grows by the amount |
| Library.OverdueLoans | Services/libraryService.js:117-127 | exactly the active borrows due before now, in natural order |
| Library.ListedLoansAreFined | Services/libraryService.js:117-123 | every listed loan would be fined if returned at the same moment |
| Transactions.Absent | Services/transactionService.js:153-154 | the missing required fields, in the order user, book, type |
| Transactions.Validate | Services/transactionService.js:152-181 | the checks fail in source order (missing fields, type, due date, price, book, user): each error is returned exactly when every earlier check passes and its own fails, and the data passes iff every check passes |
| Transactions.StatusOrDefault | Services/transactionService.js:13 | an absent or empty status becomes active; otherwise the enum decides |
| Transactions.ValidatedDataSaves | Services/transactionService.js:9-16 | data that passes validation always satisfies the schema's conditional requirements |
| Transactions.CreateTransaction | Services/transactionService.js:7-24 | a failed validation or enum check stores nothing; otherwise the record is stored with status defaulting to active |
| Transactions.WithStatus | Services/transactionService.js:93-94 | the new status is set, and completing also stamps the return date |
| Transactions.UpdateTransactionStatus | Services/transactionService.js:82-109 | a missing id or status, an invalid status and an unknown id are refused with nothing changed; otherwise only that record changes |
| Transactions.StatusUpdateCanReopen | Services/transactionService.js:88-96 | a completed loan can be moved back to active, breaking the lending lifecycle |
| Transactions.Tally | Services/transactionService.js:120-124 | each status takes the count of its last row (0 when none), and the total is the sum of all rows |
| Transactions.Aggregate | Services/transactionService.js:115-118 | every row carries a positive count, so an absent status has no row |
| Transactions.AggregateCounts | Services/transactionService.js:115-124 | the tally of the aggregation gives, per status, the number of the user's transactions with it |
| Transactions.StatusesPartition | Services/transactionService.js:117 | every transaction of a user has exactly one of the three statuses |
| Transactions.AggregateSumsToTotal | Services/transactionService.js:117-123 | the counts of the rows add up to the number of the user's transactions |
| Transactions.GetUserTransactionStats | Services/transactionService.js:111-131 | a missing user id is refused; otherwise the three counts are the per-status numbers and the total is their sum |
| Transactions.MarkedOverdue | Services/transactionService.js:135-142 | exactly the active borrows due before now become overdue; everything else is kept |
| Transactions.MarkingIsIdempotent | Services/transactionService.js:135-142 | a second sweep at the same moment changes nothing |
| Transactions.MarkingKeepsLifecycle | Services/transactionService.js:135-142 | the sweep only moves active loans to overdue |
| Transactions.MarkingKeepsValid | Services/transactionService.js:135-142 | after the sweep every transaction still passes the schema's validators |
| Transactions.MarkOverdueTransactions | Services/transactionService.js:133-150 | the collection becomes MarkedOverdue and the count returned is the number of loans flagged |
| Transactions.SweepDone | Services/transactionService.js:135-142 | a sweep that has visited every id has flagged exactly the overdue loans |
| Transactions.InsertByDue | Services/transactionService.js:71 | inserting into a list sorted by due date keeps it sorted and adds exactly that loan |
| Transactions.SortByDue | Services/transactionService.js:71 | the result is sorted by ascending due date and is a permutation of the input |
| Transactions.DueLoans | Services/transactionService.js:64-68 | one entry per listed id, carrying that loan's due date |
| Transactions.Cutoff | Services/transactionService.js:61-62 | the cutoff lies `graceDays` whole days before now |
| Transactions.Candidates | Services/transactionService.js:64-68 | exactly the active or overdue borrows due before the cutoff, in natural order |
| Transactions.OverdueListing | Services/transactionService.js:59-80 | the listing is sorted by due date and is a permutation of the matching loans |
| Transactions.ListingIsExact | Services/transactionService.js:64-71 | each matching loan is listed exactly once with its due date, and nothing else is listed |
| Transactions.GuardFires | Services/transactionService.js:185-190 | `id && !id` is false whether the id is truthy or not |
| Transactions.GuardRejects | Services/transactionService.js:185-190 | neither guard fires for any scope: with or without a user id, with or without a book id |
| Transactions.Matches | Services/transactionService.js:194-196 | the query: the base query, plus the status and the type when they are truthy |
| Transactions.FiltersOnlyNarrow | Services/transactionService.js:194-196 | a status or type filter only narrows the base query |
| Transactions.PagesFor | Services/transactionService.js:217 | `Math.ceil(total / limit)`: the ceiling for either sign of the limit; NaN or Infinity for a limit of 0 |
| Transactions.ReversedSameMembers | Services/transactionService.js:203 | the newest-first order lists exactly the matching ids |
| Transactions.Reversed | Services/transactionService.js:192 | the default sort lists the newest first: the reversal of natural order |
| Transactions.MatchingIds | Services/transactionService.js:200 | exactly the stored transactions the query matches |
| Transactions.Paginate | Services/transactionService.js:183-227 | page 1 and limit 10 by default; skip is `(page - 1) * limit`; refused iff skip is negative; otherwise the window of the matching transactions, newest first, with total and page count; every listed id matches the query |
| Transactions.PagesCoverTotal | Services/transactionService.js:198-217 | with a positive limit, pages 1 to `pages` each hold a transaction and the next page holds none |
| Books.Submitted | backend/src/services/bookService.js:15-25 | the stored book takes the trimmed title and author and copies isbn, publicationYear and copiesAvailable; it is unapproved, not for sale and credited to the caller |
| Books.SubmissionIgnoresFlags | backend/src/services/bookService.js:15 | approved, forSale and price in the submitted data have no effect |
| Books.AddBook | backend/src/services/bookService.js:13-30 | stored iff the validators pass on the trimmed book and the isbn is new; a title or author of only white space is refused; a refusal changes nothing |
| Books.ApproveBook | backend/src/services/bookService.js:43-48 | an unknown id gives null with nothing changed; otherwise only `approved` becomes true |
| Books.UpdateBookCopiesAsWritten | backend/src/services/bookService.js:57-70 | succeeds iff the increment is a number and the id is known; a non-number is refused and an unknown id fails; otherwise copies grow by exactly the increment, with no lower bound, and no other field or book changes |
| Books.AsWrittenStockGoesNegative | backend/src/services/bookService.js:63-67 | the as-written update takes a consistent store with a book at 0 copies to one with -1 copies |
| Books.UpdateBookCopies | backend/src/services/bookService.js:57-70 | the corrected update: the same errors, and a result below zero is refused; otherwise it agrees with the as-written update and keeps the store consistent |
| Books.MarkBookForSale | backend/src/services/bookService.js:86-99 | a missing, zero or negative price is refused before the lookup; otherwise forSale and the price are set and nothing else changes |
| Books.RemoveBookFromSale | backend/src/services/bookService.js:101-106 | only forSale becomes false; the price is kept |
| Books.GetPendingBooks | backend/src/services/bookService.js:32-41 | only unapproved books are listed; by default the first 20 in natural order |
| Books.GetBooksForSale | backend/src/services/bookService.js:108-120 | only approved books on sale with a copy left are listed; by default the first 20 in natural order |
| Books.UnlimitedSaleListingIsExact | backend/src/services/bookService.js:110-114 | without a limit, the listing holds each matching book exactly once, in natural order |
| Books.ListedBooksAreSellable | backend/src/services/bookService.js:110-114 | a listed book passes the copies, on-sale and price checks of a sale |
| Books.RemovedBookLeavesSaleListing | backend/src/services/bookService.js:101-114 | a book taken off sale is not listed for sale |
| Users.ProfileOf | Services/userService.js:25-27 | the profile together with the password hash gives back the stored user |
| Users.ProfileHidesHash | Services/userService.js:25-27 | two users that differ only in their password hash give the same profile |
| Users.RegisterUser | Services/userService.js:5-28 | refused when the email or the username is taken, when hashing fails, or when a validator fails; otherwise a new member is stored; usernames stay unique |
| Users.GetUserProfileBy | Services/userService.js:34-40 | an empty field name is refused; otherwise the profile of the first user in natural order whose field holds the value, or none |
| Users.UpdateUserFunds | Services/userService.js:42-54 | an unknown user is refused with nothing changed; otherwise the amount, of either sign, is added to the balance |
| Users.UpdateRole | Services/userService.js:56-73 | an invalid role is refused before the lookup; an unknown user is refused; otherwise only the role changes |
| Users.ClampLimit | Services/userService.js:75-76 | the limit lies in [1, 100]; 50 by default; a limit in range is kept |
| Users.ClampMonotone | Services/userService.js:76 | clamping keeps the order of the requested limits |
| Users.GetAllUsers | Services/userService.js:75-84 | a negative skip is refused; otherwise the profiles of the window of all users, with at most the clamped limit |
| Decimal.NatToString | frontend/src/script.js:267 | the decimal text of a natural number: digits only, with no leading zero |
| Decimal.IntToString | frontend/src/script.js:267 | the text of an integer starts with '-' exactly when it is negative |
| Decimal.ToNumber | Middleware/authMiddleware.js:19 | `Number(s)` on decimal text: the empty string is 0 and a string of digits is its value |
| Decimal.NatToStringValue | frontend/src/script.js:267 | reading back the digits of `n` gives `n` |
| Decimal.ToNumberRoundTrip | Middleware/authMiddleware.js:19 | `Number(String(n))` is `n` for every integer |
| Decimal.IntToStringInjective | frontend/src/script.js:267-271 | different integers have different text |
| Auth.LooseEquals | Middleware/authMiddleware.js:19 | `==` on the token version: equal values of one type, or a number and a string whose `Number()` is that number |
| Auth.TextVersionMatchesNumber | Middleware/authMiddleware.js:19 | under the loose comparison a version signed as text equals the same stored number |
| Auth.Split | Middleware/authMiddleware.js:10 | `split(" ")`: the pieces contain no space and, joined with spaces, give back the string |
| Auth.SplitAfterWord | Middleware/authMiddleware.js:10 | splitting after a word without spaces gives the word, then the pieces of the rest |
| Auth.TokenOf | Middleware/authMiddleware.js:10 | the second piece of a bearer header is the text after "Bearer " up to the next space |
| Auth.BearerToken | Middleware/authMiddleware.js:6-10 | the token of "Bearer t" followed by nothing or a space is `t` |
| Auth.VerifyToken | Middleware/authMiddleware.js:4-28 | 401 iff the bearer header is missing; 403 when verification fails or the lookup throws; 404 iff the user is not found; otherwise the request proceeds with the found user iff the token version loosely equals the user's |
| Auth.BearerRequestOutcome | Middleware/authMiddleware.js:4-24 | for "Bearer t", the verifier judges exactly `t`; the request proceeds exactly when `t` verifies to the current version of an existing user |
| Auth.CheckAdmin | Middleware/authMiddleware.js:30-35 | the request proceeds iff the user's `type` is exactly "admin"; otherwise 403 |
| Auth.PrincipalOf | backend/src/models/User.js:3-12 | a user of the newer schema carries its token version and no `type` |
| Auth.RoleAdminIsNotAdmin | Middleware/authMiddleware.js:31 | a newer-schema user with role ADMIN is still refused by checkAdmin |
| Signaling.TokenOf | backend/src/signalingServer.js:31-34 | the query token when truthy, else the subprotocol header when truthy |
| Signaling.Admits | backend/src/signalingServer.js:28-56 | without a secret every request is admitted; with one, only a request whose URL parses and whose token verifies |
| Signaling.CloseRequested | backend/src/signalingServer.js:59-62 | `conn.close()` leaves the connection unwritable and does not touch one already closing or closed |
| Signaling.AfterSend | backend/src/signalingServer.js:58-70 | a connecting or open connection whose write succeeds gets the frame; otherwise nothing is written and the connection is closed |
| Signaling.AfterPingTick | backend/src/signalingServer.js:78-92 | without a pong since the last tick the connection is closed and its timer stops; otherwise the flag is cleared and a ping goes out, or the connection closes if the ping throws |
| Signaling.TwoTicksWithoutPongClose | backend/src/signalingServer.js:78-92 | two ticks with no pong between them close the connection and stop its timer |
| Signaling.Names | backend/src/signalingServer.js:125-126 | only the string entries of `topics` are taken |
| Signaling.WithSubscriber | backend/src/signalingServer.js:125-136 | each named topic exists afterwards and holds the connection; other members and other topics are unchanged |
| Signaling.WithoutSubscriber | backend/src/signalingServer.js:140-146 | the connection leaves each named topic that exists; no topic is deleted |
| Signaling.SubscribeIdempotent | backend/src/signalingServer.js:125-136 | subscribing to the same names twice is the same as once |
| Signaling.AfterClose | backend/src/signalingServer.js:99-106 | the connection leaves each topic it subscribed to, and a topic left empty is deleted |
| Signaling.Delivered | backend/src/signalingServer.js:154-156 | each receiver is sent the frame once; other connections are unchanged |
| Signaling.DeliveredConsistent | backend/src/signalingServer.js:154-156 | delivery keeps the subscription invariant |
| Signaling.PublishTopic | backend/src/signalingServer.js:150-152 | a publish reaches a topic only when it names one that has a set |
| Signaling.SubscribeConsistent | backend/src/signalingServer.js:124-136 | subscribing keeps the invariant that every topic member is live and records the topic |
| Signaling.UnsubscribeConsistent | backend/src/signalingServer.js:139-147 | unsubscribing keeps the invariant, though `subscribedTopics` keeps the names |
| Signaling.CloseConsistent | backend/src/signalingServer.js:99-110 | after the close handler the connection is in no topic and the invariant holds |
| Signaling.SignalingServer.constructor | backend/src/signalingServer.js:7-15 | the ping interval defaults to 30000 ms; there are no topics and no connections |
| Signaling.SignalingServer.HandleUpgrade | backend/src/signalingServer.js:28-56 | a connection is created iff Admits holds; a refused request changes nothing |
| Signaling.SignalingServer.Send | backend/src/signalingServer.js:58-70 | only the target connection changes, as AfterSend says |
| Signaling.SignalingServer.Deliver | backend/src/signalingServer.js:154-156 | the connections become Delivered; topics are unchanged |
| Signaling.SignalingServer.SubscribeTo | backend/src/signalingServer.js:124-137 | the topics become WithSubscriber and the names are recorded on the connection |
| Signaling.SignalingServer.UnsubscribeFrom | backend/src/signalingServer.js:139-147 | the topics become WithoutSubscriber; connections are unchanged |
| Signaling.SignalingServer.OnMessage | backend/src/signalingServer.js:112-173 | nothing happens for an unparsable, untyped or unknown frame or a closed connection; a subscribe or unsubscribe whose `topics` is not an array throws with nothing changed; otherwise the frame is dispatched by type; 'ping' is answered with 'pong' |
| Signaling.SignalingServer.OnClose | backend/src/signalingServer.js:99-110 | the topics become AfterClose; the connection's names are cleared and it is marked closed |
| Signaling.SignalingServer.OnPingTick | backend/src/signalingServer.js:78-92 | only the ticking connection changes, as AfterPingTick says |
| Signaling.SignalingServer.OnPong | backend/src/signalingServer.js:94-97 | only that connection's pong flag is set |
| LocationSharing.Replay | websocketServer.js:30-38 | a new connection receives exactly one frame per stored location, except those whose write throws |
| LocationSharing.Broadcasted | websocketServer.js:79-85 | only an open socket whose write succeeds receives the frame |
| LocationSharing.BroadcastSockets | websocketServer.js:77-90 | every client entry's socket is visited once; sockets without an entry are unchanged |
| LocationSharing.BroadcastClients | websocketServer.js:77-90 | an entry is kept iff its socket is connecting, or open with a write that succeeds |
| LocationSharing.BroadcastReachesOpenClients | websocketServer.js:77-90 | a broadcast writes the frame exactly once to every open client whose write succeeds, and to nothing else |
| LocationSharing.Terminated | websocketServer.js:96 | `terminate` leaves a socket closing or closed, and closed only if it already was |
| LocationSharing.HeartbeatVisit | websocketServer.js:94-105 | a socket that has not answered is terminated; otherwise it is marked not alive and pinged, or terminated if the ping throws |
| LocationSharing.TwoTicksWithoutPongTerminate | websocketServer.js:93-107 | a socket that answers no ping between two ticks is terminated by the second |
| LocationSharing.HeartbeatSockets | websocketServer.js:93-107 | every socket not yet closed is visited once; closed ones are unchanged |
| LocationSharing.LocationServer.constructor | websocketServer.js:13-17 | no sockets, no clients, no stored locations |
| LocationSharing.LocationServer.OnConnection | websocketServer.js:21-38 | a fresh open, alive client whose outbox is exactly the replay of the stored locations |
| LocationSharing.LocationServer.BroadcastToAll | websocketServer.js:77-90 | sockets and client entries become BroadcastSockets and BroadcastClients |
| LocationSharing.KeyOf | websocketServer.js:45-56 | the `Map` key of a parsed `userId`: a primitive is its own key, an object or array a new identity |
| LocationSharing.SameKey | websocketServer.js:45-56 | two ids share a key iff they are the same primitive (so `5` and `"5"`, `null` and a missing id are apart), or objects given the same identity |
| LocationSharing.LocationServer.OnMessage | websocketServer.js:40-62 | an unparsable or null message changes nothing; a disconnect deletes the location stored under the message's `userId` (any client may name any user) and announces it to every client; any other message sets the location under that key and is broadcast; only a disconnect naming a stored primitive removes a location; an object `userId` deletes nothing on disconnect and adds one more entry on every update |
| LocationSharing.LocationServer.Disconnect | websocketServer.js:45-53 | the key of the `userId` is deleted and the departure broadcast; an object `userId` is a new key, so nothing is deleted |
| LocationSharing.LocationServer.Record | websocketServer.js:56-57 | the message is stored under the key of its `userId` and broadcast; no stored key is lost; an object `userId` adds one entry |
| LocationSharing.LocationServer.OnClose | websocketServer.js:64-66 | the client entry goes and stored locations stay |
| LocationSharing.LocationServer.OnError | websocketServer.js:68-71 | the client entry goes and stored locations stay |
| LocationSharing.LocationServer.OnPong | websocketServer.js:26-28 | only that socket is marked alive |
| LocationSharing.LocationServer.HeartbeatTick | websocketServer.js:93-107 | the sockets become HeartbeatSockets; the tables are unchanged |
| LocationSharing.LocationServer.GetStatus | websocketServer.js:118-124 | the number of client entries and the number of users with a stored location |
| MapClient.Route | frontend/src/script.js:521-539 | a non-object is ignored; a disconnect removes the named user or, without a user id, does nothing; any other message is applied iff it has a user id and both coordinates |
| MapClient.UsernameOf | frontend/src/script.js:118 | an empty or absent username becomes 'User' |
| MapClient.AccuracyOf | frontend/src/script.js:121 | an absent, unparsable or zero accuracy becomes 10 |
| MapClient.Upserted | frontend/src/script.js:115-197 | a message without a user id or with a non-numeric coordinate changes nothing; otherwise only that user's entry is updated or added; an update keeps `isCurrentUser` |
| MapClient.UpsertIdempotent | frontend/src/script.js:133-178 | applying the same message twice is the same as once |
| MapClient.Swept | frontend/src/script.js:655-664 | the table after the sweep: every marker except the stale ones of other users |
| MapClient.SweepKeepsFreshAndCurrent | frontend/src/script.js:655-664 | the sweep removes exactly the stale markers of other users, never the current user's, and a second sweep changes nothing |
| MapClient.AfterClose | frontend/src/script.js:455-472 | below five attempts one reconnect is scheduled and counted; at five nothing is scheduled |
| MapClient.ClosesScheduleAtMostFive | frontend/src/script.js:443-472 | `k` closes after an open schedule exactly `min(k, 5)` reconnects |
| MapClient.Elapsed | frontend/src/script.js:265-273 | seconds under 60, whole minutes under 3600, otherwise whole hours, with the amount bracketing the input |
| MapClient.FormatTimeAgo | frontend/src/script.js:265-273 | the amount of Elapsed in decimal, then the unit and "ago"; a minus sign only for a negative input |
| MapClient.FormatTimeAgoReadsBack | frontend/src/script.js:265-273 | the text reads back to exactly the amount and unit of Elapsed |
| MapClient.Client.constructor | frontend/src/script.js:24-37 | no markers and no reconnect attempts |
| MapClient.Client.ClearAllMarkers | frontend/src/script.js:106-113 | the table is emptied; nothing else changes |
| MapClient.Client.RemoveUserMarker | frontend/src/script.js:217-225 | the user's entry goes if present, and nothing else changes |
| MapClient.Client.UpdateUserMarker | frontend/src/script.js:115-197 | the table becomes Upserted; a position of the current user is remembered |
| MapClient.Client.ProcessIncomingData | frontend/src/script.js:521-539 | the table changes as Route decides; an applied update of the current user's own position is remembered, and nothing else changes it |
| MapClient.Client.SweepStaleMarkers | frontend/src/script.js:655-664 | the table becomes Swept |
| MapClient.Client.OnSocketOpen | frontend/src/script.js:440-445 | the counter is reset to 0 |
| MapClient.Client.OnSocketClose | frontend/src/script.js:447-473 | the counter follows AfterClose; below five attempts only the current user's marker is removed; at five attempts the whole table is emptied |

## Left out

- Logging, and the HTTP controllers and routes that call the services.
- Mongoose mechanics: `populate`, `lean` and index creation. Casting ids to ObjectId is also left out: an unparsable id counts as unknown.
- The `sort` option of `_getPaginatedTransactions`. Only the default, newest first, is modelled. A caller-supplied sort is not.
- Transactions.UpdateTransactionStatus: the `additionalData` merged into the update is left out. Only the status and the return date are written.
- Users.GetAllUsers: User has no timestamps, so the sort on `createdAt` ties every document. The listing is modelled in natural order.
- Users.GetUserProfileBy: only the string-valued fields are matched. A query on a numeric field or on `_id` matches nothing here.
- Books.GetPendingBooks: the `submittedBy` username that `populate` adds to each book is not modelled.
- Dates are millisecond timestamps with days of exactly 86400000 ms. `setDate` across a daylight-saving change is not modelled.
- Amounts are integers, in half-units for money. Fractional prices, amounts and coordinates are not modelled. `parseFloat`, `NaN` arithmetic and `toFixed` are not modelled. For coordinates, only whether parsing gave a number is kept.
- JWT verification, bcrypt and Google OAuth are parameters. So are the database lookup of the middleware and the outcome of each socket write or ping. Random client ids are replaced by a counter.
- Timers (`setInterval`, `setTimeout`) become explicit calls. The signaling server's `pingTimeout` option is read nowhere and is not modelled. The reconnect delay of 3000 ms is kept only as a constant.
- The client's Leaflet markers, popups, the users list and the zoom-to-location step are not modelled.
- Stopping the position watch on a socket close may send a 'disconnect' frame. The socket is already closed at that point, so that send is not modelled.
- Decimal.ToNumber: whitespace trimming, fractions, exponents and hexadecimal are not modelled.
- Decimal.IntToString: JavaScript numbers are doubles, so `String(n)` switches to exponent form from 1e21 and integers are exact only up to 2^53; the model's unbounded integers and plain digit text (balances, `tokenVersion`, the seconds of `formatTimeAgo`) differ from the source beyond those bounds.
- LocationSharing.KeyOf: a numeric `userId` is an integer. Fractions, `NaN` (a key equal to itself under SameValueZero) and `-0` are not modelled.
- MapClient.Route: the client's `userMarkers` are keyed by string user ids only. A truthy numeric, boolean, object or array `data.userId` is not represented. An object id would add a fresh marker on every update, so MapClient.UpsertIdempotent and MapClient.Client.ProcessIncomingData hold only for string ids.
- Signaling.SignalingServer.OnMessage: the TypeError thrown for a non-array `topics` is reported only as `threw`. What the process does with an uncaught error (logging it) is not modelled.
- The older Services/bookService.js and the looser schemas in Models/ are not part of this model.

## Findings

| source | as written | input that shows it | evidently intended | confidence | as-written member | corrected member |
|---|---|---|---|---|---|---|
| backend/src/services/bookService.js:63-67 | `$inc` through `findByIdAndUpdate` runs no validators, so the `min: 0` bound on `copiesAvailable` is not checked | a book with 0 copies and `incrementBy` -1: the stored book ends with -1 copies | the stock never goes below zero, as the schema declares | not executed | Books.UpdateBookCopiesAsWritten, Books.AsWrittenStockGoesNegative | Books.UpdateBookCopies |
