# Microservices lab and social clone, modelled in Dafny

This project models two parts of one repository.

**The microservices lab.** Six small HTTP services:

- **user service.** A constant table of users and `POST /users/validate`.
- **inventory service.** A product table whose stock `POST /inventory/check` reserves in place.
- **payment service.** A ledger that `POST /payments/process` appends to when a random draw approves.
- **notification service.** A log that `POST /notifications/send` appends to, with listings for everyone and per user.
- **order service.** `POST /orders` calls the user, inventory, payment and notification services in turn, then records a confirmed order.
- **frontend service.** It proxies the order endpoints. It also fans out health and metrics requests to every service and adds up the `http_requests_total` counters of each metrics page.

**The social clone.** The route handlers and client pieces of two copies of a Twitter-like web application:

- **Routes:**
  - follow and unfollow;
  - user lookup and listing;
  - follower statistics;
  - posts;
  - registration;
  - two importers of a public sample API;
  - the upload of profile and cover images;
  - the JSON helpers and form validators.
- **Client pieces:**
  - the login/register modal store;
  - the unfollow modal;
  - the follow counters context;
  - the login form;
  - the avatar and profile card colours;
  - the notifications page;
  - the "who to follow" box;
  - the followers/following list;
  - the profile header count.

**How the model is built:**

- **Services and handlers.** Each stateful service, and each handler that writes the database, is a class. Its fields are updated in place by methods whose `ensures` ties the new state and the reply to a pure transition function of the old state.
- **Database.** The database of the social clone is the class `SocialDb.Db`. It holds users, posts, comments, notifications and a supply of generated ids.
- **Loops.** A loop in the source is a `while` or `for` loop with invariants. These are the two importers' loops and the profile card's hash loop.
- **Contracts and lemmas.** The transition functions carry the contracts. Lemmas state what the source promises about them: outcomes per branch, invariants kept, round trips, order and "nothing else changes".
- **Inputs from outside.** Randomness, the clock, the answers of other services and of `fetch`, the session email and the password hash are parameters.

Several behaviours of the source are proved as stated properties rather than corrected:

- the order flow has no compensation for a declined payment;
- unfollow deletes by substring, so it also removes the notifications of followers whose handle extends the unfollower's;
- the metrics total becomes `NaN` when a counter line has no space;
- the sample-API importer checks new ids against the posts stored before the run only, so a payload that repeats a new id creates it once and then fails on the unique id with 500, keeping the rows already created.

## Model

| member | source | states |
|---|---|---|
| UserService.FindUser | microservices-lab/user-service/server.js:41 | the position found holds the first record whose numeric id strictly equals `userId`; None exactly when no record has it |
| UserService.Validate | microservices-lab/user-service/server.js:37-49 | the reply status is 200, 403 or 404, and the body accepts the user exactly when the status is 200 |
| UserService.ValidateOutcomes | microservices-lab/user-service/server.js:41-48 | 404 "User not found" iff no record has the id; otherwise the first such record decides: 403 "User inactive" unless its status is 'active', else 200 with the record |
| UserService.SeedValidation | microservices-lab/user-service/server.js:24-48 | with the seed table, ids 1 and 2 validate, id 3 is inactive, and any other id, a string id or a missing id is unknown |
| InventoryService.FindProduct | microservices-lab/inventory-service/server.js:37 | the position found holds the first product whose numeric id strictly equals the requested one; None exactly when none has it |
| InventoryService.Reserve | microservices-lab/inventory-service/server.js:33-60 | the table keeps its length; the body reports a reservation exactly when the status is 200; any other status leaves the table unchanged |
| InventoryService.ReserveOutcomes | microservices-lab/inventory-service/server.js:37-59 | unknown product: 404 and no change; stock below quantity: 400 with the current stock and no change; otherwise only the matched product loses `quantity` and the reply carries the remaining stock |
| InventoryService.ReserveKeepsStockNonNegative | microservices-lab/inventory-service/server.js:42-51 | a table without negative stock keeps none after any request |
| InventoryService.ReserveNotIdempotent | microservices-lab/inventory-service/server.js:51 | repeating a successful positive reservation lowers the stock again or is refused; it never leaves the table as the first call did |
| InventoryService.FindProductSameIds | microservices-lab/inventory-service/server.js:37 | the lookup depends only on the ids, so stock updates do not move it |
| InventoryService.NegativeQuantityRaisesStock | microservices-lab/inventory-service/server.js:42-51 | a negative quantity passes the stock check and raises the product's stock |
| InventoryService.SeedReservations | microservices-lab/inventory-service/server.js:22-59 | with the seed table, 3 laptops leave 7 and one tablet (stock 0) is refused with 400 |
| InventoryService.Inventory.constructor | microservices-lab/inventory-service/server.js:22-26 | the service starts with the seed table |
| InventoryService.Inventory.CheckAndReserve | microservices-lab/inventory-service/server.js:33-60 | the reply and the table updated in place are those of `Reserve` on the old table |
| InventoryService.Inventory.Listing | microservices-lab/inventory-service/server.js:63-65 | the listing is the table with a count equal to its length |
| PaymentService.Process | microservices-lab/payment-service/server.js:32-64 | the body reports a completed payment exactly when the status is 200 |
| PaymentService.ProcessOutcomes | microservices-lab/payment-service/server.js:37-63 | a declined draw answers 400 CARD_DECLINED and changes nothing; an approval appends one completed record with the request's userId and amount, a `txn_` id and the next id, and advances the counter |
| PaymentService.ProcessKeepsLedgerValid | microservices-lab/payment-service/server.js:24-56 | the ledger invariant (ids 1, 2, 3, … in order, counter = next id, every record completed with a `txn_` id) is kept by every request |
| PaymentService.OutcomeIgnoresRequest | microservices-lab/payment-service/server.js:37-39 | the status depends only on the draw, never on the payer or the amount |
| PaymentService.PaymentLedger.constructor | microservices-lab/payment-service/server.js:24-25 | empty ledger, counter 1, ledger invariant holds |
| PaymentService.PaymentLedger.ProcessPayment | microservices-lab/payment-service/server.js:32-64 | reply, records and counter after the call are those of `Process` on the old ledger |
| PaymentService.PaymentLedger.Listing | microservices-lab/payment-service/server.js:67-69 | the listing is the records with a count equal to their number |
| NotificationService.Send | microservices-lab/notification-service/server.js:62-82 | a send always succeeds |
| NotificationService.SendAppendsOne | microservices-lab/notification-service/server.js:66-75 | a send appends exactly one 'sent' record with the given userId, message and type under the current counter, keeps every earlier record and advances the counter |
| NotificationService.SendKeepsLogValid | microservices-lab/notification-service/server.js:54-75 | the log invariant (ids 1, 2, 3, … in order, counter = next id, all 'sent') is kept by every send |
| NotificationService.WithUserId | microservices-lab/notification-service/server.js:96 | the filter keeps exactly the records whose userId strictly equals the target |
| NotificationService.ForUser | microservices-lab/notification-service/server.js:94-103 | the per-user listing succeeds with a count equal to the number of records listed |
| NotificationService.All | microservices-lab/notification-service/server.js:85-91 | the full listing is the whole log with its length |
| NotificationService.ForUserMembership | microservices-lab/notification-service/server.js:94-98 | a record is listed iff the path parameter parses to an integer and the record's userId is that number |
| NotificationService.WithUserIdAppend | microservices-lab/notification-service/server.js:75-96 | a new record joins the end of its user's listing and leaves other listings unchanged (insertion order is kept) |
| NotificationService.StringIdsNeverListed | microservices-lab/notification-service/server.js:96 | a record whose userId was sent as a string is never listed for any parameter |
| NotificationService.ForUserOfDecimal | microservices-lab/notification-service/server.js:96 | the decimal text of an id selects exactly the records stored under that numeric id |
| NotificationService.NotificationLog.constructor | microservices-lab/notification-service/server.js:54-55 | empty log, counter 1, log invariant holds |
| NotificationService.NotificationLog.SendNotification | microservices-lab/notification-service/server.js:62-82 | reply, log and counter after the call are those of `Send` on the old log |
| OrderService.Fulfil | microservices-lab/order-service/server.js:35-94 | every reply is 201 with an order or the 400 "Order creation failed" rejection, and the calls made are a prefix (of length 1 to 4) of user, inventory, payment, notification |
| OrderService.CallsAreSequential | microservices-lab/order-service/server.js:40-78 | each call after the first happens iff every earlier collaborator was reached and passed; a flow that stops early answers 400 |
| OrderService.EarlyAbortChangesNothing | microservices-lab/order-service/server.js:40-50 | a request stopped at the user or inventory step changes no service's state |
| OrderService.RejectionCarriesCollaboratorBody | microservices-lab/order-service/server.js:84-91 | a rejection's details are the rejecting collaborator's own reply body |
| OrderService.OrderOnlyAfterAllThree | microservices-lab/order-service/server.js:59-69 | an order is appended, and the counter advanced, exactly when user, inventory and payment all pass |
| OrderService.DeclinedPaymentKeepsReservation | microservices-lab/order-service/server.js:47-57 | a declined payment after a reservation answers 400 and keeps the stock reserved; orders, payments and notifications are unchanged (no compensation) |
| OrderService.SuccessfulOrder | microservices-lab/order-service/server.js:47-81 | a fully passing request answers 201 with the appended order (request fields, next id, 'confirmed', created `now`) and the order counter advances; the matched product loses the ordered quantity and nothing else in the table changes; exactly one completed payment for the request's user and amount, with transaction id `txn_<now>` and time `now`, is appended under the next payment id and the payment counter advances by one; the earlier notifications are kept and exactly one, "Order <id> confirmed" of type order_confirmation for the user, status 'sent' at `now`, is appended under the next notification id, the notification counter advancing by one |
| OrderService.NotificationFailureKeepsOrder | microservices-lab/order-service/server.js:69-91 | when the notification call fails, the reply is 400 although the order was already appended |
| OrderService.FulfilKeepsWorldValid | microservices-lab/order-service/server.js:25-69 | every request keeps all four services' invariants (stock non-negative, ledger, log, orders numbered 1, 2, 3, … and confirmed) |
| OrderService.FirstSeedOrder | microservices-lab/order-service/server.js:35-81 | from the initial state, 3 laptops for user 1 with everything up become order 1 and leave 7 laptops |
| OrderService.OrderDesk.constructor | microservices-lab/order-service/server.js:25-26 | no orders, counter 1, order invariant holds |
| OrderService.OrderDesk.CreateOrder | microservices-lab/order-service/server.js:35-94 | calling the collaborator objects' own handlers in order gives exactly the reply, calls and state of `Fulfil` on the old state of all four services |
| OrderService.OrderDesk.ListOrders | microservices-lab/order-service/server.js:97-99 | the listing is the orders with a count equal to their number |
| FrontendService.LabelRun | microservices-lab/frontend-service/server.js:103 | the `[^}]+` run: the longest '}'-free prefix, stopped by a '}' when shorter than the text |
| FrontendService.SpaceRun | microservices-lab/frontend-service/server.js:103 | the `\s+` run: the longest whitespace prefix |
| FrontendService.MatchAt | microservices-lab/frontend-service/server.js:103 | a match starting here begins with `http_requests_total{` and is longer than the prefix plus brace, space and digit |
| FrontendService.MatchAfterPrefix | microservices-lab/frontend-service/server.js:103 | the rest of a match is at least four characters long |
| FrontendService.Matches | microservices-lab/frontend-service/server.js:103 | every global match starts with the counter prefix |
| FrontendService.NoPrefixNoMatch | microservices-lab/frontend-service/server.js:103-107 | text without the counter prefix has no match and a total of 0 |
| FrontendService.EmptyLabelsNotCounted | microservices-lab/frontend-service/server.js:103 | a counter line with an empty `{}` label block is not matched |
| FrontendService.MatchAtSampleLine | microservices-lab/frontend-service/server.js:103 | a printed counter sample followed by a newline is matched exactly, up to the newline |
| FrontendService.ValueOfSampleLine | microservices-lab/frontend-service/server.js:105 | `parseInt` of the text after the last space of a sample line is the sample's value |
| FrontendService.MatchesOfRender | microservices-lab/frontend-service/server.js:103 | the matches of an exposition text are its sample lines, in order |
| FrontendService.TotalOfRender | microservices-lab/frontend-service/server.js:103-107 | for exposition text as the client library prints it, `totalRequests` is the sum of all counter values |
| FrontendService.TotalRequests | microservices-lab/frontend-service/server.js:103-107 | `totalRequests` of a metrics text: the `reduce` over its global matches; `TotalOfRender` proves it is the sum of the counter values, `SpacelessMatchMakesTotalNaN` that a match without a space makes it NaN |
| FrontendService.SpacelessMatchMakesTotalNaN | microservices-lab/frontend-service/server.js:104-107 | a match without a space is parsed whole, gives `NaN`, and makes the whole total `NaN` |
| FrontendService.SumOfReadings | microservices-lab/frontend-service/server.js:104-107 | when every reading is a number, the `reduce` total is the sum of the sample values |
| FrontendService.SumValues | microservices-lab/frontend-service/server.js:104-107 | the `reduce` adding `parseInt(m.split(' ').pop())` of each match from 0, NaN absorbing; `SumOfReadings` and `NaNAbsorbs` state its value |
| FrontendService.NaNAbsorbs | microservices-lab/frontend-service/server.js:104-107 | one `NaN` reading makes the sum `NaN` |
| FrontendService.AggregateHealth | microservices-lab/frontend-service/server.js:75-91 | one entry per configured service in table order; an entry is healthy iff its `/health` fetch succeeded |
| FrontendService.AggregateMetrics | microservices-lab/frontend-service/server.js:94-123 | one entry per configured service in table order; measured iff its `/metrics` fetch succeeded, then with the page length and its request total |
| FrontendService.Proxy | microservices-lab/frontend-service/server.js:126-155 | both order proxies: 200 with the body passed through iff the order service answered 2xx; otherwise 500 with the proxy's error text ("Order creation failed" with `success: false`, or "Failed to fetch orders") and axios's message |
| FrontendService.ProxyOrder | microservices-lab/frontend-service/server.js:126-145 | `POST /api/orders` is `Proxy` with `success: false` and "Order creation failed"; `ProxyOfFulfil` states its end-to-end outcome |
| FrontendService.ProxyListOrders | microservices-lab/frontend-service/server.js:147-155 | `GET /api/orders` is `Proxy` with no flag and "Failed to fetch orders" |
| FrontendService.ProxyOfFulfil | microservices-lab/frontend-service/server.js:126-145 | end to end, the dashboard answers 200 iff the order service created an order; every business rejection becomes 500 "Request failed with status code 400" |
| SocialDb.FindByEmail | x_clone/app/api/follow/route.ts:16-18 | the position found holds the first user with that email; None exactly when nobody has it |
| SocialDb.FindById | microservices-lab/xclone-service/app/api/posts/route.ts:10-16 | the position found holds a user with that id and no earlier user has it; None exactly when nobody has it |
| SocialDb.Followers | microservices-lab/xclone-service/app/api/user/stats/route.ts:27-33 | the users counted are exactly those whose `followingIds` holds the id |
| SocialDb.FollowerCountBounds | microservices-lab/xclone-service/app/api/user/stats/route.ts:27-33 | the count is 0 iff nobody follows the id, and the table size iff everybody does |
| SocialDb.FollowerCount | microservices-lab/xclone-service/app/api/user/stats/route.ts:27-33 | never more than the table size, and positive as soon as one user follows the id |
| SocialDb.FollowerCountAfterRowUpdate | x_clone/app/api/follow/route.ts:29-58 | replacing one user row moves a follower count only by what that row stops or starts contributing |
| FollowRoute.Without | x_clone/app/api/follow/route.ts:33 | the result is `filter(id => id !== followingId)` of the list: the ids other than the removed one, in their order |
| FollowRoute.Surviving | x_clone/app/api/follow/route.ts:39-46 | the rows left are the order-preserving filter of the table by "not (the followed user's and containing the text)" |
| FollowRoute.SurvivingMembers | x_clone/app/api/follow/route.ts:39-46 | exactly the followed user's notifications whose body contains the follow text are deleted |
| FollowRoute.Toggle | x_clone/app/api/follow/route.ts:6-80 | the status is 200, 401 or 404; a non-200 reply changes nothing; posts and comments are never touched and no user row is added |
| FollowRoute.ToggleOutcomes | x_clone/app/api/follow/route.ts:25-75 | only the signed-in user's row changes. Unfollow sets the list to its filter without the id and the notification table to its filter without the matching rows, order kept. Follow appends the id and exactly one notification for the followed user, starting with the follow text |
| FollowRoute.WithoutAbsent | x_clone/app/api/follow/route.ts:33 | filtering out an id that is not in the list leaves the list unchanged |
| FollowRoute.SurvivingUnmatched | x_clone/app/api/follow/route.ts:39-46 | when no notification of the target contains the text, the delete removes nothing |
| FollowRoute.FollowThenUnfollowRestores | x_clone/app/api/follow/route.ts:25-75 | following then unfollowing an id not followed before restores the database, except that one generated id is used up |
| FollowRoute.UnfollowDeletesExtendedHandles | x_clone/app/api/follow/route.ts:43 | unfollowing as "h" also deletes the target's notification from a follower whose handle extends "h" |
| FollowRoute.HandlePost | x_clone/app/api/follow/route.ts:6-76 | the reply and the database after the handler are those of `Toggle` on the old database |
| UserStats.Stats | microservices-lab/xclone-service/app/api/user/stats/route.ts:5-38 | a missing or empty email gives 400 "Email required"; 404 iff no user has the email; 200 exactly with counts |
| UserStats.StatsOfKnownUser | microservices-lab/xclone-service/app/api/user/stats/route.ts:14-38 | `following` is the length of the user's own list; `followers` counts the users whose list holds the user's id, the user included after a self-follow |
| UserStats.FollowRaisesCounts | microservices-lab/xclone-service/app/api/user/stats/route.ts:27-38 | a successful follow through the toggle route raises the followed user's followers and the follower's following by one each |
| UsersRoute.FindMatching | x_clone/app/api/users/route.ts:15-23 | the lookup finds the first user matching username, email, or `<query>@` email prefix; None exactly when none matches |
| UsersRoute.Annotated | x_clone/app/api/users/route.ts:56-75 | the listing is a permutation of the users, newest first, each marked iff the signed-in user follows it |
| UsersRoute.Get | x_clone/app/api/users/route.ts:6-77 | a query always answers 200 with a lookup; without a query and without a session, 401 "Unauthorized"; a listing has one entry per user |
| UsersRoute.LookupIgnoresSession | x_clone/app/api/users/route.ts:13-42 | the lookup reply does not depend on the session |
| UsersRoute.LookupOutcome | x_clone/app/api/users/route.ts:15-41 | the body is null iff no user matches; a found user matches the query and carries the number of its followers |
| UsersRoute.LocalPartFindsUser | x_clone/app/api/users/route.ts:20 | an email's local part finds its user |
| UsersRoute.ListingMarks | x_clone/app/api/users/route.ts:52-75 | each listed user is marked iff the signed-in user's list holds its id; with no record for the session email nobody is marked |
| PostsRoute.CommentsOf | microservices-lab/xclone-service/app/api/posts/route.ts:18-32 | exactly the comments of the post, a sub-multiset of the table |
| PostsRoute.ViewOf | microservices-lab/xclone-service/app/api/posts/route.ts:9-32 | a post's view carries exactly its own comments, newest first, and as author a stored user with the post's userId, absent exactly when no user has that id |
| PostsRoute.Views | microservices-lab/xclone-service/app/api/posts/route.ts:8-37 | one view per row, in the given order |
| PostsRoute.Get | microservices-lab/xclone-service/app/api/posts/route.ts:6-43 | 200 with every post once (a permutation), newest first, each with its author (a stored user with the post's userId, absent exactly when there is none) and exactly its own comments, newest first |
| PostsRoute.Create | microservices-lab/xclone-service/app/api/posts/route.ts:45-88 | no session: 500 "Internal Error"; empty body: 400 "Body is required"; any non-200 reply changes nothing; users, comments and notifications are never touched |
| PostsRoute.CreateOutcome | microservices-lab/xclone-service/app/api/posts/route.ts:59-84 | an unknown user gives 404 and no change; otherwise exactly one post is appended with the body, the user's id and a fresh id, keeping ids below the supply |
| PostsRoute.FindPost | microservices-lab/xclone-service/app/api/posts/route.ts:104-106 | the position found holds a post with that id and no earlier post has it; None exactly when none has it |
| PostsRoute.Delete | microservices-lab/xclone-service/app/api/posts/route.ts:90-120 | no session: 500; no id: 400 "Post ID is required"; a non-200 reply changes nothing; only posts can change |
| PostsRoute.DeleteOutcome | microservices-lab/xclone-service/app/api/posts/route.ts:100-116 | 200 iff the post exists and its author is the signed-in user, otherwise 401 and no change; on success exactly that post is removed and, with unique ids, no post with that id remains |
| PostsRoute.HandlePost | microservices-lab/xclone-service/app/api/posts/route.ts:45-88 | the reply and the database after the handler are those of `Create` |
| PostsRoute.HandleDelete | microservices-lab/xclone-service/app/api/posts/route.ts:90-120 | the reply and the database after the handler are those of `Delete` |
| Ordering.SortDesc | microservices-lab/xclone-service/app/api/posts/route.ts:34-36 | `orderBy: { createdAt: 'desc' }`: the rows newest first, as a permutation |
| Ordering.InsertDesc | microservices-lab/xclone-service/app/api/posts/route.ts:34-36 | inserting into a newest-first list keeps it newest first and adds exactly the one row |
| RegisterRoute.Taken | microservices-lab/xclone-service/app/api/auth/register/route.ts:28-35 | some user already has the email or the username |
| RegisterRoute.Register | microservices-lab/xclone-service/app/api/auth/register/route.ts:6-56 | the status is 200 or 400; a 400 changes nothing; posts, comments and notifications are never touched |
| RegisterRoute.FirstFailure | microservices-lab/xclone-service/app/api/auth/register/route.ts:11-39 | the message reported is that of the first failing rule, and None iff every rule passes |
| RegisterRoute.RegisterFollowsChecks | microservices-lab/xclone-service/app/api/auth/register/route.ts:11-52 | the first failing rule decides the 400 message; a request failing none creates exactly one user with its fields, the hashed password, no follows and a fresh id |
| RegisterRoute.EmptyFieldWins | microservices-lab/xclone-service/app/api/auth/register/route.ts:11-13 | any empty field is reported as "All fields are required" |
| RegisterRoute.ValidatorsPassRouteChecks | microservices-lab/xclone-service/app/api/auth/register/route.ts:15-25 | an email, password and username accepted by the client validators pass the route's format and length rules |
| RegisterRoute.RegisterKeepsAccountsUnique | microservices-lab/xclone-service/app/api/auth/register/route.ts:28-50 | registration keeps emails and usernames unique |
| RegisterRoute.HandlePost | microservices-lab/xclone-service/app/api/auth/register/route.ts:6-56 | the reply and the database after the handler are those of `Register` |
| Validation.LengthValidatorsMonotone | x_clone/lib/validation.ts:7-13 | extending an accepted password or username keeps it accepted |
| Validation.ValidatePassword | x_clone/lib/validation.ts:7-9 | accepts exactly the passwords of at least six characters; `LengthValidatorsMonotone` proves that extending one keeps it accepted |
| Validation.ValidateUsername | x_clone/lib/validation.ts:11-13 | accepts exactly the usernames of at least three characters; `LengthValidatorsMonotone` proves that extending one keeps it accepted |
| Validation.ValidateEmail | x_clone/lib/validation.ts:3-5 | `EMAIL_REGEX.test(email)` read as one '@' after a non-empty local part, no whitespace, and a domain with an inner '.'; `EmailPatternAgrees` proves it accepts exactly what the regular expression matches |
| Validation.ValidateRequiredFields | x_clone/lib/validation.ts:15-17 | true iff every field holds a non-whitespace character |
| Validation.FirstIndex | x_clone/lib/validation.ts:3-5 | the first position of '@' (or of any character), or the length when it is absent |
| Validation.EmailPatternAgrees | x_clone/lib/constants.ts:13 | `validateEmail` accepts exactly the strings `^[^\s@]+@[^\s@]+\.[^\s@]+$` matches |
| Validation.ValidMatchesPattern | x_clone/lib/constants.ts:13 | every address `validateEmail` accepts splits as local part, '@', domain name, '.', top-level part with no whitespace or '@' in any part |
| Validation.PatternIsValid | x_clone/lib/constants.ts:13 | conversely, any such split is accepted |
| Validation.ValidEmailHasAt | x_clone/lib/validation.ts:3-5 | every accepted address contains '@' |
| ApiUtils.AuthenticatedUser | x_clone/lib/apiUtils.ts:6-22 | throws "Authentication required" without a session email, "User not found" iff no user has it, and otherwise returns that user |
| ApiUtils.CreateErrorResponse | x_clone/lib/apiUtils.ts:24-26 | the status defaults to 500; the body is exactly `{ error: message }` |
| ApiUtils.CreateSuccessResponse | x_clone/lib/apiUtils.ts:28-30 | 200 with the data's fields plus `success`, which is true unless the data sets it |
| ApiUtils.HandleApiRequest | x_clone/lib/apiUtils.ts:32-51 | a returned value is passed with 200; a thrown error gives 401 iff "Authentication required", 404 iff "User not found", and otherwise 500 "Internal server error" |
| ApiUtils.OtherErrorsHidden | x_clone/lib/apiUtils.ts:49 | an unexpected error's message never reaches the client |
| ApiUtils.AuthenticatedHandlerStatus | x_clone/lib/apiUtils.ts:6-51 | a handler starting with the signed-in user lookup answers 401 iff no session email, 404 iff no record for it, 200 otherwise |
| SyncToDb.Batch | x_clone/app/api/posts/sync-to-db/route.ts:12 | at most the first ten posts, exactly ten when there are that many |
| SyncToDb.UpsertAuthor | x_clone/app/api/posts/sync-to-db/route.ts:20-29 | the author has the `user<id>@dummy.com` email and is in the table; an existing row with that email is returned and nothing changes; otherwise one row named `User <id>`, following nobody, is appended under a fresh id; posts are untouched |
| SyncToDb.Step | x_clone/app/api/posts/sync-to-db/route.ts:14-41 | a stored body is skipped with no change; otherwise the earlier users are kept and exactly one post is appended with the body, the time `now - id·1h`, no likes, and as author a user whose email is `user<userId>@dummy.com` |
| SyncToDb.Run | x_clone/app/api/posts/sync-to-db/route.ts:12-43 | the loop appends exactly `syncedCount` posts, never more than it reads, and keeps the earlier ones |
| SyncToDb.Sync | x_clone/app/api/posts/sync-to-db/route.ts:4-53 | a failed fetch answers 500 with its message and changes nothing; a fetched payload answers 200 "Synced N posts…" where the new store and N are those of the loop `Run` over the first ten posts; success reports at most ten posts and exactly as many new rows |
| SyncToDb.RunCreatesDistinctBodies | x_clone/app/api/posts/sync-to-db/route.ts:14-18 | the created rows have pairwise distinct bodies, none stored before: a body repeated within the batch is created once |
| SyncToDb.RunStoresEveryBody | x_clone/app/api/posts/sync-to-db/route.ts:14-39 | after the run every body of the batch is stored |
| SyncToDb.SyncOutcome | x_clone/app/api/posts/sync-to-db/route.ts:12-47 | a fetched payload answers 200 "Synced N posts…" with N the rows created; afterwards every body of the first ten posts is stored, the created rows have distinct bodies none stored before, and the earlier rows are kept |
| SyncToDb.HandlePost | x_clone/app/api/posts/sync-to-db/route.ts:4-53 | the loop leaves the reply and the database of `Sync` on the old database |
| SyncToDb.ImportOne | x_clone/app/api/posts/sync-to-db/route.ts:14-41 | one iteration against the database does what `Step` says |
| SyncToDb.ImportNext | x_clone/app/api/posts/sync-to-db/route.ts:14-41 | one pass of the loop moves the database and `syncedCount` from the run over the first `i` posts to the run over the first `i + 1` |
| SyncToDb.RunStep | x_clone/app/api/posts/sync-to-db/route.ts:14-41 | the run over one more post is the run so far followed by that post's step, with `syncedCount` growing by one exactly when the step created a post |
| SyncDummy.DummyPosts | x_clone/app/api/posts/sync-dummy/route.ts:16-22 | exactly the posts whose id starts with `dummy_` |
| SyncDummy.DummyId | x_clone/app/api/posts/sync-dummy/route.ts:45 | the id `dummy_<n>` always starts with `dummy_`, so a created post is found by the next `startsWith` query |
| SyncDummy.IdSet | x_clone/app/api/posts/sync-dummy/route.ts:24 | exactly the ids of the given posts |
| SyncDummy.UpsertOne | x_clone/app/api/posts/sync-dummy/route.ts:30-40 | the dummy user records the API id and the `<username>@dummy.com` email and is in the table; existing rows are kept |
| SyncDummy.UpsertAll | x_clone/app/api/posts/sync-dummy/route.ts:28-41 | one dummy user per API user; existing rows and posts are kept |
| SyncDummy.UpsertAllRecordsEveryUser | x_clone/app/api/posts/sync-dummy/route.ts:28-41 | the k-th dummy user records the k-th API user's id and email |
| SyncDummy.FindOriginal | x_clone/app/api/posts/sync-dummy/route.ts:48 | `find` by original id: the first dummy user whose original id is the post's user id; None exactly when none has it |
| SyncDummy.AuthorOf | x_clone/app/api/posts/sync-dummy/route.ts:48-54 | the author is the first dummy user with the post's original id when one exists, else the first dummy user; None (a throw) iff there are none |
| SyncDummy.FreshPosts | x_clone/app/api/posts/sync-dummy/route.ts:44-47 | the posts to create are drawn from the payload |
| SyncDummy.FreshPostsMembers | x_clone/app/api/posts/sync-dummy/route.ts:44-47 | the posts to create are exactly those whose `dummy_` id was not already taken |
| SyncDummy.ImportedPosts | x_clone/app/api/posts/sync-dummy/route.ts:50-59 | one row per post to create, carrying its `dummy_` id |
| SyncDummy.Imported | x_clone/app/api/posts/sync-dummy/route.ts:50-59 | the row created for the k-th new post: its `dummy_` id, body, author, time `now - k·30min` and likes; `ImportedPosts` and `SyncOutcome` state its fields per row |
| SyncDummy.FirstRepeat | x_clone/app/api/posts/sync-dummy/route.ts:45-59 | the longest prefix of the posts to create with pairwise distinct `dummy_` ids; when shorter than the list, the next post repeats an id of the prefix |
| SyncDummy.FirstRepeatUnique | x_clone/app/api/posts/sync-dummy/route.ts:45-59 | that position is the only one with both properties |
| SyncDummy.ImportPosts | x_clone/app/api/posts/sync-dummy/route.ts:44-69 | users are untouched and earlier posts kept as a prefix |
| SyncDummy.ImportOutcome | x_clone/app/api/posts/sync-dummy/route.ts:44-69 | with a dummy user, the posts before the first repeated id are created; 200 with their number iff there is no repeat, else 500 |
| SyncDummy.Sync | x_clone/app/api/posts/sync-dummy/route.ts:5-73 | existing posts and users are always kept as a prefix |
| SyncDummy.SyncOutcome | x_clone/app/api/posts/sync-dummy/route.ts:24-71 | the posts to create up to the first repeated id are created, each the import of a new post in payload order (id, body, author, time `now - k·30min`, likes); the reply is 200 iff there is no repeat, then with `newPosts` equal to the rows created and `totalExisting` the number of `dummy_` posts before; otherwise 500 |
| SyncDummy.ImportedTimesDecrease | x_clone/app/api/posts/sync-dummy/route.ts:55 | creation times fall strictly, half an hour per created post |
| SyncDummy.NoCollisionWithExisting | x_clone/app/api/posts/sync-dummy/route.ts:47 | no created row takes the id of a `dummy_` post present before the run |
| SyncDummy.FreshFilterKeepsRepeats | x_clone/app/api/posts/sync-dummy/route.ts:24-47 | the id set is taken once before the loop, so a new id repeated in one payload passes the filter both times |
| SyncDummy.RepeatedIdFails | x_clone/app/api/posts/sync-dummy/route.ts:44-71 | a payload that repeats a new id creates it once and then answers 500, keeping that row |
| SyncDummy.SyncKeepsPostIdsUnique | x_clone/app/api/posts/sync-dummy/route.ts:44-63 | a post table with unique ids keeps them unique after any run |
| SyncDummy.NoUsersNoPosts | x_clone/app/api/posts/sync-dummy/route.ts:54 | with no dummy users and a post to create, the fallback throws: 500 and nothing changes |
| SyncDummy.HandlePost | x_clone/app/api/posts/sync-dummy/route.ts:5-73 | the two loops leave the reply and database of `Sync` on the old database |
| SyncDummy.UpsertUsers | x_clone/app/api/posts/sync-dummy/route.ts:28-41 | the user loop does what `UpsertAll` says |
| SyncDummy.UpsertUser | x_clone/app/api/posts/sync-dummy/route.ts:30-40 | one upsert does what `UpsertOne` says |
| SyncDummy.CreatePosts | x_clone/app/api/posts/sync-dummy/route.ts:44-63 | the post loop fails iff there is a post to create and no dummy user, or a post to create repeats an id created earlier in the loop; it appends the imported rows up to that point and, when it does not fail, counts them all |
| DummyPosts.UserLookup | microservices-lab/xclone-service/app/api/posts/dummy/route.ts:14-17 | the table has an entry for exactly the ids some user carries |
| DummyPosts.UserLookupKeepsLast | microservices-lab/xclone-service/app/api/posts/dummy/route.ts:14-17 | the entry for an id is the last user carrying it |
| DummyPosts.Get | microservices-lab/xclone-service/app/api/posts/dummy/route.ts:3-48 | a failed fetch gives `[]`; otherwise one entry per post in order, with its body, time `now - id·1h`, likes, no comments, marked dummy, no image |
| DummyPosts.Format | microservices-lab/xclone-service/app/api/posts/dummy/route.ts:20-41 | one feed entry of the `map`; `Get` states its fields and `EntryIdsDistinct` that entries of distinct posts have distinct ids |
| DummyPosts.AuthorOf | microservices-lab/xclone-service/app/api/posts/dummy/route.ts:27-32 | the author block from the lookup table or the `User <id>` fallback; `AuthorFollowsUsers` and `AuthorFromLastMatchingUser` state it |
| DummyPosts.AuthorFollowsUsers | microservices-lab/xclone-service/app/api/posts/dummy/route.ts:21-30 | the author id is exactly `dummy_user_` followed by the decimal text of the post's userId, which reads back as that id; with no matching sample user the name is `User <id>` and the username `user<id>` |
| DummyPosts.AuthorFromLastMatchingUser | microservices-lab/xclone-service/app/api/posts/dummy/route.ts:21-30 | with matching sample users, the author's name and username are the last such user's |
| DummyPosts.EntryIdReadsBack | microservices-lab/xclone-service/app/api/posts/dummy/route.ts:23 | the entry id is `dummy_` followed by text that parses back to the API id |
| DummyPosts.EntryIdsDistinct | microservices-lab/xclone-service/app/api/posts/dummy/route.ts:23 | posts with different API ids get different entry ids |
| UploadRoute.UploadDir | x_clone/app/api/upload/route.ts:30 | 'profiles' exactly for the type 'profile', 'covers' otherwise |
| UploadRoute.Upload | x_clone/app/api/upload/route.ts:6-42 | no session: 401; the reply is 200 exactly when a file was written; the status is 200, 400, 401 or 500 |
| UploadRoute.ExtensionShape | x_clone/app/api/upload/route.ts:26 | the extension holds no '.', and is the whole name when the name has none |
| UploadRoute.Extension | x_clone/app/api/upload/route.ts:26 | `file.name.split('.').pop()`; `ExtensionShape` proves it holds no '.' and is the whole name when the name has none |
| UploadRoute.FileName | x_clone/app/api/upload/route.ts:25-27 | `${timestamp}.${extension}`; `StoredNameKeepsExtension` proves it reads back the uploaded name's extension |
| UploadRoute.StoredNameKeepsExtension | x_clone/app/api/upload/route.ts:25-27 | the stored name is the timestamp, a '.', and the uploaded name's own extension |
| UploadRoute.UrlMatchesWrittenFile | x_clone/app/api/upload/route.ts:30-37 | the URL is the written path without `public`, under the directory the type chose |
| UploadRoute.FailedWriteReportsUploadFailed | x_clone/app/api/upload/route.ts:33-41 | a failed write answers 500 "Upload failed" and leaves no file |
| ModalStore.Apply | microservices-lab/xclone-service/hooks/useModal.ts:16-27 | every action leaves at most one modal open; opening one closes the other; closing touches only its own flag; toggling swaps an open modal and otherwise does nothing |
| ModalStore.NeverBothReachable | microservices-lab/xclone-service/hooks/useModal.ts:13-27 | from the initial state no sequence of actions opens both modals |
| ModalStore.Run | microservices-lab/xclone-service/hooks/useModal.ts:13-27 | the store's flags after a sequence of actions; `NeverBothReachable` proves no sequence opens both modals |
| ModalStore.ToggleTwiceRestores | microservices-lab/xclone-service/hooks/useModal.ts:20-27 | toggling twice with one modal open comes back |
| ModalStore.Store.constructor | microservices-lab/xclone-service/hooks/useModal.ts:14-15 | both modals start closed |
| ModalStore.Store.OpenLogin | microservices-lab/xclone-service/hooks/useModal.ts:16 | the flags become those `Apply` gives for OpenLogin |
| ModalStore.Store.CloseLogin | microservices-lab/xclone-service/hooks/useModal.ts:17 | the flags become those `Apply` gives for CloseLogin |
| ModalStore.Store.OpenRegister | microservices-lab/xclone-service/hooks/useModal.ts:18 | the flags become those `Apply` gives for OpenRegister |
| ModalStore.Store.CloseRegister | microservices-lab/xclone-service/hooks/useModal.ts:19 | the flags become those `Apply` gives for CloseRegister |
| ModalStore.Store.ToggleModals | microservices-lab/xclone-service/hooks/useModal.ts:20-27 | the flags become those `Apply` gives for ToggleModals |
| UnfollowModal.Open | x_clone/hooks/useUnfollowModal.ts:16-18 | the modal is open with exactly the given id and name, whatever it held before |
| UnfollowModal.Close | x_clone/hooks/useUnfollowModal.ts:20-22 | back to the initial closed state, remembering no user |
| UnfollowModal.CloseIdempotent | x_clone/hooks/useUnfollowModal.ts:16-22 | closing twice is closing once; opening forgets the previous state |
| UnfollowModal.Modal.constructor | x_clone/hooks/useUnfollowModal.ts:10-14 | the modal starts closed |
| UnfollowModal.Modal.OpenModal | x_clone/hooks/useUnfollowModal.ts:16-18 | the state becomes `Open` of the old state |
| UnfollowModal.Modal.CloseModal | x_clone/hooks/useUnfollowModal.ts:20-22 | the state becomes `Close` of the old state |
| FollowContext.AfterFollow | x_clone/contexts/FollowContext.tsx:44-75 | nothing happens while loading or signed out; only an ok reply moves the following count, by one in its flag's direction, returns the flag and dispatches the event; the follower count never moves and loading ends cleared |
| FollowContext.AfterFetch | x_clone/contexts/FollowContext.tsx:28-41 | an ok stats reply with a session replaces both counts; anything else changes nothing |
| FollowContext.AfterFollowerEvent | x_clone/contexts/FollowContext.tsx:83-85 | the follower count moves by one in the given direction and nothing else changes |
| FollowContext.FollowThenUnfollowRestores | x_clone/contexts/FollowContext.tsx:59 | a follow answered true then false restores the counts |
| FollowContext.UnfollowAtZeroGoesNegative | x_clone/contexts/FollowContext.tsx:59 | the following count is not clamped at zero |
| FollowContext.Net | x_clone/contexts/FollowContext.tsx:59 | the net of true minus false answers lies between minus and plus the number of answers |
| FollowContext.FollowAllMovesByNet | x_clone/contexts/FollowContext.tsx:44-75 | any sequence of follow calls clears loading, keeps the follower count, and moves the following count by the net |
| FollowContext.FollowAll | x_clone/contexts/FollowContext.tsx:44-75 | `performFollow` called once per answer in order; `FollowAllMovesByNet` proves the counts move by the net |
| FollowContext.Provider.constructor | x_clone/contexts/FollowContext.tsx:23-25 | both counts 0, not loading |
| FollowContext.Provider.PerformFollow | x_clone/contexts/FollowContext.tsx:44-75 | state, result and event are those of `AfterFollow` |
| FollowContext.Provider.FetchFollowCounts | x_clone/contexts/FollowContext.tsx:28-41 | the state becomes `AfterFetch` of the old state |
| FollowContext.Provider.UpdateFollowerCount | x_clone/contexts/FollowContext.tsx:83-85 | the state becomes `AfterFollowerEvent` of the old state |
| LoginModal.Submit | x_clone/components/model/LoginModal.tsx:21-53 | an empty field, then a missing '@', are reported without calling sign-in; sign-in is called iff both checks pass; the modal closes iff sign-in neither threw nor returned an error, and exactly then the toast is the success one |
| LoginModal.OutcomeIgnoredBeforeSignIn | x_clone/components/model/LoginModal.tsx:26-34 | before sign-in is called its answer does not matter |
| LoginModal.Form.constructor | x_clone/components/model/LoginModal.tsx:12-14 | empty fields, not loading |
| LoginModal.Form.OnSubmit | x_clone/components/model/LoginModal.tsx:21-53 | toast and sign-in call as `Submit` says; the login modal is closed exactly when `Submit` closes it; loading ends cleared |
| LoginModal.Form.OnToggle | x_clone/components/model/LoginModal.tsx:16-19 | while loading nothing changes; otherwise the modals toggle |
| Avatar.CodeSum | x_clone/components/ui/Avatar.tsx:36 | the sum of character codes is at least the first character's code |
| Avatar.CodeSumAppend | x_clone/components/ui/Avatar.tsx:36 | the sum is accumulated from the left as the `reduce` does: appending a character adds exactly its code |
| Avatar.ColorFromId | x_clone/components/ui/Avatar.tsx:34-38 | grey exactly for the empty id; otherwise the table colour at the code sum modulo ten |
| Avatar.CodeSumRemove | x_clone/components/ui/Avatar.tsx:36 | taking one character out of an id takes exactly its code out of the sum |
| Avatar.CodeSumPermutation | x_clone/components/ui/Avatar.tsx:36 | ids with the same characters in any order have the same code sum |
| Avatar.PermutedIdsShareColor | x_clone/components/ui/Avatar.tsx:34-38 | permuted ids get the same colour |
| Avatar.SizeClass | x_clone/components/ui/Avatar.tsx:12-19 | a listed size gets its class; any other or absent size gets "w-10 h-10" |
| Avatar.Background | x_clone/components/ui/Avatar.tsx:49 | the colour comes from the user id when there is one, else from the alt text |
| Avatar.FallbackText | x_clone/components/ui/Avatar.tsx:63 | the upper-cased fallback text when it is non-empty, else the upper-cased first character of alt, else "U"; never empty and free of lower-case ASCII |
| ProfileCard.Wrap32 | x_clone/components/profile/ProfileCard.tsx:39 | ECMAScript ToInt32: a signed 32-bit value congruent to its input |
| ProfileCard.ShiftLeft5IsWrappedProduct | x_clone/components/profile/ProfileCard.tsx:39 | `h << 5` is the 32-bit wrap of 32·h |
| ProfileCard.HashBound | x_clone/components/profile/ProfileCard.tsx:37-40 | the hash grows at most linearly with the id length, staying in JavaScript's exact-integer range for realistic ids |
| ProfileCard.Hash | x_clone/components/profile/ProfileCard.tsx:37-40 | the hash after the loop has read the whole id; `RandomColor` proves the loop computes it and `HashBound` bounds it |
| ProfileCard.RandomColor | x_clone/components/profile/ProfileCard.tsx:32-42 | the loop computes the hash of the whole id, and the colour is the table entry at its magnitude modulo eight |
| ProfileCard.EmptyIdIsRed | x_clone/components/profile/ProfileCard.tsx:37-41 | the empty id is red |
| ProfileCard.ShowsFollowButton | x_clone/components/profile/ProfileCard.tsx:30-70 | the button is hidden exactly on the signed-in user's own card |
| ProfileCard.HandleFollow | x_clone/components/profile/ProfileCard.tsx:44-50 | a followed user opens the unfollow modal about them and calls nothing; otherwise `onFollow(user.id)` is called and the modal is left alone |
| ProfileCard.Confirm | x_clone/components/profile/ProfileCard.tsx:88-93 | confirming calls `onFollow` with the id the modal recorded |
| NotificationsPage.FirstMention | x_clone/app/notifications/page.tsx:54 | the first position where `@\w` occurs, and no earlier one |
| NotificationsPage.WordRun | x_clone/app/notifications/page.tsx:54 | the longest run of word characters |
| NotificationsPage.RenderBody | x_clone/app/notifications/page.tsx:52-71 | the body is shown unchanged exactly when it holds no mention |
| NotificationsPage.RenderReconstructs | x_clone/app/notifications/page.tsx:54-66 | before + "@" + username + after is the body; the mention is the first, its username the longest non-empty word run |
| NotificationsPage.FormatDateBuckets | x_clone/app/notifications/page.tsx:73-92 | under an hour "now"; whole hours under a day; whole days under a week; whole weeks under four; then month and year |
| NotificationsPage.FormatDate | x_clone/app/notifications/page.tsx:73-92 | `formatDate` with floor divisions; `FormatDateBuckets` proves its four buckets |
| NotificationsPage.Page.constructor | x_clone/app/notifications/page.tsx:23-24 | empty list, loading, the stored last-seen entry |
| NotificationsPage.Page.FetchNotifications | x_clone/app/notifications/page.tsx:26-50 | an ok answer replaces the list and, when non-empty, records `now` as last seen; loading is cleared on every path |
| WhoToFollow.Candidates | microservices-lab/xclone-service/components/profile/WhoToFollow.tsx:67-69 | exactly the users who are neither the signed-in user nor already followed |
| WhoToFollow.SliceEnd | microservices-lab/xclone-service/components/profile/WhoToFollow.tsx:71 | `slice`'s end index: clamped to the length, counted from the back when negative |
| WhoToFollow.Shown | microservices-lab/xclone-service/components/profile/WhoToFollow.tsx:71 | a prefix of the candidates, of length `limit` capped by their number |
| WhoToFollow.ShowsMoreLink | microservices-lab/xclone-service/components/profile/WhoToFollow.tsx:127 | the link shows iff enabled and the total exceeds the limit |
| WhoToFollow.MoreLinkIffHidden | microservices-lab/xclone-service/components/profile/WhoToFollow.tsx:67-71 | with a non-negative limit the link shows iff some candidate is not shown |
| WhoToFollow.MarkFollowing | microservices-lab/xclone-service/components/profile/WhoToFollow.tsx:52-56 | matching entries take the new flag; every other field and entry is kept |
| WhoToFollow.FollowedUserStaysUntilRefetch | microservices-lab/xclone-service/components/profile/WhoToFollow.tsx:52-69 | a user followed through the event stays listed, marked followed, and is no longer one the filter would suggest |
| WhoToFollow.MarkTwiceRestores | microservices-lab/xclone-service/components/profile/WhoToFollow.tsx:52-56 | following then unfollowing a suggested user restores the list |
| WhoToFollow.Widget.constructor | microservices-lab/xclone-service/components/profile/WhoToFollow.tsx:45-47 | no users, total 0, loading |
| WhoToFollow.Widget.FetchUsers | microservices-lab/xclone-service/components/profile/WhoToFollow.tsx:63-82 | without a session nothing changes; with one, a successful fetch sets the total to the number of candidates and the list to the shown prefix; a failed fetch keeps both; loading is cleared |
| WhoToFollow.Widget.OnFollowStateChanged | microservices-lab/xclone-service/components/profile/WhoToFollow.tsx:52-56 | the list becomes `MarkFollowing` of the old list |
| UserUtils.FetchUserByUsername | microservices-lab/xclone-service/lib/userUtils.ts:12-16 | throws "Failed to fetch user" iff the reply is not ok, otherwise returns its JSON |
| UserUtils.FetchAllUsers | microservices-lab/xclone-service/lib/userUtils.ts:18-22 | throws "Failed to fetch users" iff the reply is not ok, otherwise returns the users |
| UserUtils.FetchUsersByIds | microservices-lab/xclone-service/lib/userUtils.ts:24-28 | no ids answers `[]` without fetching; otherwise the users whose id is listed, or the fetch error |
| UserUtils.FetchUsersByIdsUsesIdSet | microservices-lab/xclone-service/lib/userUtils.ts:24-28 | only the set of requested ids matters |
| UserUtils.FetchUsersByIdsKeepsOrder | microservices-lab/xclone-service/lib/userUtils.ts:27 | the selection keeps the order of all users |
| FollowListPage.Ids | x_clone/components/profile/FollowListPage.tsx:56 | the ids of the users, in order |
| FollowListPage.ListIds | x_clone/components/profile/FollowListPage.tsx:46-57 | the following tab lists the profile's own ids; the followers tab exactly the ids of users whose list holds the profile's id |
| FollowListPage.Listed | x_clone/components/profile/FollowListPage.tsx:41-66 | a missing profile or a thrown request sets nothing; with no ids the list becomes empty |
| FollowListPage.ListedUsersMatchIds | x_clone/components/profile/FollowListPage.tsx:59-61 | with ids to list, the list holds exactly the fetched users whose id is among them |
| FollowListPage.Page.constructor | x_clone/components/profile/FollowListPage.tsx:32-33 | no users, loading |
| FollowListPage.Page.FetchUsers | x_clone/components/profile/FollowListPage.tsx:40-70 | the list becomes `Listed` when the run gets that far and is kept otherwise; loading is cleared |
| ProfileHeader.HeaderCount | x_clone/components/profile/ProfileHeader.tsx:19-39 | the line is the count of the active tab's kind, a space, and its noun: likes, "photos & videos" for media, posts for every other tab |
| ProfileHeader.HeaderCountReadsBack | x_clone/components/profile/ProfileHeader.tsx:19-39 | `parseInt` of the line gives back the active tab's count, zero when the counts are absent |
| ProfileHeader.UncasedTabsShowPosts | x_clone/components/profile/ProfileHeader.tsx:31-37 | Replies, Highlights and Articles show the posts count |
| ProfileHeader.AbsentCountsReadZero | x_clone/components/profile/ProfileHeader.tsx:20-29 | without counts every tab reads zero |
| JsText.TrimEmptyIffBlank | x_clone/lib/validation.ts:16 | `trim()` is empty exactly when every character is whitespace |
| JsText.Trim | x_clone/lib/validation.ts:16 | `trim()`: never longer than its input, and neither starts nor ends with whitespace |
| JsText.AfterLast | x_clone/app/api/upload/route.ts:26 | `split(sep).pop()` is the suffix after the last separator, free of it |
| JsText.AfterLastOfAppended | x_clone/app/api/upload/route.ts:26 | the text after a final separator is read back exactly |
| JsText.ToUpperAscii | x_clone/components/ui/Avatar.tsx:63 | same length; each lower-case ASCII letter becomes its capital, every other character is kept |
| JsText.ParseIntOfNatToString | microservices-lab/notification-service/server.js:96 | `parseInt` of a decimal numeral is its value |
| JsText.ParseIntOfNatThenSpace | microservices-lab/frontend-service/server.js:105 | `parseInt` of a decimal numeral followed by a space and any text is the numeral's value |
| JsText.ParseInt | microservices-lab/notification-service/server.js:96 | `parseInt` with no radix, NaN as None; the `ParseIntOf…` lemmas state its round trips and its leading-character cases |
| JsText.ParseIntOfIntToString | microservices-lab/notification-service/server.js:96 | `parseInt` of any integer's text is that integer |
| JsText.TrimStart | x_clone/lib/validation.ts:16 | drops exactly the leading whitespace: a suffix, all dropped characters whitespace, not starting with whitespace |
| JsText.TrimEnd | x_clone/lib/validation.ts:16 | drops exactly the trailing whitespace: a prefix, all dropped characters whitespace, not ending with whitespace |
| JsText.ParseUnsignedOfNat | microservices-lab/notification-service/server.js:96 | the digit reader gives back the value of any numeral it reads |
| JsText.ParseIntOfDigitLead | microservices-lab/frontend-service/server.js:105 | text starting with a digit is read as the number of its leading digit run |
| JsText.ParseIntOfMinusLead | microservices-lab/frontend-service/server.js:105 | text starting with '-' and a digit is read as minus its digit run |
| JsText.ParseIntOfNegative | microservices-lab/frontend-service/server.js:105 | a minus sign before a numeral is read as the negated value |
| JsText.ParseIntOfLetterLead | microservices-lab/frontend-service/server.js:105 | `parseInt` of text starting with a letter is `NaN` |

## Left out

- Transport and concurrency: HTTP routing, JSON parsing, timeouts and interleaving of concurrent requests are not modelled. Each request runs alone, and the answers of other services, of `fetch` and of the sample API are inputs.
- OpenTelemetry and Prometheus setup, logging, the `/health` handlers of individual services, the static file routes, and the metrics middleware are not modelled.
- `Math.random()` in the payment service is the input `approved`; `Date.now()` and `new Date()` are the input `now`; ISO date strings are that number.
- Two source files carry stray `instrumentations: [...]` fragments inside object literals: `microservices-lab/user-service/server.js` and `microservices-lab/order-service/server.js`. As written these files do not parse. The model reads each literal without the fragment.
- bcrypt is the function parameter `hash`; its cost factor 12 is not modelled.
- The file write of the upload route is the input `writeOk`; the file contents are not modelled.
- `x_clone/lib/authUtils.ts` is not part of this model. The x_clone routes take the session email as input and keep their own 401 branch.
- The `useModal` store used by the x_clone login form is not part of this model. The microservices copy is modelled and used in its place.
- The Prisma `include`/`select` projections (author and comment-author fields) are not modelled; a post view carries the whole stored author row (`PostsRoute.ViewOf` states which row), not only the selected fields. The users listing's field selection is not modelled either.
- Prisma scalar lists are never null, so `followingIds || []` is the list itself.
- Locale formatting: the `en-GB` date in the follow notification is an input string. The month-year label of the notifications page is a tag holding the date.
- Text is a sequence of characters, not UTF-16 code units. `toUpperCase` is modelled for ASCII letters only. `\s` and `trim` use the ECMAScript white-space and line-terminator set.
- Floating point: every number is an integer. `NaN` in the metrics total is `None`.
- InventoryService.Reserve: the quantity is an integer. A missing quantity (the comparison with `undefined` is false and the stock becomes `NaN`), a numeric string coerced by `<` and `-=`, and a fractional quantity are not modelled; the order service forwards the same integer.
- ProfileCard.HashBound: the JavaScript hash runs on doubles. The model computes it on unbounded integers with an exact 32-bit shift, and proves only the linear bound that keeps ids under 2^21 characters exact.
- The sample-API importers and the dummy feed read only the fields they use. The feed's `originalData` (views, random when absent; reactions; tags) is not modelled.
- FollowListPage.Listed: the followers tab reads `/api/users` without checking `ok`. Such an answer makes `filter` throw, and the model treats it as the not-ok reply of `fetchAllUsers`. The refetch on a follow event is another run of the same fetch.
- FollowContext: the requests run one at a time, and re-entrant calls during an await are not modelled. React rendering, effects' scheduling and event listeners are not modelled.
- The error handler `handleApiError` is modelled as its default reply, 500 "Internal Error", for the paths that reach it in the modelled routes. Database failures are not modelled.
