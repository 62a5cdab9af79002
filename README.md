# clubSphere server: a verified model of its route decision logic

The clubSphere server is an Express backend over six MongoDB collections
(`users`, `clubs`, `memberships`, `events`, `eventRegistrations`, `payments`).
Its handlers are point lookups and inserts with a few guards around them. This
project models those guards and writes in Dafny, and it proves what each call
does to the tables:

- payment confirmation after checkout, for club memberships and for events:
  the "paid" guard, the idempotency check keyed on `stripePaymentIntentId`, and
  the two inserts (a payment row, then a membership or registration row);
- event registration: the missing-email, unknown-event, duplicate and
  attendee-cap guards, and the one row it appends;
- membership creation with its required fields and defaults;
- saving a user with the email check and the forced `member` role;
- the club status writers (create as `pending`, approve, two kinds of reject)
  and membership expiry;
- the dashboard joins: member stats, manager stats and the member list of a club.

Layout:

- `docs.dfy` (module `Docs`): the documents, the request bodies, the checkout
  session, and the JavaScript value rules the handlers rely on. A missing or
  null field is `None`. A string is falsy when it is missing or `""`. `x || 0`
  is `OrZero`.
- `tables.dfy` (module `Tables`): `findOne` (`FirstWhere`, scanned by
  `FindFirst`), `find` and `Array.filter` (`Filter`), `countDocuments`
  (`CountMatching`), and `reduce` sums (`SumOf`), with their lemmas.
- `routes.dfy` (module `Routes`): each state-changing handler as a function
  from the tables before the request to the reply and the tables after it.
  Guards, "exactly one row appended" and "nothing else changes" are stated in
  its `ensures`. Lemmas relate two calls: idempotence, repeats, and no terminal
  state.
- `server.dfy` (module `Server`): class `Store` holds the six tables as `seq`
  fields. Each route is a method that calls the store in the handler's order,
  and each is proved to produce exactly the reply and tables of its `Routes`
  function.
- `stats.dfy` (module `Stats`): the read-side aggregations as pure functions,
  with sum and count lemmas.

Things the model shows about the code as written:

- `POST /events` stores the event's date as `eventDate`, while the member
  overview filters and projects `date`. For events created through that
  route, the member's `upcomingEvents` is therefore always empty. The model
  follows the code and reads `date`. This is a reading of the code, and it
  was not executed.

- Event registration checks duplicates and capacity against rows whose
  `eventId` equals the request's event id. The row it inserts stores the
  event's title as `eventId` instead. When an event's title is not its id, the
  same user can register again and again, and those rows never count toward
  the cap (`RegisterRepeatsWhenTitleIsNotId`). When the title equals the id,
  the second call is refused (`RegisterOnceWhenTitleIsId`). The stats routes
  read `eventId` as a title, while the event payment route stores the id from
  the session metadata. So the code does not settle which key is meant, and
  the model keeps both as written.
- `POST /memberships` neither rejects a duplicate membership nor increments
  the club's member count (`CreateMembershipTwiceAddsTwo`).
- No club status writer checks the prior status, so a rejected club can be
  approved again (`ClubStatusHasNoTerminalState`). `PATCH
  /clubs/reject/:id` writes `"reject"`, while `PATCH /admin/clubs/reject/:id`
  writes `"rejected"`. The model follows the code.
- The event payment route does not refuse a session without a payment intent.
  The payment row is then keyed by a missing id, and any later intent-less
  session is answered "already recorded" from that row.

## Model

| member | source | states |
|---|---|---|
| `Tables.FindFirst` | index.js:1123 | `findOne` returns the first row in table order that matches the filter, or nothing when no row matches |
| `Tables.CountMatching` | index.js:774 | `countDocuments` is the number of rows that match the filter |
| `Routes.ConfirmMembershipPayment` | index.js:1106-1170 | Unless the session id is given, the status is "paid" and the intent is present, it returns 400 and changes nothing. A known intent changes nothing and returns the tracking id of the first payment row with that intent. Otherwise it appends one payment row (type "membership", the session's intent, amount, email and club metadata, the given tracking id) and one active membership row (`expiresAt` null, `paymentId` = intent), and every other table is unchanged |
| `Routes.ConfirmEventPayment` | index.js:1238-1307 | The same guards without the intent check. A first confirmation appends one payment row of type "event" and one "registered" row keyed by the metadata event id, with `paymentId` = intent and no club id |
| `Routes.ConfirmMembershipPaymentIdempotent` | index.js:1122-1130 | Repeating a confirmation with any tracking id, row ids and time leaves the tables as the first call left them, and a successful first call is answered with its own tracking id |
| `Routes.ConfirmEventPaymentIdempotent` | index.js:1253-1261 | The same for event payments, including sessions without an intent |
| `Routes.ConfirmKeepsIntentsUnique` | index.js:1122-1146 | Both confirmation routes keep at most one payment row per transaction id |
| `Routes.Register` | index.js:755-795 | A missing email gives 400, an unknown event 404, an existing (event id, email) row 400 "Already registered", and a non-zero cap reached by the rows keyed by the event id 400 "Event is full". None of these changes anything. It succeeds exactly when all guards pass, and then appends one row with `eventId` = event title, the event's `clubId`, status "registered" and a null payment id, with a 201 reply |
| `Routes.RegisterRepeatsWhenTitleIsNotId` | index.js:766-788 | When the event's title differs from its id, a second registration of the same user also succeeds, and the table gains two rows for that title |
| `Routes.RegisterOnceWhenTitleIsId` | index.js:766-771 | When the title equals the id, the second registration is refused as "Already registered" |
| `Routes.RegisterKeepsCapWhenTitleIsId` | index.js:773-776 | When the title equals the id, one call never takes the count of rows for the event past a positive cap |
| `Routes.CreateMembership` | index.js:304-353 | Missing `userEmail`, `clubId` or `status` gives 400 "Missing required fields" with no insert. Otherwise it appends one row: `clubName` and `paymentId` default to null when falsy, `joinedAt` to now and `expiresAt` to null when missing or 0, `membershipFee` to 0 |
| `Routes.CreateMembershipTwiceAddsTwo` | index.js:320-338 | No duplicate check: the same request twice appends two rows for the same user and club |
| `Routes.SaveUser` | index.js:175-188 | The reply is "already exists" exactly when a user with that email is stored, and then nothing changes. Otherwise it appends the user with role "member" whatever role the body carries |
| `Routes.SaveUserTwiceIsOnce` | index.js:178-185 | Saving twice leaves the tables as saving once, and the second reply is "already exists" |
| `Routes.SaveUserKeepsEmailsUnique` | index.js:178-185 | Saving keeps at most one user per email |
| `Routes.CreateClub` | index.js:160-172 | Appends one club with status "pending" whatever the body says, with `createdAt` = `updatedAt` = now, and replies with its id |
| `Routes.SetClubStatus` | index.js:206-222 | Sets the status and `updatedAt` of the first club with the id, whatever its prior status. The matched count is 1 for a known id and 0 otherwise. The modified count is 0 when the values were already in place |
| `Routes.ClubStatusHasNoTerminalState` | index.js:206-222 | Any status write followed by another leaves the second status: there is no terminal state |
| `Server.Store.ApproveClub` | index.js:206-213 | Sets the club's status to "approved" |
| `Server.Store.RejectClub` | index.js:215-222 | Sets the club's status to "reject" |
| `Server.Store.AdminApproveClub` | index.js:279-289 | Sets the club's status to "approved" |
| `Server.Store.AdminRejectClub` | index.js:291-301 | Sets the club's status to "rejected" |
| `Routes.ExpireMembership` | index.js:565-587 | Sets status "expired" and `expiresAt` = now on the first membership with the id. An unknown id, or a row that already holds exactly those values, gives 400 and changes nothing |
| `Routes.ExpireAgain` | index.js:569-580 | After an expiry, expiring again succeeds exactly when the time differs, so "expired" is not terminal |
| `Server.Store.ConfirmMembershipPayment` | index.js:1106-1170 | Looks up the intent, then inserts the payment row and then the membership row, leaving the reply and tables of `Routes.ConfirmMembershipPayment` |
| `Server.Store.ConfirmEventPayment` | index.js:1238-1307 | The same for the event route and `Routes.ConfirmEventPayment` |
| `Server.Store.Register` | index.js:755-795 | Runs the event lookup, the duplicate lookup, the count and the insert in order, and leaves the reply and tables of `Routes.Register` |
| `Server.Store.CreateMembership` | index.js:304-353 | Leaves the reply and tables of `Routes.CreateMembership` |
| `Server.Store.SaveUser` | index.js:175-188 | Leaves the reply and tables of `Routes.SaveUser` |
| `Server.Store.CreateClub` | index.js:160-172 | Leaves the reply and tables of `Routes.CreateClub` |
| `Server.Store.SetClubStatus` | index.js:206-222 | Leaves the reply and tables of `Routes.SetClubStatus` |
| `Server.Store.ExpireMembership` | index.js:565-587 | Leaves the reply and tables of `Routes.ExpireMembership` |
| `Stats.MemberStats` | index.js:978-1054 | A missing email gives 400. `totalEvents` counts the events fetched by the member's registration titles, and `totalClubs` counts the clubs listed. `myClubs` is the projection of the clubs fetched by name, in table order, and `upcomingEvents` that of the fetched events kept by the date filter. A club is listed exactly when one of the member's memberships has its name as `clubId`. An event is listed as upcoming exactly when one of the member's registrations has its title as `eventId` and its date is non-zero and after now |
| `Stats.MemberClubsAreJoined` | index.js:986-996 | The `$in` query on club names fetches exactly the clubs whose name is the `clubId` of one of the member's memberships |
| `Stats.MemberEventsAreRegistered` | index.js:998-1021 | The `$in` query on titles followed by the date filter keeps exactly the events named by one of the member's registrations whose date is truthy and after now |
| `Stats.MemberTotalSpentSumsRegisteredEvents` | index.js:1023-1026 | `totalSpent` is the sum, over every event whose title is among the member's registration keys, of its fee, with 0 when the fee is missing |
| `Stats.MemberTotalSpentNonNegative` | index.js:1023-1026 | With no negative fee, `totalSpent` is at least 0 |
| `Stats.TotalSpentIgnoresRepeatRegistration` | index.js:996-1026 | Another registration row for a title the member already has changes neither `totalSpent` nor `totalEvents` |
| `Stats.EventStats` | index.js:1405-1415 | One entry per event, whose registration count is the number of registration rows with `eventId` equal to the event's title |
| `Stats.ManagerStats` | index.js:1384-1442 | The totals count the manager's clubs, the memberships and events of those clubs, and the revenue. `recentClubs` holds the last min(5, n) clubs, each with the count of memberships whose `clubId` equals its name. `upcomingEvents` holds the first min(5, m) event stats |
| `Stats.RevenueByEvent` | index.js:1417-1420 | When event titles are distinct, the revenue reduce equals the sum over events of fee times registration count |
| `Stats.ManagerRevenueByEvent` | index.js:1405-1420 | The manager's `totalRevenue` equals the sum over its events of fee times the registration count reported for the event, when their titles are distinct |
| `Stats.ClubMembers` | index.js:526-562 | One entry per membership of the club, carrying its id, email, status, dates and fee (0 when missing). The name is "Unknown" and the photo null when no user has that email |
| `Stats.ClubMembersUseWholeUserTable` | index.js:535-545 | Pre-fetching only the users whose emails occur among the memberships does not change the merge: each member is merged with the first user of the whole table carrying its email |

## Left out

- HTTP wiring, CORS, body parsing, logging and `app.listen` are not modelled. Each handler is a function or a method called with the request's fields.
- Identity-token verification is left out. None of the modelled routes uses it.
- The MongoDB client is left out. The collections are in-memory sequences in insertion order, and an `insertOne` or `updateOne` is assumed to succeed, so the 500 "server error" replies of the `catch` blocks are not modelled.
- Building an `ObjectId` from a malformed id string throws. `POST /events/:eventId/register` and `PATCH /memberships/:id/expire` catch it and answer 500. The four club status routes have no `try`/`catch`, so the rejection escapes the async handler and no reply is sent. The model treats ids as opaque strings, so neither path is modelled. New row ids are parameters.
- Checkout session creation and retrieval are left out. The retrieved session is an input record, and a failed retrieval (a 500) is not modelled.
- `generateTrackingId` reads the clock and a random number. The tracking id is a parameter, and so is every `new Date()` (`now`).
- Each handler awaits between its lookup and its insert, so two overlapping requests can both miss the row and both insert. The model runs requests one after another. `ConfirmKeepsIntentsUnique`, `ConfirmMembershipPaymentIdempotent`, `ConfirmEventPaymentIdempotent` and `SaveUserKeepsEmailsUnique` hold only for requests that do not overlap.
- One `now` per request stands for every `new Date()` the handler reads. So `createdAt` = `updatedAt` in `CreateClub`, and the equal dates of the payment and membership rows in `ConfirmMembershipPayment`, hold in the model, while the code reads the clock separately for each.
- `eventFee` is a JavaScript number (`Number(eventFee)` when the event is created) and may be fractional. `Docs.Event.eventFee` is an integer, so the fee sums of the member and manager stats are exact integer sums, not floating-point additions.
- `amount_total / 100` is floating-point division. The payment row keeps the session's integer amount in minor units.
- In the membership confirmation, the reply is sent before the membership insert. The model keeps the two inserts in order and does not model that timing.
- Request values are taken as already typed. A date in a body is a timestamp or missing, and `Number(membershipFee)` is an integer or missing (missing also stands for a value that is not a number). So JavaScript coercions of other values are not modelled.
- Stats.ClubMembers: the club key is taken as already decoded. The handler passes the already-decoded route parameter through `decodeURIComponent` once more. That throws on a stray `%` (answering 500 "Failed to fetch members") and rewrites escapes such as `%41`. Neither effect is modelled.
- A query on a missing value (`{ email: undefined }`) is modelled as matching rows where that field is missing or null. JavaScript's `undefined === null` being false inside `users.find` is not distinguished.
- Stats.EventStats: a missing and a null field are both `None`, so an event without a `title` is counted with the registrations whose `eventId` is null, where `r.eventId === event.title` counts none of them.
- Stats.ManagerStats: for the same reason, the revenue lookup `e.title === r.eventId` and the member count `m.clubId === c.clubName` match a missing field against a null one, where JavaScript's `===` does not.
- The member overview's upcoming-events filter compares with `now`, a parameter.
- The shadowed duplicate routes (`GET /clubs` at index.js:196 and index.js:414, `GET /events` at index.js:799, `GET /clubs/:id` at index.js:504, and the second `GET /member/stats` at index.js:1312) are left out, because Express never reaches them.
- The other CRUD routes of the file are outside this model: listing, updating and deleting clubs, events, users and memberships, manager member and event lists, roles, checkout-session creation, and the payment history list. Commented-out code is left out too.
- No lemma states a global "at most one registration per user and event" or "never over capacity" invariant, because the code does not keep it.
