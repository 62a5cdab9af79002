/** What each state-changing route handler of the club server does to the
    collections and what it replies, as a function from the tables before the
    request to the reply and the tables after it. The `Server.Store` methods
    carry out these steps one store call at a time. */
module Routes {
  import opened Docs
  import opened Tables

  /** A reply with a status code and a payload, or an error status with its message. */
  datatype Response<P> = Reply(code: int, body: P) | Fail(code: int, message: string)

  /** The reply of one request and the tables it leaves behind. */
  datatype Step<P> = Step(reply: Response<P>, db: Db)

  // ---------------------------------------------------------------------------
  // Payment confirmation: PATCH /payment-success and PATCH /event-payment-success

  datatype Confirmation =
    | Recorded(trackingId: string, transactionId: Option<string>)
    | AlreadyRecorded(trackingId: string, transactionId: Option<string>)

  /** The filter `{ stripePaymentIntentId: transactionId }`. */
  function IntentIs(tid: Option<string>): Payment -> bool {
    (p: Payment) => p.stripePaymentIntentId == tid
  }

  predicate HasPayment(ps: seq<Payment>, tid: Option<string>) {
    exists i :: 0 <= i < |ps| && ps[i].stripePaymentIntentId == tid
  }

  /** `t` is the tracking id of the payment row that `findOne` returns for `tid`. */
  predicate FirstTrackedAs(ps: seq<Payment>, tid: Option<string>, t: string) {
    var k := FirstWhere(ps, IntentIs(tid));
    k.Some? && ps[k.value].trackingId == t
  }

  /** At most one payment row per provider transaction id. */
  ghost predicate UniqueIntents(ps: seq<Payment>) {
    forall i, j :: 0 <= i < j < |ps| ==> ps[i].stripePaymentIntentId != ps[j].stripePaymentIntentId
  }

  /** The payment row records the paid session under `trackingId`. */
  predicate RecordsSession(p: Payment, s: Session, kind: string, trackingId: string) {
    && p.kind == kind
    && p.stripePaymentIntentId == s.paymentIntent
    && p.trackingId == trackingId
    && p.amountTotal == s.amountTotal
    && p.currency == s.currency
    && p.userEmail == s.customerEmail
    && p.paymentStatus == s.paymentStatus
  }

  /** `after` is `before` with exactly one row appended. */
  predicate AppendedOne<T(==)>(before: seq<T>, after: seq<T>) {
    |after| == |before| + 1 && after[..|before|] == before
  }

  function ConfirmMembershipPayment(db: Db, sessionId: Option<string>, s: Session, trackingId: string,
                                    paymentRowId: string, membershipRowId: string, now: Time): (out: Step<Confirmation>)
    ensures out.reply.Fail? <==> !Truthy(sessionId) || s.paymentStatus != "paid" || !Truthy(s.paymentIntent)
    ensures out.reply.Fail? ==> out.reply.code == 400 && out.db == db
    ensures out.reply.Reply? ==> out.reply.code == 200 && out.reply.body.transactionId == s.paymentIntent
    ensures out.reply.Reply? ==> (out.reply.body.AlreadyRecorded? <==> HasPayment(db.payments, s.paymentIntent))
    ensures out.reply.Reply? && out.reply.body.AlreadyRecorded? ==>
      out.db == db && FirstTrackedAs(db.payments, s.paymentIntent, out.reply.body.trackingId)
    ensures out.reply.Reply? && out.reply.body.Recorded? ==>
      && out.reply.body.trackingId == trackingId
      && out.db == db.(payments := out.db.payments, memberships := out.db.memberships)
      && AppendedOne(db.payments, out.db.payments)
      && AppendedOne(db.memberships, out.db.memberships)
      && var p := out.db.payments[|db.payments|];
      && RecordsSession(p, s, "membership", trackingId)
      && p.clubId == Meta(s, "clubId") && p.clubName == Meta(s, "clubName")
      && var m := out.db.memberships[|db.memberships|];
      && m.status == "active" && m.expiresAt == None && m.paymentId == s.paymentIntent
      && m.userEmail == s.customerEmail && m.clubId == Meta(s, "clubId") && m.clubName == Meta(s, "clubName")
  {
    if !Truthy(sessionId) then Step(Fail(400, "session_id missing"), db)
    else if s.paymentStatus != "paid" then Step(Fail(400, "Payment not completed"), db)
    else if !Truthy(s.paymentIntent) then Step(Fail(400, "Stripe payment_intent missing"), db)
    else match FirstWhere(db.payments, IntentIs(s.paymentIntent))
      case Some(k) =>
        Step(Reply(200, AlreadyRecorded(db.payments[k].trackingId, s.paymentIntent)), db)
      case None =>
        var payment := Payment(paymentRowId, s.amountTotal, s.currency, s.customerEmail, "membership",
                               Meta(s, "clubId"), Meta(s, "clubName"), None, None,
                               s.paymentIntent, s.paymentStatus, now, trackingId);
        var membership := Membership(membershipRowId, s.customerEmail, Meta(s, "clubId"), Meta(s, "clubName"),
                                     "active", s.paymentIntent, now, None, None);
        Step(Reply(200, Recorded(trackingId, s.paymentIntent)),
             db.(payments := db.payments + [payment], memberships := db.memberships + [membership]))
  }

  /** Unlike the membership route, a session without a payment intent is not refused:
      its payment row is keyed by a missing id. */
  function ConfirmEventPayment(db: Db, sessionId: Option<string>, s: Session, trackingId: string,
                               paymentRowId: string, registrationRowId: string, now: Time): (out: Step<Confirmation>)
    ensures out.reply.Fail? <==> !Truthy(sessionId) || s.paymentStatus != "paid"
    ensures out.reply.Fail? ==> out.reply.code == 400 && out.db == db
    ensures out.reply.Reply? ==> out.reply.code == 200 && out.reply.body.transactionId == s.paymentIntent
    ensures out.reply.Reply? ==> (out.reply.body.AlreadyRecorded? <==> HasPayment(db.payments, s.paymentIntent))
    ensures out.reply.Reply? && out.reply.body.AlreadyRecorded? ==>
      out.db == db && FirstTrackedAs(db.payments, s.paymentIntent, out.reply.body.trackingId)
    ensures out.reply.Reply? && out.reply.body.Recorded? ==>
      && out.reply.body.trackingId == trackingId
      && out.db == db.(payments := out.db.payments, registrations := out.db.registrations)
      && AppendedOne(db.payments, out.db.payments)
      && AppendedOne(db.registrations, out.db.registrations)
      && var p := out.db.payments[|db.payments|];
      && RecordsSession(p, s, "event", trackingId)
      && p.eventId == Meta(s, "eventId") && p.eventTitle == Meta(s, "eventTitle")
      && var r := out.db.registrations[|db.registrations|];
      && r.status == "registered" && r.paymentId == s.paymentIntent
      && r.userEmail == s.customerEmail && r.eventId == Meta(s, "eventId") && r.clubId == None
  {
    if !Truthy(sessionId) then Step(Fail(400, "session_id missing"), db)
    else if s.paymentStatus != "paid" then Step(Fail(400, "Payment not completed"), db)
    else match FirstWhere(db.payments, IntentIs(s.paymentIntent))
      case Some(k) =>
        Step(Reply(200, AlreadyRecorded(db.payments[k].trackingId, s.paymentIntent)), db)
      case None =>
        var payment := Payment(paymentRowId, s.amountTotal, s.currency, s.customerEmail, "event",
                               None, None, Meta(s, "eventId"), Meta(s, "eventTitle"),
                               s.paymentIntent, s.paymentStatus, now, trackingId);
        var registration := Registration(registrationRowId, Meta(s, "eventId"), None, s.customerEmail,
                                         "registered", s.paymentIntent, now);
        Step(Reply(200, Recorded(trackingId, s.paymentIntent)),
             db.(payments := db.payments + [payment], registrations := db.registrations + [registration]))
  }

  /** A repeated confirmation of the same session, whatever tracking id, row ids and
      time it is given, changes nothing and replies with the first call's tracking id. */
  lemma {:induction false} ConfirmMembershipPaymentIdempotent(
    db: Db, sessionId: Option<string>, s: Session, t1: string, t2: string,
    p1: string, p2: string, m1: string, m2: string, now1: Time, now2: Time)
    ensures var first := ConfirmMembershipPayment(db, sessionId, s, t1, p1, m1, now1);
            var again := ConfirmMembershipPayment(first.db, sessionId, s, t2, p2, m2, now2);
            again.db == first.db &&
            (first.reply.Reply? ==> again.reply == Reply(200, AlreadyRecorded(first.reply.body.trackingId, s.paymentIntent)))
  {
    var first := ConfirmMembershipPayment(db, sessionId, s, t1, p1, m1, now1);
    if first.reply.Reply? && first.reply.body.Recorded? {
      FirstWhereStable(db.payments, [first.db.payments[|db.payments|]], IntentIs(s.paymentIntent));
      assert first.db.payments == db.payments + [first.db.payments[|db.payments|]];
    }
  }

  lemma {:induction false} ConfirmEventPaymentIdempotent(
    db: Db, sessionId: Option<string>, s: Session, t1: string, t2: string,
    p1: string, p2: string, r1: string, r2: string, now1: Time, now2: Time)
    ensures var first := ConfirmEventPayment(db, sessionId, s, t1, p1, r1, now1);
            var again := ConfirmEventPayment(first.db, sessionId, s, t2, p2, r2, now2);
            again.db == first.db &&
            (first.reply.Reply? ==> again.reply == Reply(200, AlreadyRecorded(first.reply.body.trackingId, s.paymentIntent)))
  {
    var first := ConfirmEventPayment(db, sessionId, s, t1, p1, r1, now1);
    if first.reply.Reply? && first.reply.body.Recorded? {
      FirstWhereStable(db.payments, [first.db.payments[|db.payments|]], IntentIs(s.paymentIntent));
      assert first.db.payments == db.payments + [first.db.payments[|db.payments|]];
    }
  }

  /** Both confirmation routes keep at most one payment row per transaction id. */
  lemma ConfirmKeepsIntentsUnique(db: Db, sessionId: Option<string>, s: Session, t: string,
                                  paymentRowId: string, rowId: string, now: Time)
    requires UniqueIntents(db.payments)
    ensures UniqueIntents(ConfirmMembershipPayment(db, sessionId, s, t, paymentRowId, rowId, now).db.payments)
    ensures UniqueIntents(ConfirmEventPayment(db, sessionId, s, t, paymentRowId, rowId, now).db.payments)
  {
    var ps := db.payments;
    var a := ConfirmMembershipPayment(db, sessionId, s, t, paymentRowId, rowId, now).db.payments;
    var b := ConfirmEventPayment(db, sessionId, s, t, paymentRowId, rowId, now).db.payments;
    if a != ps {
      AppendedKeepsUnique(ps, a);
    }
    if b != ps {
      AppendedKeepsUnique(ps, b);
    }
  }

  lemma AppendedKeepsUnique(ps: seq<Payment>, qs: seq<Payment>)
    requires UniqueIntents(ps) && AppendedOne(ps, qs)
    requires !HasPayment(ps, qs[|ps|].stripePaymentIntentId)
    ensures UniqueIntents(qs)
  {
    forall i, j | 0 <= i < j < |qs|
      ensures qs[i].stripePaymentIntentId != qs[j].stripePaymentIntentId
    {
      assert qs[i] == ps[i];
      if j < |ps| {
        assert qs[j] == ps[j];
      }
    }
  }

  // ---------------------------------------------------------------------------
  // POST /events/:eventId/register

  /** The filter `{ _id: new ObjectId(eventId) }`. */
  function EventIdIs(id: string): Event -> bool {
    (e: Event) => e.id == id
  }

  /** The filter `{ eventId }` of the capacity count. */
  function RowsOfEvent(eventId: Option<string>): Registration -> bool {
    (r: Registration) => r.eventId == eventId
  }

  /** The filter `{ eventId, userEmail }` of the duplicate check. */
  function RegisteredAs(eventId: Option<string>, email: Option<string>): Registration -> bool {
    (r: Registration) => r.eventId == eventId && r.userEmail == email
  }

  function FindEvent(events: seq<Event>, id: string): Option<Event> {
    match FirstWhere(events, EventIdIs(id))
    case Some(k) => Some(events[k])
    case None => None
  }

  /** A row keyed by the request's event id and this user already exists. */
  predicate AlreadyRegistered(regs: seq<Registration>, eventId: string, email: Option<string>) {
    exists j :: 0 <= j < |regs| && regs[j].eventId == Some(eventId) && regs[j].userEmail == email
  }

  /** The number of rows the capacity check counts for `eventId`. */
  function Taken(regs: seq<Registration>, eventId: string): nat {
    |Filter(regs, RowsOfEvent(Some(eventId)))|
  }

  /** `event.maxAttendees && count >= event.maxAttendees`: a zero or missing cap is no cap. */
  predicate IsFull(e: Event, count: nat) {
    TruthyNumber(e.maxAttendees) && count >= e.maxAttendees.value
  }

  /** The guards pass and a registration would be inserted. */
  predicate CanRegister(db: Db, eventId: string, email: Option<string>) {
    && Truthy(email)
    && FindEvent(db.events, eventId).Some?
    && !AlreadyRegistered(db.registrations, eventId, email)
    && !IsFull(FindEvent(db.events, eventId).value, Taken(db.registrations, eventId))
  }

  function RegistrationGuard(db: Db, eventId: string, email: Option<string>): Option<Response<Registration>> {
    if !Truthy(email) then Some(Fail(400, "userEmail is required"))
    else match FindEvent(db.events, eventId)
      case None => Some(Fail(404, "Event not found"))
      case Some(ev) =>
        if FirstWhere(db.registrations, RegisteredAs(Some(eventId), email)).Some? then
          Some(Fail(400, "Already registered"))
        else if IsFull(ev, Taken(db.registrations, eventId)) then Some(Fail(400, "Event is full"))
        else None
  }

  function Register(db: Db, eventId: string, email: Option<string>, rowId: string, now: Time): (out: Step<Registration>)
    ensures out.reply.Fail? ==> out.db == db
    ensures !Truthy(email) ==> out.reply == Fail(400, "userEmail is required")
    ensures Truthy(email) && FindEvent(db.events, eventId).None? ==> out.reply == Fail(404, "Event not found")
    ensures Truthy(email) && FindEvent(db.events, eventId).Some? && AlreadyRegistered(db.registrations, eventId, email) ==>
      out.reply == Fail(400, "Already registered")
    ensures Truthy(email) && FindEvent(db.events, eventId).Some? && !AlreadyRegistered(db.registrations, eventId, email) &&
            IsFull(FindEvent(db.events, eventId).value, Taken(db.registrations, eventId)) ==>
      out.reply == Fail(400, "Event is full")
    ensures out.reply.Reply? <==> CanRegister(db, eventId, email)
    ensures out.reply.Reply? ==>
      && out.reply.code == 201
      && out.db == db.(registrations := db.registrations + [out.reply.body])
      && var ev := FindEvent(db.events, eventId).value;
      && out.reply.body == Registration(rowId, ev.title, ev.clubId, email, "registered", None, now)
  {
    match RegistrationGuard(db, eventId, email)
    case Some(failure) => Step(failure, db)
    case None =>
      var ev := FindEvent(db.events, eventId).value;
      var row := Registration(rowId, ev.title, ev.clubId, email, "registered", None, now);
      Step(Reply(201, row), db.(registrations := db.registrations + [row]))
  }

  /** The duplicate guard looks rows up by the event's id while the inserted row is keyed by
      the event's title: when the two differ, the same user is registered again, and the
      table then holds two of their rows for the event's title. */
  lemma RegisterRepeatsWhenTitleIsNotId(db: Db, eventId: string, email: Option<string>,
                                        r1: string, r2: string, now1: Time, now2: Time)
    requires Register(db, eventId, email, r1, now1).reply.Reply?
    requires FindEvent(db.events, eventId).value.title != Some(eventId)
    ensures var first := Register(db, eventId, email, r1, now1);
            var again := Register(first.db, eventId, email, r2, now2);
            var title := FindEvent(db.events, eventId).value.title;
            again.reply.Reply? &&
            |Filter(again.db.registrations, RowsOfEvent(title))| == |Filter(db.registrations, RowsOfEvent(title))| + 2
  {
    var first := Register(db, eventId, email, r1, now1);
    var row := first.reply.body;
    var regs := db.registrations;
    FilterSnoc(regs, row, RowsOfEvent(Some(eventId)));
    assert !AlreadyRegistered(regs + [row], eventId, email) by {
      forall j | 0 <= j < |regs + [row]| ensures !((regs + [row])[j].eventId == Some(eventId) && (regs + [row])[j].userEmail == email) {
        if j < |regs| {
          assert (regs + [row])[j] == regs[j];
        }
      }
    }
    assert Taken(regs + [row], eventId) == Taken(regs, eventId);
    var again := Register(first.db, eventId, email, r2, now2);
    var title := row.eventId;
    FilterSnoc(regs, row, RowsOfEvent(title));
    FilterSnoc(regs + [row], again.reply.body, RowsOfEvent(title));
  }

  /** When an event's title equals its id, a second registration of the same user is refused. */
  lemma RegisterOnceWhenTitleIsId(db: Db, eventId: string, email: Option<string>,
                                  r1: string, r2: string, now1: Time, now2: Time)
    requires Register(db, eventId, email, r1, now1).reply.Reply?
    requires FindEvent(db.events, eventId).value.title == Some(eventId)
    ensures var first := Register(db, eventId, email, r1, now1);
            Register(first.db, eventId, email, r2, now2).reply == Fail(400, "Already registered")
  {
    var first := Register(db, eventId, email, r1, now1);
    var regs := first.db.registrations;
    assert regs[|regs| - 1].eventId == Some(eventId);
  }

  /** When an event's title equals its id, one call never takes the count past a positive cap. */
  lemma RegisterKeepsCapWhenTitleIsId(db: Db, eventId: string, email: Option<string>, rowId: string, now: Time)
    requires FindEvent(db.events, eventId).Some?
    requires FindEvent(db.events, eventId).value.title == Some(eventId)
    requires FindEvent(db.events, eventId).value.maxAttendees.Some?
    requires FindEvent(db.events, eventId).value.maxAttendees.value > 0
    requires Taken(db.registrations, eventId) <= FindEvent(db.events, eventId).value.maxAttendees.value
    ensures Taken(Register(db, eventId, email, rowId, now).db.registrations, eventId)
            <= FindEvent(db.events, eventId).value.maxAttendees.value
  {
    var out := Register(db, eventId, email, rowId, now);
    if out.reply.Reply? {
      FilterSnoc(db.registrations, out.reply.body, RowsOfEvent(Some(eventId)));
    }
  }

  // ---------------------------------------------------------------------------
  // POST /memberships

  datatype MembershipCreated = MembershipCreated(membershipId: string, data: Membership)

  function CreateMembership(db: Db, req: MembershipRequest, rowId: string, now: Time): (out: Step<MembershipCreated>)
    ensures out.reply.Fail? <==> !Truthy(req.userEmail) || !Truthy(req.clubId) || !Truthy(req.status)
    ensures out.reply.Fail? ==> out.reply == Fail(400, "Missing required fields") && out.db == db
    ensures out.reply.Reply? ==>
      && out.reply.code == 201
      && out.reply.body.membershipId == rowId
      && var m := out.reply.body.data;
      && out.db == db.(memberships := db.memberships + [m])
      && m.id == rowId && m.userEmail == req.userEmail && m.clubId == req.clubId && m.status == req.status.value
      && (if Truthy(req.clubName) then m.clubName == req.clubName else m.clubName == None)
      && (if Truthy(req.paymentId) then m.paymentId == req.paymentId else m.paymentId == None)
      && (if TruthyNumber(req.joinedAt) then m.joinedAt == req.joinedAt.value else m.joinedAt == now)
      && (if TruthyNumber(req.expiresAt) then m.expiresAt == req.expiresAt else m.expiresAt == None)
      && (if req.membershipFee.Some? then m.membershipFee == req.membershipFee else m.membershipFee == Some(0))
  {
    if !Truthy(req.userEmail) || !Truthy(req.clubId) || !Truthy(req.status) then
      Step(Fail(400, "Missing required fields"), db)
    else
      var m := Membership(rowId, req.userEmail, req.clubId, OrNull(req.clubName), req.status.value,
                          OrNull(req.paymentId), if TruthyNumber(req.joinedAt) then req.joinedAt.value else now,
                          if TruthyNumber(req.expiresAt) then req.expiresAt else None, Some(OrZero(req.membershipFee)));
      Step(Reply(201, MembershipCreated(rowId, m)), db.(memberships := db.memberships + [m]))
  }

  /** The route does not look for an existing membership: the same request twice
      leaves two rows for the same user and club. */
  lemma CreateMembershipTwiceAddsTwo(db: Db, req: MembershipRequest, id1: string, id2: string, now: Time)
    requires CreateMembership(db, req, id1, now).reply.Reply?
    ensures var first := CreateMembership(db, req, id1, now);
            var again := CreateMembership(first.db, req, id2, now);
            again.reply.Reply? &&
            |again.db.memberships| == |db.memberships| + 2 &&
            again.db.memberships[|db.memberships|].userEmail == again.db.memberships[|db.memberships| + 1].userEmail &&
            again.db.memberships[|db.memberships|].clubId == again.db.memberships[|db.memberships| + 1].clubId
  {
  }

  // ---------------------------------------------------------------------------
  // POST /users

  datatype UserSaved = AlreadyExists | Inserted(insertedId: string)

  /** The filter `{ email: user.email }`. */
  function EmailIs(email: Option<string>): User -> bool {
    (u: User) => u.email == email
  }

  predicate HasUser(users: seq<User>, email: Option<string>) {
    exists i :: 0 <= i < |users| && users[i].email == email
  }

  ghost predicate UniqueEmails(users: seq<User>) {
    forall i, j :: 0 <= i < j < |users| ==> users[i].email != users[j].email
  }

  function SaveUser(db: Db, draft: UserDraft, rowId: string, now: Time): (out: Step<UserSaved>)
    ensures out.reply.Reply? && out.reply.code == 200
    ensures out.reply.body.AlreadyExists? <==> HasUser(db.users, draft.email)
    ensures out.reply.body.AlreadyExists? ==> out.db == db
    ensures out.reply.body.Inserted? ==>
      && out.reply.body.insertedId == rowId
      && out.db == db.(users := db.users + [User(rowId, draft.email, draft.name, draft.photoURL, "member", now)])
  {
    match FirstWhere(db.users, EmailIs(draft.email))
    case Some(_) => Step(Reply(200, AlreadyExists), db)
    case None =>
      Step(Reply(200, Inserted(rowId)),
           db.(users := db.users + [User(rowId, draft.email, draft.name, draft.photoURL, "member", now)]))
  }

  /** Saving the same user twice leaves the tables as saving it once. */
  lemma {:induction false} SaveUserTwiceIsOnce(db: Db, draft: UserDraft, id1: string, id2: string, now1: Time, now2: Time)
    ensures var first := SaveUser(db, draft, id1, now1);
            var again := SaveUser(first.db, draft, id2, now2);
            again.db == first.db && again.reply == Reply(200, AlreadyExists)
  {
    var first := SaveUser(db, draft, id1, now1);
    if first.reply.body.Inserted? {
      var us := first.db.users;
      assert us[|us| - 1].email == draft.email;
    }
  }

  lemma SaveUserKeepsEmailsUnique(db: Db, draft: UserDraft, rowId: string, now: Time)
    requires UniqueEmails(db.users)
    ensures UniqueEmails(SaveUser(db, draft, rowId, now).db.users)
  {
    var us := SaveUser(db, draft, rowId, now).db.users;
    forall i, j | 0 <= i < j < |us| ensures us[i].email != us[j].email {
      assert us[i] == db.users[i];
      if j < |db.users| {
        assert us[j] == db.users[j];
      }
    }
  }

  // ---------------------------------------------------------------------------
  // POST /clubs, PATCH /clubs/approve|reject/:id, PATCH /admin/clubs/approve|reject/:id

  function CreateClub(db: Db, draft: ClubDraft, rowId: string, now: Time): (out: Step<string>)
    ensures out.reply == Reply(200, rowId)
    ensures AppendedOne(db.clubs, out.db.clubs) && out.db == db.(clubs := out.db.clubs)
    ensures var c := out.db.clubs[|db.clubs|];
            c.status == "pending" && c.id == rowId && c.clubName == draft.clubName &&
            c.managerEmail == draft.managerEmail && c.createdAt == now && c.updatedAt == now
  {
    var c := Club(rowId, draft.clubName, draft.managerEmail, draft.location, draft.bannerImage,
                  draft.membershipFee, "pending", now, now);
    Step(Reply(200, rowId), db.(clubs := db.clubs + [c]))
  }

  /** `updateOne`'s counts. */
  datatype UpdateResult = UpdateResult(matchedCount: nat, modifiedCount: nat)

  function ClubIdIs(id: string): Club -> bool {
    (c: Club) => c.id == id
  }

  /** `updateOne({ _id }, { $set: { status, updatedAt } })`, whatever the club's status was. */
  function SetClubStatus(db: Db, id: string, status: string, now: Time): (out: Step<UpdateResult>)
    ensures out.reply.Reply? && out.reply.code == 200
    ensures FirstWhere(db.clubs, ClubIdIs(id)).None? ==> out.reply.body == UpdateResult(0, 0) && out.db == db
    ensures FirstWhere(db.clubs, ClubIdIs(id)).Some? ==>
      var k := FirstWhere(db.clubs, ClubIdIs(id)).value;
      && out.db == db.(clubs := db.clubs[k := db.clubs[k].(status := status, updatedAt := now)])
      && out.reply.body.matchedCount == 1
      && (out.reply.body.modifiedCount == 0 <==> db.clubs[k].status == status && db.clubs[k].updatedAt == now)
  {
    match FirstWhere(db.clubs, ClubIdIs(id))
    case None => Step(Reply(200, UpdateResult(0, 0)), db)
    case Some(k) =>
      var c := db.clubs[k];
      var changed := if c.status == status && c.updatedAt == now then 0 else 1;
      Step(Reply(200, UpdateResult(1, changed)), db.(clubs := db.clubs[k := c.(status := status, updatedAt := now)]))
  }

  /** The two approve routes write the same value; the two reject routes write different ones. */
  const Approved := "approved"
  const Rejected := "reject"
  const AdminRejected := "rejected"

  /** No club status is terminal: a rejected club can be approved and an approved club rejected. */
  lemma {:induction false} ClubStatusHasNoTerminalState(db: Db, id: string, first: string, second: string, now1: Time, now2: Time)
    requires FirstWhere(db.clubs, ClubIdIs(id)).Some?
    ensures var k := FirstWhere(db.clubs, ClubIdIs(id)).value;
            var after := SetClubStatus(SetClubStatus(db, id, first, now1).db, id, second, now2).db;
            k < |after.clubs| && after.clubs[k].status == second && after.clubs[k].id == id
  {
    var k := FirstWhere(db.clubs, ClubIdIs(id)).value;
    var mid := SetClubStatus(db, id, first, now1).db;
    assert mid.clubs[k].id == id;
    forall j | 0 <= j < k ensures !ClubIdIs(id)(mid.clubs[j]) {
      assert mid.clubs[j] == db.clubs[j];
    }
  }

  // ---------------------------------------------------------------------------
  // PATCH /memberships/:id/expire

  function MembershipIdIs(id: string): Membership -> bool {
    (m: Membership) => m.id == id
  }

  function ExpireMembership(db: Db, id: string, now: Time): (out: Step<string>)
    ensures out.reply.Fail? ==> out.reply == Fail(400, "Failed to update membership") && out.db == db
    ensures FirstWhere(db.memberships, MembershipIdIs(id)).None? ==> out.reply.Fail?
    ensures FirstWhere(db.memberships, MembershipIdIs(id)).Some? ==>
      var k := FirstWhere(db.memberships, MembershipIdIs(id)).value;
      var m := db.memberships[k];
      && (out.reply.Fail? <==> m.status == "expired" && m.expiresAt == Some(now))
      && (out.reply.Reply? ==>
            out.reply == Reply(200, "Membership expired successfully") &&
            out.db == db.(memberships := db.memberships[k := m.(status := "expired", expiresAt := Some(now))]))
  {
    match FirstWhere(db.memberships, MembershipIdIs(id))
    case None => Step(Fail(400, "Failed to update membership"), db)
    case Some(k) =>
      var m := db.memberships[k];
      if m.status == "expired" && m.expiresAt == Some(now) then Step(Fail(400, "Failed to update membership"), db)
      else Step(Reply(200, "Membership expired successfully"),
                db.(memberships := db.memberships[k := m.(status := "expired", expiresAt := Some(now))]))
  }

  /** Expiring is not terminal: the same membership can be expired again later, and only
      a repeat at the same instant is refused (nothing would be modified). */
  lemma {:induction false} ExpireAgain(db: Db, id: string, now1: Time, now2: Time)
    requires ExpireMembership(db, id, now1).reply.Reply?
    ensures var first := ExpireMembership(db, id, now1);
            ExpireMembership(first.db, id, now2).reply.Reply? <==> now2 != now1
  {
    var k := FirstWhere(db.memberships, MembershipIdIs(id)).value;
    var mid := ExpireMembership(db, id, now1).db;
    assert mid.memberships[k].id == id;
    forall j | 0 <= j < k ensures !MembershipIdIs(id)(mid.memberships[j]) {
      assert mid.memberships[j] == db.memberships[j];
    }
  }
}
