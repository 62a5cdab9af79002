/** The server's handle on its six collections. Each state-changing route is a
    method that queries and inserts one store call at a time, in the handler's
    order, and is proved to leave the reply and the tables that the matching
    `Routes` function describes. */
module Server {
  import opened Docs
  import opened Tables
  import opened Routes

  class Store {
    var users: seq<User>
    var clubs: seq<Club>
    var memberships: seq<Membership>
    var events: seq<Event>
    var registrations: seq<Registration>
    var payments: seq<Payment>

    /** The collections as a value. */
    function State(): Db
      reads this
    {
      Db(users, clubs, memberships, events, registrations, payments)
    }

    constructor (db: Db)
      ensures State() == db
    {
      users, clubs, memberships := db.users, db.clubs, db.memberships;
      events, registrations, payments := db.events, db.registrations, db.payments;
    }

    /** PATCH /payment-success */
    method ConfirmMembershipPayment(sessionId: Option<string>, s: Session, trackingId: string,
                                    paymentRowId: string, membershipRowId: string, now: Time)
      returns (reply: Response<Confirmation>)
      modifies this
      ensures Step(reply, State()) ==
              Routes.ConfirmMembershipPayment(old(State()), sessionId, s, trackingId, paymentRowId, membershipRowId, now)
    {
      if !Truthy(sessionId) {
        return Fail(400, "session_id missing");
      }
      if s.paymentStatus != "paid" {
        return Fail(400, "Payment not completed");
      }
      var transactionId := s.paymentIntent;
      if !Truthy(transactionId) {
        return Fail(400, "Stripe payment_intent missing");
      }
      var existing := FindFirst(payments, IntentIs(transactionId));
      if existing.Some? {
        return Reply(200, AlreadyRecorded(payments[existing.value].trackingId, transactionId));
      }
      var payment := Payment(paymentRowId, s.amountTotal, s.currency, s.customerEmail, "membership",
                             Meta(s, "clubId"), Meta(s, "clubName"), None, None,
                             transactionId, s.paymentStatus, now, trackingId);
      payments := payments + [payment];
      reply := Reply(200, Recorded(trackingId, transactionId));
      memberships := memberships + [Membership(membershipRowId, s.customerEmail, Meta(s, "clubId"),
                                               Meta(s, "clubName"), "active", transactionId, now, None, None)];
    }

    /** PATCH /event-payment-success */
    method ConfirmEventPayment(sessionId: Option<string>, s: Session, trackingId: string,
                               paymentRowId: string, registrationRowId: string, now: Time)
      returns (reply: Response<Confirmation>)
      modifies this
      ensures Step(reply, State()) ==
              Routes.ConfirmEventPayment(old(State()), sessionId, s, trackingId, paymentRowId, registrationRowId, now)
    {
      if !Truthy(sessionId) {
        return Fail(400, "session_id missing");
      }
      if s.paymentStatus != "paid" {
        return Fail(400, "Payment not completed");
      }
      var transactionId := s.paymentIntent;
      var existing := FindFirst(payments, IntentIs(transactionId));
      if existing.Some? {
        return Reply(200, AlreadyRecorded(payments[existing.value].trackingId, transactionId));
      }
      var payment := Payment(paymentRowId, s.amountTotal, s.currency, s.customerEmail, "event",
                             None, None, Meta(s, "eventId"), Meta(s, "eventTitle"),
                             transactionId, s.paymentStatus, now, trackingId);
      payments := payments + [payment];
      registrations := registrations + [Registration(registrationRowId, Meta(s, "eventId"), None,
                                                     s.customerEmail, "registered", transactionId, now)];
      reply := Reply(200, Recorded(trackingId, transactionId));
    }

    /** POST /events/:eventId/register */
    method Register(eventId: string, userEmail: Option<string>, rowId: string, now: Time)
      returns (reply: Response<Registration>)
      modifies this
      ensures Step(reply, State()) == Routes.Register(old(State()), eventId, userEmail, rowId, now)
    {
      if !Truthy(userEmail) {
        return Fail(400, "userEmail is required");
      }
      var found := FindFirst(events, EventIdIs(eventId));
      if found.None? {
        return Fail(404, "Event not found");
      }
      var event := events[found.value];
      var existing := FindFirst(registrations, RegisteredAs(Some(eventId), userEmail));
      if existing.Some? {
        return Fail(400, "Already registered");
      }
      var count := CountMatching(registrations, RowsOfEvent(Some(eventId)));
      if TruthyNumber(event.maxAttendees) && count >= event.maxAttendees.value {
        return Fail(400, "Event is full");
      }
      var registration := Registration(rowId, event.title, event.clubId, userEmail, "registered", None, now);
      registrations := registrations + [registration];
      reply := Reply(201, registration);
    }

    /** POST /memberships */
    method CreateMembership(req: MembershipRequest, rowId: string, now: Time)
      returns (reply: Response<MembershipCreated>)
      modifies this
      ensures Step(reply, State()) == Routes.CreateMembership(old(State()), req, rowId, now)
    {
      if !Truthy(req.userEmail) || !Truthy(req.clubId) || !Truthy(req.status) {
        return Fail(400, "Missing required fields");
      }
      var membership := Membership(rowId, req.userEmail, req.clubId, OrNull(req.clubName), req.status.value,
                                   OrNull(req.paymentId), if TruthyNumber(req.joinedAt) then req.joinedAt.value else now,
                                   if TruthyNumber(req.expiresAt) then req.expiresAt else None,
                                   Some(OrZero(req.membershipFee)));
      memberships := memberships + [membership];
      reply := Reply(201, MembershipCreated(rowId, membership));
    }

    /** POST /users */
    method SaveUser(draft: UserDraft, rowId: string, now: Time) returns (reply: Response<UserSaved>)
      modifies this
      ensures Step(reply, State()) == Routes.SaveUser(old(State()), draft, rowId, now)
    {
      var exist := FindFirst(users, EmailIs(draft.email));
      if exist.Some? {
        return Reply(200, AlreadyExists);
      }
      users := users + [User(rowId, draft.email, draft.name, draft.photoURL, "member", now)];
      reply := Reply(200, Inserted(rowId));
    }

    /** POST /clubs */
    method CreateClub(draft: ClubDraft, rowId: string, now: Time) returns (reply: Response<string>)
      modifies this
      ensures Step(reply, State()) == Routes.CreateClub(old(State()), draft, rowId, now)
    {
      clubs := clubs + [Club(rowId, draft.clubName, draft.managerEmail, draft.location, draft.bannerImage,
                             draft.membershipFee, "pending", now, now)];
      reply := Reply(200, rowId);
    }

    /** The `updateOne` shared by the four club status routes. */
    method SetClubStatus(id: string, status: string, now: Time) returns (reply: Response<UpdateResult>)
      modifies this
      ensures Step(reply, State()) == Routes.SetClubStatus(old(State()), id, status, now)
    {
      var found := FindFirst(clubs, ClubIdIs(id));
      if found.None? {
        return Reply(200, UpdateResult(0, 0));
      }
      var k := found.value;
      var club := clubs[k];
      var modified := if club.status == status && club.updatedAt == now then 0 else 1;
      clubs := clubs[k := club.(status := status, updatedAt := now)];
      reply := Reply(200, UpdateResult(1, modified));
    }

    /** PATCH /clubs/approve/:id */
    method ApproveClub(id: string, now: Time) returns (reply: Response<UpdateResult>)
      modifies this
      ensures Step(reply, State()) == Routes.SetClubStatus(old(State()), id, "approved", now)
    {
      reply := SetClubStatus(id, Approved, now);
    }

    /** PATCH /clubs/reject/:id */
    method RejectClub(id: string, now: Time) returns (reply: Response<UpdateResult>)
      modifies this
      ensures Step(reply, State()) == Routes.SetClubStatus(old(State()), id, "reject", now)
    {
      reply := SetClubStatus(id, Rejected, now);
    }

    /** PATCH /admin/clubs/approve/:id */
    method AdminApproveClub(id: string, now: Time) returns (reply: Response<UpdateResult>)
      modifies this
      ensures Step(reply, State()) == Routes.SetClubStatus(old(State()), id, "approved", now)
    {
      reply := SetClubStatus(id, Approved, now);
    }

    /** PATCH /admin/clubs/reject/:id */
    method AdminRejectClub(id: string, now: Time) returns (reply: Response<UpdateResult>)
      modifies this
      ensures Step(reply, State()) == Routes.SetClubStatus(old(State()), id, "rejected", now)
    {
      reply := SetClubStatus(id, AdminRejected, now);
    }

    /** PATCH /memberships/:id/expire */
    method ExpireMembership(id: string, now: Time) returns (reply: Response<string>)
      modifies this
      ensures Step(reply, State()) == Routes.ExpireMembership(old(State()), id, now)
    {
      var found := FindFirst(memberships, MembershipIdIs(id));
      if found.None? {
        return Fail(400, "Failed to update membership");
      }
      var k := found.value;
      var m := memberships[k];
      if m.status == "expired" && m.expiresAt == Some(now) {
        return Fail(400, "Failed to update membership");
      }
      memberships := memberships[k := m.(status := "expired", expiresAt := Some(now))];
      reply := Reply(200, "Membership expired successfully");
    }
  }
}
