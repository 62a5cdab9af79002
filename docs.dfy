/** The documents of the club server's six collections, the request bodies the
    handlers read, and the few JavaScript value rules the handlers rely on. */
module Docs {

  datatype Option<+T> = None | Some(value: T)

  /** Milliseconds since the epoch; the handlers' `new Date()` is a parameter. */
  type Time = int

  /** JavaScript truthiness of an optional string: missing, null and "" are falsy. */
  predicate Truthy(s: Option<string>) {
    s.Some? && s.value != ""
  }

  /** Truthiness of an optional number: missing, null and 0 are falsy. */
  predicate TruthyNumber(n: Option<int>) {
    n.Some? && n.value != 0
  }

  /** `s || null` */
  function OrNull(s: Option<string>): Option<string> {
    if Truthy(s) then s else None
  }

  /** `n || 0` (a 0 that is present gives 0 as well) */
  function OrZero(n: Option<int>): int {
    if n.Some? then n.value else 0
  }

  /** A row of `users`. */
  datatype User = User(
    id: string,
    email: Option<string>,
    name: Option<string>,
    photoURL: Option<string>,
    role: string,
    createdAt: Time)

  /** A row of `clubs`. */
  datatype Club = Club(
    id: string,
    clubName: Option<string>,
    managerEmail: Option<string>,
    location: Option<string>,
    bannerImage: Option<string>,
    membershipFee: Option<int>,
    status: string,
    createdAt: Time,
    updatedAt: Time)

  /** A row of `memberships`; rows written by the payment route carry no fee. */
  datatype Membership = Membership(
    id: string,
    userEmail: Option<string>,
    clubId: Option<string>,
    clubName: Option<string>,
    status: string,
    paymentId: Option<string>,
    joinedAt: Time,
    expiresAt: Option<Time>,
    membershipFee: Option<int>)

  /** A row of `events`. */
  datatype Event = Event(
    id: string,
    title: Option<string>,
    clubId: Option<string>,
    clubName: Option<string>,
    date: Option<Time>,
    eventDate: Option<Time>,
    location: Option<string>,
    eventFee: Option<int>,
    maxAttendees: Option<int>)

  /** A row of `eventRegistrations`. */
  datatype Registration = Registration(
    id: string,
    eventId: Option<string>,
    clubId: Option<string>,
    userEmail: Option<string>,
    status: string,
    paymentId: Option<string>,
    registeredAt: Time)

  /** A row of `payments`; `kind` is the document's `type` ("membership" or "event"),
      `amountTotal` the provider's amount in minor units. */
  datatype Payment = Payment(
    id: string,
    amountTotal: int,
    currency: string,
    userEmail: Option<string>,
    kind: string,
    clubId: Option<string>,
    clubName: Option<string>,
    eventId: Option<string>,
    eventTitle: Option<string>,
    stripePaymentIntentId: Option<string>,
    paymentStatus: string,
    paidAt: Time,
    trackingId: string)

  /** The six collections, each in natural (insertion) order. */
  datatype Db = Db(
    users: seq<User>,
    clubs: seq<Club>,
    memberships: seq<Membership>,
    events: seq<Event>,
    registrations: seq<Registration>,
    payments: seq<Payment>)

  /** Body of `POST /users`; its `role` is ignored by the handler. */
  datatype UserDraft = UserDraft(
    email: Option<string>,
    name: Option<string>,
    photoURL: Option<string>,
    role: Option<string>)

  /** Body of `POST /clubs`; its `status` is overwritten by the handler. */
  datatype ClubDraft = ClubDraft(
    clubName: Option<string>,
    managerEmail: Option<string>,
    location: Option<string>,
    bannerImage: Option<string>,
    membershipFee: Option<int>,
    status: Option<string>)

  /** Body of `POST /memberships`. */
  datatype MembershipRequest = MembershipRequest(
    userEmail: Option<string>,
    clubId: Option<string>,
    clubName: Option<string>,
    status: Option<string>,
    paymentId: Option<string>,
    joinedAt: Option<Time>,
    expiresAt: Option<Time>,
    membershipFee: Option<int>)

  /** What the payment provider returns for a checkout session. */
  datatype Session = Session(
    paymentStatus: string,
    paymentIntent: Option<string>,
    amountTotal: int,
    currency: string,
    customerEmail: Option<string>,
    metadata: map<string, string>)

  /** `session.metadata[key]` */
  function Meta(s: Session, key: string): Option<string> {
    if key in s.metadata then Some(s.metadata[key]) else None
  }
}
