/** The read-side joins the dashboards compute in application code after fetching
    the related collections: the member overview (GET /member/stats), the manager
    overview (GET /manager/stats) and the member list of a club
    (GET /clubs/:clubId/members). */
module Stats {
  import opened Docs
  import opened Tables
  import opened Routes

  /** `eventFee || 0` */
  function Fee(e: Event): int {
    OrZero(e.eventFee)
  }

  // ---------------------------------------------------------------------------
  // GET /member/stats

  datatype ClubCard = ClubCard(id: string, name: Option<string>, location: Option<string>, bannerImage: Option<string>)
  datatype EventCard = EventCard(id: string, title: Option<string>, clubName: Option<string>, date: Option<Time>, location: Option<string>)
  datatype MemberOverview = MemberOverview(
    totalClubs: nat,
    totalEvents: nat,
    totalSpent: int,
    myClubs: seq<ClubCard>,
    upcomingEvents: seq<EventCard>)

  function MembershipOf(email: string): Membership -> bool {
    (m: Membership) => m.userEmail == Some(email)
  }

  function RegistrationOf(email: string): Registration -> bool {
    (r: Registration) => r.userEmail == Some(email)
  }

  /** The `$in` filter on club names. */
  function NamedIn(names: set<Option<string>>): Club -> bool {
    (c: Club) => c.clubName in names
  }

  /** The `$in` filter on event titles. */
  function TitledIn(titles: set<Option<string>>): Event -> bool {
    (e: Event) => e.title in titles
  }

  function FeeOf(): Event -> int {
    (e: Event) => Fee(e)
  }

  /** `e.date && new Date(e.date) > now`: a 0 timestamp is falsy and never upcoming. */
  predicate Upcoming(now: Time, e: Event) {
    TruthyNumber(e.date) && e.date.value > now
  }

  function UpcomingAfter(now: Time): Event -> bool {
    (e: Event) => Upcoming(now, e)
  }

  /** The `eventId` values of the member's registration rows (event titles, as the route reads them). */
  function RegisteredTitles(db: Db, email: string): set<Option<string>> {
    set r | r in Filter(db.registrations, RegistrationOf(email)) :: r.eventId
  }

  /** The events fetched by title for the member. */
  function MemberEvents(db: Db, email: string): seq<Event> {
    Filter(db.events, TitledIn(RegisteredTitles(db, email)))
  }

  /** The `clubId` values of the member's membership rows (club names, as the route reads them). */
  function MembershipClubNames(db: Db, email: string): set<Option<string>> {
    set m | m in Filter(db.memberships, MembershipOf(email)) :: m.clubId
  }

  function MemberClubs(db: Db, email: string): seq<Club> {
    Filter(db.clubs, NamedIn(MembershipClubNames(db, email)))
  }

  /** The projection `{ clubName, location, bannerImage }` with `_id`. */
  function ClubCardOf(c: Club): ClubCard {
    ClubCard(c.id, c.clubName, c.location, c.bannerImage)
  }

  /** The projection `{ title, clubName, date, location }` with `_id`. */
  function EventCardOf(e: Event): EventCard {
    EventCard(e.id, e.title, e.clubName, e.date, e.location)
  }

  /** The projected clubs, in order. */
  function ClubCards(clubs: seq<Club>): (r: seq<ClubCard>)
    ensures |r| == |clubs|
    ensures forall i :: 0 <= i < |r| ==> r[i] == ClubCardOf(clubs[i])
    ensures forall c :: c in clubs ==> ClubCardOf(c) in r
  {
    if clubs == [] then [] else [ClubCardOf(clubs[0])] + ClubCards(clubs[1..])
  }

  /** The projected events, in order. */
  function EventCards(events: seq<Event>): (r: seq<EventCard>)
    ensures |r| == |events|
    ensures forall i :: 0 <= i < |r| ==> r[i] == EventCardOf(events[i])
    ensures forall e :: e in events ==> EventCardOf(e) in r
  {
    if events == [] then [] else [EventCardOf(events[0])] + EventCards(events[1..])
  }

  /** Some membership row of `email` names the club by its `clubName`. */
  predicate JoinedByName(db: Db, email: string, c: Club) {
    exists m :: m in db.memberships && m.userEmail == Some(email) && m.clubId == c.clubName
  }

  /** Some registration row of `email` names the event by its `title`. */
  predicate RegisteredByTitle(db: Db, email: string, e: Event) {
    exists r :: r in db.registrations && r.userEmail == Some(email) && r.eventId == e.title
  }

  /** Every club the member joined by name is listed, and only those. */
  predicate ListsJoinedClubs(db: Db, email: string, cards: seq<ClubCard>) {
    && (forall c :: c in db.clubs && JoinedByName(db, email, c) ==> ClubCardOf(c) in cards)
    && (forall i :: 0 <= i < |cards| ==>
          exists c :: c in db.clubs && JoinedByName(db, email, c) && cards[i] == ClubCardOf(c))
  }

  /** Every registered event with a truthy date after `now` is listed, and only those. */
  predicate ListsUpcomingEvents(db: Db, email: string, now: Time, cards: seq<EventCard>) {
    && (forall e :: e in db.events && RegisteredByTitle(db, email, e) && Upcoming(now, e) ==>
          EventCardOf(e) in cards)
    && (forall i :: 0 <= i < |cards| ==>
          exists e :: e in db.events && RegisteredByTitle(db, email, e) && Upcoming(now, e) &&
                      cards[i] == EventCardOf(e))
  }

  function MemberStats(db: Db, email: Option<string>, now: Time): (r: Response<MemberOverview>)
    ensures r.Fail? <==> !Truthy(email)
    ensures r.Fail? ==> r == Fail(400, "Email is required")
    ensures r.Reply? ==>
      && r.code == 200
      && r.body.totalEvents == |MemberEvents(db, email.value)| <= |db.events|
      && r.body.totalClubs == |r.body.myClubs| <= |db.clubs|
      && |r.body.upcomingEvents| <= r.body.totalEvents
      // the lists are the fetched rows, projected, in table order
      && r.body.myClubs == ClubCards(MemberClubs(db, email.value))
      && r.body.upcomingEvents == EventCards(Filter(MemberEvents(db, email.value), UpcomingAfter(now)))
      && ListsJoinedClubs(db, email.value, r.body.myClubs)
      && ListsUpcomingEvents(db, email.value, now, r.body.upcomingEvents)
  {
    if !Truthy(email) then Fail(400, "Email is required")
    else
      var clubs := MemberClubs(db, email.value);
      var events := MemberEvents(db, email.value);
      var upcoming := Filter(events, UpcomingAfter(now));
      MemberClubCardsAreJoined(db, email.value);
      MemberEventCardsAreRegistered(db, email.value, now);
      Reply(200, MemberOverview(
        |clubs|, |events|, SumOf(events, FeeOf()),
        ClubCards(clubs), EventCards(upcoming)))
  }

  /** The clubs fetched by name are exactly the clubs some membership of the member names. */
  lemma MemberClubsAreJoined(db: Db, email: string)
    ensures forall c :: c in MemberClubs(db, email) <==> c in db.clubs && JoinedByName(db, email, c)
  {
    forall c | c in db.clubs
      ensures c.clubName in MembershipClubNames(db, email) <==> JoinedByName(db, email, c)
    {
      if JoinedByName(db, email, c) {
        var m :| m in db.memberships && m.userEmail == Some(email) && m.clubId == c.clubName;
        assert m in Filter(db.memberships, MembershipOf(email));
      }
    }
  }

  /** The club cards list every joined club, and only joined clubs. */
  lemma MemberClubCardsAreJoined(db: Db, email: string)
    ensures ListsJoinedClubs(db, email, ClubCards(MemberClubs(db, email)))
  {
    var clubs := MemberClubs(db, email);
    MemberClubsAreJoined(db, email);
    forall i | 0 <= i < |clubs|
      ensures clubs[i] in db.clubs && JoinedByName(db, email, clubs[i])
    {
      assert clubs[i] in clubs;
    }
  }

  /** The event cards list every registered upcoming event, and only those. */
  lemma MemberEventCardsAreRegistered(db: Db, email: string, now: Time)
    ensures ListsUpcomingEvents(db, email, now, EventCards(Filter(MemberEvents(db, email), UpcomingAfter(now))))
  {
    var upcoming := Filter(MemberEvents(db, email), UpcomingAfter(now));
    MemberEventsAreRegistered(db, email, now);
    forall i | 0 <= i < |upcoming|
      ensures upcoming[i] in db.events && RegisteredByTitle(db, email, upcoming[i]) && Upcoming(now, upcoming[i])
    {
      assert upcoming[i] in upcoming;
    }
  }

  /** The upcoming events kept are exactly the registered events with a later date. */
  lemma MemberEventsAreRegistered(db: Db, email: string, now: Time)
    ensures forall e :: e in Filter(MemberEvents(db, email), UpcomingAfter(now)) <==>
                        e in db.events && RegisteredByTitle(db, email, e) && Upcoming(now, e)
  {
    forall e | e in db.events
      ensures e.title in RegisteredTitles(db, email) <==> RegisteredByTitle(db, email, e)
    {
      if RegisteredByTitle(db, email, e) {
        var r :| r in db.registrations && r.userEmail == Some(email) && r.eventId == e.title;
        assert r in Filter(db.registrations, RegistrationOf(email));
      }
    }
  }

  /** With no negative fee, nothing is spent below zero. */
  lemma MemberTotalSpentNonNegative(db: Db, email: string, now: Time)
    requires email != ""
    requires forall e :: e in db.events ==> Fee(e) >= 0
    ensures MemberStats(db, Some(email), now).body.totalSpent >= 0
  {
    SumOfNonNegative(MemberEvents(db, email));
  }

  lemma {:induction false} SumOfNonNegative(events: seq<Event>)
    requires forall e :: e in events ==> Fee(e) >= 0
    ensures SumOf(events, FeeOf()) >= 0
    decreases |events|
  {
    if events != [] {
      SumOfNonNegative(events[..|events| - 1]);
    }
  }

  /** The member's total is the sum, over every event whose title is one of the member's
      registration keys, of its fee (0 when it has none). */
  lemma MemberTotalSpentSumsRegisteredEvents(db: Db, email: string, now: Time)
    ensures MemberStats(db, Some(email), now).Reply? ==>
      MemberStats(db, Some(email), now).body.totalSpent ==
      SumOf(db.events, Masked(TitledIn(RegisteredTitles(db, email)), FeeOf()))
  {
    SumOfFilter(db.events, TitledIn(RegisteredTitles(db, email)), FeeOf());
  }

  /** Events are fetched by an `$in` on titles, so a second registration row for a title the
      member already has does not change what the member is said to have spent. */
  lemma TotalSpentIgnoresRepeatRegistration(db: Db, email: string, r: Registration, now: Time)
    requires email != ""
    requires r.userEmail == Some(email)
    requires exists j :: 0 <= j < |db.registrations| &&
                         db.registrations[j].userEmail == Some(email) && db.registrations[j].eventId == r.eventId
    ensures var before := MemberStats(db, Some(email), now);
            var after := MemberStats(db.(registrations := db.registrations + [r]), Some(email), now);
            after.body.totalSpent == before.body.totalSpent && after.body.totalEvents == before.body.totalEvents
  {
    var db' := db.(registrations := db.registrations + [r]);
    FilterSnoc(db.registrations, r, RegistrationOf(email));
    var j :| 0 <= j < |db.registrations| &&
             db.registrations[j].userEmail == Some(email) && db.registrations[j].eventId == r.eventId;
    assert db.registrations[j] in Filter(db.registrations, RegistrationOf(email));
    assert RegisteredTitles(db', email) == RegisteredTitles(db, email);
  }

  // ---------------------------------------------------------------------------
  // GET /manager/stats

  datatype EventStat = EventStat(
    id: string,
    title: Option<string>,
    date: Option<Time>,
    clubName: string,
    maxAttendees: Option<int>,
    registrations: nat)

  datatype ClubSummary = ClubSummary(
    id: string,
    name: Option<string>,
    bannerImage: Option<string>,
    memberCount: nat,
    status: string)

  datatype ManagerOverview = ManagerOverview(
    totalClubs: nat,
    totalMembers: nat,
    totalEvents: nat,
    totalRevenue: int,
    recentClubs: seq<ClubSummary>,
    upcomingEvents: seq<EventStat>)

  function ManagedBy(email: string): Club -> bool {
    (c: Club) => c.managerEmail == Some(email)
  }

  function MembershipClubIn(names: set<Option<string>>): Membership -> bool {
    (m: Membership) => m.clubId in names
  }

  function RegistrationClubIn(names: set<Option<string>>): Registration -> bool {
    (r: Registration) => r.clubId in names
  }

  function EventClubIn(ids: set<string>): Event -> bool {
    (e: Event) => e.clubId.Some? && e.clubId.value in ids
  }

  function MembershipOfClubNamed(name: Option<string>): Membership -> bool {
    (m: Membership) => m.clubId == name
  }

  function TitleIs(t: Option<string>): Event -> bool {
    (e: Event) => e.title == t
  }

  function ClubOfEvent(e: Event): Club -> bool {
    (c: Club) => Some(c.id) == e.clubId
  }

  function NamesOf(clubs: seq<Club>): set<Option<string>> {
    set c | c in clubs :: c.clubName
  }

  function IdsOf(clubs: seq<Club>): set<string> {
    set c | c in clubs :: c.id
  }

  function ManagedClubs(db: Db, email: string): seq<Club> {
    Filter(db.clubs, ManagedBy(email))
  }

  function ManagedMemberships(db: Db, email: string): seq<Membership> {
    Filter(db.memberships, MembershipClubIn(NamesOf(ManagedClubs(db, email))))
  }

  function ManagedEvents(db: Db, email: string): seq<Event> {
    Filter(db.events, EventClubIn(IdsOf(ManagedClubs(db, email))))
  }

  function ManagedRegistrations(db: Db, email: string): seq<Registration> {
    Filter(db.registrations, RegistrationClubIn(NamesOf(ManagedClubs(db, email))))
  }

  /** `clubs.find(c => c._id.toString() === event.clubId)?.clubName || "Unknown"` */
  function ClubNameOf(clubs: seq<Club>, e: Event): string {
    match FirstWhere(clubs, ClubOfEvent(e))
    case Some(k) => if Truthy(clubs[k].clubName) then clubs[k].clubName.value else "Unknown"
    case None => "Unknown"
  }

  /** `events.find(e => e.title === r.eventId)?.eventFee || 0` */
  function FeeOfTitle(events: seq<Event>, t: Option<string>): int {
    match FirstWhere(events, TitleIs(t))
    case Some(k) => Fee(events[k])
    case None => 0
  }

  function RegistrationFee(events: seq<Event>): Registration -> int {
    (r: Registration) => FeeOfTitle(events, r.eventId)
  }

  /** The registrations `reduce` into `totalRevenue`. */
  function Revenue(regs: seq<Registration>, events: seq<Event>): int {
    SumOf(regs, RegistrationFee(events))
  }

  function EventStats(events: seq<Event>, regs: seq<Registration>, clubs: seq<Club>): (r: seq<EventStat>)
    ensures |r| == |events|
    ensures forall i :: 0 <= i < |r| ==>
      r[i].id == events[i].id && r[i].registrations == |Filter(regs, RowsOfEvent(events[i].title))|
  {
    seq(|events|, i requires 0 <= i < |events| =>
      EventStat(events[i].id, events[i].title, events[i].eventDate, ClubNameOf(clubs, events[i]),
                events[i].maxAttendees, |Filter(regs, RowsOfEvent(events[i].title))|))
  }

  function Min(a: int, b: int): int {
    if a < b then a else b
  }

  function ManagerStats(db: Db, email: Option<string>): (r: Response<ManagerOverview>)
    ensures r.Fail? <==> !Truthy(email)
    ensures r.Fail? ==> r == Fail(400, "Manager email required")
    ensures r.Reply? ==>
      var clubs := ManagedClubs(db, email.value);
      var events := ManagedEvents(db, email.value);
      var regs := ManagedRegistrations(db, email.value);
      var memberships := ManagedMemberships(db, email.value);
      var recent := r.body.recentClubs;
      && r.code == 200
      && r.body.totalClubs == |clubs|
      && r.body.totalMembers == |memberships|
      && r.body.totalEvents == |events|
      && r.body.totalRevenue == Revenue(regs, events)
      && |recent| == Min(5, |clubs|)
      && (forall i :: 0 <= i < |recent| ==>
            && recent[i].id == clubs[|clubs| - |recent| + i].id
            && recent[i].memberCount ==
               |Filter(memberships, MembershipOfClubNamed(clubs[|clubs| - |recent| + i].clubName))|)
      && |r.body.upcomingEvents| == Min(5, |events|)
      && (forall i :: 0 <= i < |r.body.upcomingEvents| ==>
            r.body.upcomingEvents[i].id == events[i].id &&
            r.body.upcomingEvents[i].registrations == |Filter(regs, RowsOfEvent(events[i].title))|)
  {
    if !Truthy(email) then Fail(400, "Manager email required")
    else
      var clubs := ManagedClubs(db, email.value);
      var memberships := ManagedMemberships(db, email.value);
      var events := ManagedEvents(db, email.value);
      var regs := ManagedRegistrations(db, email.value);
      var stats := EventStats(events, regs, clubs);
      var recent := clubs[|clubs| - Min(5, |clubs|)..];
      Reply(200, ManagerOverview(
        |clubs|, |memberships|, |events|, Revenue(regs, events),
        seq(|recent|, i requires 0 <= i < |recent| =>
          ClubSummary(recent[i].id, recent[i].clubName, recent[i].bannerImage,
                      |Filter(memberships, MembershipOfClubNamed(recent[i].clubName))|, recent[i].status)),
        stats[..Min(5, |stats|)]))
  }

  /** No two events share a title. */
  ghost predicate DistinctTitles(events: seq<Event>) {
    forall i, j :: 0 <= i < j < |events| ==> events[i].title != events[j].title
  }

  /** An event's fee times its registration count. */
  function EventTake(regs: seq<Registration>): Event -> int {
    (e: Event) => Fee(e) * |Filter(regs, RowsOfEvent(e.title))|
  }

  /** When the manager's events have distinct titles, total revenue is the sum over those
      events of fee times the registration count reported for the event. */
  lemma {:induction false} RevenueByEvent(regs: seq<Registration>, events: seq<Event>)
    requires DistinctTitles(events)
    ensures Revenue(regs, events) == SumOf(events, EventTake(regs))
    decreases |regs|
  {
    if regs == [] {
      ZeroTake(events);
    } else {
      var init, last := regs[..|regs| - 1], regs[|regs| - 1];
      assert regs == init + [last];
      RevenueByEvent(init, events);
      TakeSnoc(events, init, last);
      FeeOfTitleIsMaskedSum(events, last.eventId);
    }
  }

  lemma {:induction false} ZeroTake(events: seq<Event>)
    ensures SumOf(events, EventTake([])) == 0
    decreases |events|
  {
    if events != [] {
      ZeroTake(events[..|events| - 1]);
    }
  }

  /** One more registration adds the fee of every event carrying its key. */
  lemma {:induction false} TakeSnoc(events: seq<Event>, regs: seq<Registration>, r: Registration)
    ensures SumOf(events, EventTake(regs + [r])) ==
            SumOf(events, EventTake(regs)) + SumOf(events, Masked(TitleIs(r.eventId), FeeOf()))
    decreases |events|
  {
    if events != [] {
      var init, last := events[..|events| - 1], events[|events| - 1];
      TakeSnoc(init, regs, r);
      FilterSnoc(regs, r, RowsOfEvent(last.title));
      var n := |Filter(regs, RowsOfEvent(last.title))|;
      var fee := Fee(last);
      var extra := Masked(TitleIs(r.eventId), FeeOf())(last);
      assert EventTake(regs)(last) == fee * n;
      if last.title == r.eventId {
        assert EventTake(regs + [r])(last) == fee * (n + 1);
        MulSucc(fee, n);
        assert extra == fee;
      } else {
        assert EventTake(regs + [r])(last) == fee * n;
        assert extra == 0;
      }
    }
  }

  lemma MulSucc(a: int, n: int)
    ensures a * (n + 1) == a * n + a
  {
  }

  /** With distinct titles, the fee of the first event with a title is the sum of the fees
      of all events with that title. */
  lemma {:induction false} FeeOfTitleIsMaskedSum(events: seq<Event>, t: Option<string>)
    requires DistinctTitles(events)
    ensures FeeOfTitle(events, t) == SumOf(events, Masked(TitleIs(t), FeeOf()))
    decreases |events|
  {
    if events != [] {
      var init, last := events[..|events| - 1], events[|events| - 1];
      assert events == init + [last];
      FeeOfTitleIsMaskedSum(init, t);
      FirstWhereStable(init, [last], TitleIs(t));
      if FirstWhere(init, TitleIs(t)).Some? {
        var k := FirstWhere(init, TitleIs(t)).value;
        assert events[k] == init[k];
        assert last.title != t;
      }
    }
  }

  /** The same, for the totals the manager overview reports. */
  lemma ManagerRevenueByEvent(db: Db, email: string)
    requires email != ""
    requires DistinctTitles(ManagedEvents(db, email))
    ensures ManagerStats(db, Some(email)).body.totalRevenue ==
            SumOf(ManagedEvents(db, email), EventTake(ManagedRegistrations(db, email)))
  {
    RevenueByEvent(ManagedRegistrations(db, email), ManagedEvents(db, email));
  }

  // ---------------------------------------------------------------------------
  // GET /clubs/:clubId/members

  datatype MemberView = MemberView(
    id: string,
    name: string,
    email: Option<string>,
    photoURL: Option<string>,
    status: string,
    joinedAt: Time,
    expiryDate: Option<Time>,
    membershipFee: int)

  function MembershipOfClub(clubId: string): Membership -> bool {
    (m: Membership) => m.clubId == Some(clubId)
  }

  /** The `$in` filter on user emails. */
  function EmailIn(emails: set<Option<string>>): User -> bool {
    (u: User) => u.email in emails
  }

  /** One membership merged with the first of `users` carrying its email. */
  function MergeMember(users: seq<User>, m: Membership): MemberView {
    var found := FirstWhere(users, EmailIs(m.userEmail));
    var name := if found.Some? && Truthy(users[found.value].name) then users[found.value].name.value else "Unknown";
    var photo := if found.Some? then OrNull(users[found.value].photoURL) else None;
    MemberView(m.id, name, m.userEmail, photo, m.status, m.joinedAt, m.expiresAt, OrZero(m.membershipFee))
  }

  function ClubMemberships(db: Db, clubId: string): seq<Membership> {
    Filter(db.memberships, MembershipOfClub(clubId))
  }

  function ClubMembers(db: Db, clubId: string): (r: seq<MemberView>)
    ensures var ms := ClubMemberships(db, clubId);
      && |r| == |ms|
      && forall i :: 0 <= i < |r| ==>
           && r[i].id == ms[i].id && r[i].email == ms[i].userEmail && r[i].status == ms[i].status
           && r[i].joinedAt == ms[i].joinedAt && r[i].expiryDate == ms[i].expiresAt
           && r[i].membershipFee == OrZero(ms[i].membershipFee)
           && (!HasUser(db.users, ms[i].userEmail) ==> r[i].name == "Unknown" && r[i].photoURL == None)
  {
    var ms := ClubMemberships(db, clubId);
    var users := Filter(db.users, EmailIn(set m | m in ms :: m.userEmail));
    seq(|ms|, i requires 0 <= i < |ms| => MergeMember(users, ms[i]))
  }

  /** Fetching only the users whose emails occur among the memberships does not change the
      merge: each member is merged with the first user of the whole table carrying its email. */
  lemma ClubMembersUseWholeUserTable(db: Db, clubId: string, i: nat)
    requires i < |ClubMemberships(db, clubId)|
    ensures ClubMembers(db, clubId)[i] == MergeMember(db.users, ClubMemberships(db, clubId)[i])
  {
    var ms := ClubMemberships(db, clubId);
    var emails := set m | m in ms :: m.userEmail;
    var m := ms[i];
    assert m.userEmail in emails;
    FirstWhereAfterFilter(db.users, EmailIn(emails), EmailIs(m.userEmail));
  }
}
