/** The request handlers of coach_app/views.py that decide something: sign-up,
    the dashboard's split of sessions into upcoming and past, booking, and the
    coach's notes. Requests come from a logged-in user `viewer`; "now" and the
    form data are parameters. */
module Views {
  import opened Wrappers
  import opened Times
  import opened OrderBy
  import opened Models
  import opened Forms

  predicate UsernameTaken(users: seq<User>, username: string)
  {
    exists i :: 0 <= i < |users| && users[i].username == username
  }

  predicate EmailTaken(users: seq<User>, email: string)
  {
    exists i :: 0 <= i < |users| && users[i].email == email
  }

  /** The e-mail check as the sign-up test expects it: the e-mail field is optional,
      so a blank e-mail clashes with nobody. */
  predicate EmailClash(users: seq<User>, email: string)
  {
    email != "" && EmailTaken(users, email)
  }

  datatype SignupResponse = SignupForm | SignupErrors | UsernameExists | EmailExists | Registered(user: UserId)

  /** The duplicate checks of `signup` as written: the username first, then the
      e-mail compared exactly, a blank one included. */
  function DuplicateCheckAsWritten(users: seq<User>, username: string, email: string): (r: Option<SignupResponse>)
    ensures r == Some(UsernameExists) <==> UsernameTaken(users, username)
    ensures r == Some(EmailExists) <==> !UsernameTaken(users, username) && EmailTaken(users, email)
    ensures r.None? <==> !UsernameTaken(users, username) && !EmailTaken(users, email)
  {
    if UsernameTaken(users, username) then Some(UsernameExists)
    else if EmailTaken(users, email) then Some(EmailExists)
    else None
  }

  /** The store of the sign-up test: two users made by `create_user` without an
      e-mail, and a POST without one. As written, `signup` refuses it as a duplicate
      e-mail; with the corrected check `Signup` registers the new user. */
  lemma AsWrittenSignupTestFails()
    ensures var users := [User("clientuser", "", false, false), User("coachuser", "", true, false)];
            && DuplicateCheckAsWritten(users, "newuser", "") == Some(EmailExists)
            && !UsernameTaken(users, "newuser") && !EmailClash(users, "")
  {
    var users := [User("clientuser", "", false, false), User("coachuser", "", true, false)];
    assert users[0].email == "";
    assert users[0].username[0] != 'n' && users[1].username[0] != 'n';
  }

  /** `signup` with the corrected e-mail check: on a valid POST the username is
      checked before the e-mail, and a user (not a coach) is created only when
      neither is taken. `formValid` is the verdict of Django's user creation form. */
  method Signup(db: Store, post: bool, formValid: bool, username: string, email: string) returns (resp: SignupResponse)
    requires db.Valid()
    modifies db
    ensures db.Valid()
    ensures db.slots == old(db.slots) && db.sessions == old(db.sessions)
    ensures resp.Registered? <==> post && formValid && !UsernameTaken(old(db.users), username) && !EmailClash(old(db.users), email)
    ensures resp.Registered? ==>
              resp.user == |old(db.users)| && db.users == old(db.users) + [User(username, email, false, false)]
    ensures !resp.Registered? ==> db.users == old(db.users)
    ensures resp == UsernameExists <==> post && formValid && UsernameTaken(old(db.users), username)
    ensures resp == EmailExists <==>
              post && formValid && !UsernameTaken(old(db.users), username) && EmailClash(old(db.users), email)
    ensures resp == SignupForm <==> !post
  {
    if !post {
      return SignupForm;
    }
    if !formValid {
      return SignupErrors;
    }
    if UsernameTaken(db.users, username) {
      return UsernameExists;
    }
    if EmailClash(db.users, email) {
      return EmailExists;
    }
    var created := db.CreateUser(User(username, email, false, false));
    resp := Registered(created.value);
  }

  /** Coaches and superusers see every session on the dashboard. */
  predicate SeesAll(u: User)
  {
    u.isCoach || u.isSuperuser
  }

  /** `timeslot__date__gt=today` or (`timeslot__date=today`, `timeslot__start_time__gte=now`) */
  predicate IsUpcoming(s: Slot, today: int, now: int)
  {
    s.date > today || (s.date == today && s.start >= now)
  }

  /** `timeslot__date__lt=today` or (`timeslot__date=today`, `timeslot__start_time__lt=now`) */
  predicate IsPast(s: Slot, today: int, now: int)
  {
    s.date < today || (s.date == today && s.start < now)
  }

  /** The two dashboard conditions are complementary, and "upcoming" means that the
      slot starts at or after the current instant. */
  lemma UpcomingIsNotPast(s: Slot, today: int, now: int)
    requires 0 <= now <= MinutesPerDay
    ensures IsPast(s, today, now) <==> !IsUpcoming(s, today, now)
    ensures IsUpcoming(s, today, now) <==> Instant(s.date, s.start) >= Instant(today, now)
  {
    InstantLexicographic(s.date, s.start, today, now);
  }

  /** The sessions that satisfy `p`, ordered by their slots' (date, start), ascending
      or descending. */
  function SessionList(slots: seq<Slot>, sessions: seq<Session>, p: nat -> bool, descending: bool): (r: seq<SessionId>)
    requires forall i :: 0 <= i < |sessions| ==> sessions[i].slot < |slots|
    ensures forall i :: 0 <= i < |r| ==> r[i] < |sessions|
    ensures forall x: nat :: multiset(r)[x] == if x < |sessions| && p(x) then 1 else 0
    ensures forall i, j :: 0 <= i < j < |r| ==>
              if descending then ComesBefore(slots[sessions[r[j]].slot], slots[sessions[r[i]].slot])
              else ComesBefore(slots[sessions[r[i]].slot], slots[sessions[r[j]].slot])
  {
    var r := SortBy(Filter(Range(|sessions|), p), SessionKey(slots, sessions), descending);
    FilterRangeCounts(|sessions|, p, r);
    OrderedSessionsComeBefore(slots, sessions, r, descending);
    r
  }

  /** Whether the viewer's dashboard lists session `id` at all. */
  predicate Visible(sessions: seq<Session>, users: seq<User>, viewer: UserId, id: nat)
    requires viewer < |users|
  {
    id < |sessions| && (SeesAll(users[viewer]) || sessions[id].client == viewer)
  }

  /** The `upcoming_sessions` of the dashboard, ordered by `timeslot__date, timeslot__start_time`. */
  function UpcomingSessions(slots: seq<Slot>, sessions: seq<Session>, users: seq<User>, viewer: UserId,
                            today: int, now: int): (r: seq<SessionId>)
    requires forall i :: 0 <= i < |sessions| ==> sessions[i].slot < |slots|
    requires viewer < |users|
    ensures forall i :: 0 <= i < |r| ==> r[i] < |sessions|
    ensures forall x: nat :: multiset(r)[x] ==
              if Visible(sessions, users, viewer, x) && IsUpcoming(slots[sessions[x].slot], today, now) then 1 else 0
    ensures forall i, j :: 0 <= i < j < |r| ==>
              ComesBefore(slots[sessions[r[i]].slot], slots[sessions[r[j]].slot])
  {
    var p := (id: nat) => Visible(sessions, users, viewer, id) && IsUpcoming(slots[sessions[id].slot], today, now);
    SessionList(slots, sessions, p, false)
  }

  /** The `past_sessions` of the dashboard, ordered by `-timeslot__date, -timeslot__start_time`. */
  function PastSessions(slots: seq<Slot>, sessions: seq<Session>, users: seq<User>, viewer: UserId,
                        today: int, now: int): (r: seq<SessionId>)
    requires forall i :: 0 <= i < |sessions| ==> sessions[i].slot < |slots|
    requires viewer < |users|
    ensures forall i :: 0 <= i < |r| ==> r[i] < |sessions|
    ensures forall x: nat :: multiset(r)[x] ==
              if Visible(sessions, users, viewer, x) && IsPast(slots[sessions[x].slot], today, now) then 1 else 0
    ensures forall i, j :: 0 <= i < j < |r| ==>
              ComesBefore(slots[sessions[r[j]].slot], slots[sessions[r[i]].slot])
  {
    var p := (id: nat) => Visible(sessions, users, viewer, id) && IsPast(slots[sessions[id].slot], today, now);
    SessionList(slots, sessions, p, true)
  }

  /** The dashboard page: which template is used, and the two lists of session ids. */
  datatype DashboardPage = DashboardPage(coachTemplate: bool, upcoming: seq<SessionId>, past: seq<SessionId>)

  /** `dashboard`. `today` is the current date and `now` the current time of day in
      whole minutes, rounded up (a session starting at minute `s` is upcoming exactly
      when `s` is at least the rounded-up time), so `now` may be 1440. */
  function Dashboard(slots: seq<Slot>, sessions: seq<Session>, users: seq<User>, viewer: UserId,
                     today: int, now: int): (page: DashboardPage)
    requires forall i :: 0 <= i < |sessions| ==> sessions[i].slot < |slots|
    requires viewer < |users|
    ensures page.coachTemplate == SeesAll(users[viewer])
    ensures forall x: nat :: multiset(page.upcoming)[x] ==
              if Visible(sessions, users, viewer, x) && IsUpcoming(slots[sessions[x].slot], today, now) then 1 else 0
    ensures forall x: nat :: multiset(page.past)[x] ==
              if Visible(sessions, users, viewer, x) && IsPast(slots[sessions[x].slot], today, now) then 1 else 0
    ensures forall i :: 0 <= i < |page.upcoming| ==> page.upcoming[i] < |sessions|
    ensures forall i :: 0 <= i < |page.past| ==> page.past[i] < |sessions|
    ensures forall i, j :: 0 <= i < j < |page.upcoming| ==>
              ComesBefore(slots[sessions[page.upcoming[i]].slot], slots[sessions[page.upcoming[j]].slot])
    ensures forall i, j :: 0 <= i < j < |page.past| ==>
              ComesBefore(slots[sessions[page.past[j]].slot], slots[sessions[page.past[i]].slot])
  {
    DashboardPage(SeesAll(users[viewer]), UpcomingSessions(slots, sessions, users, viewer, today, now),
                  PastSessions(slots, sessions, users, viewer, today, now))
  }

  /** Every session the viewer may see is in exactly one of the two lists, and no
      other session is in either; a client sees exactly their own sessions. */
  lemma DashboardPartitions(slots: seq<Slot>, sessions: seq<Session>, users: seq<User>, viewer: UserId,
                            today: int, now: int, x: SessionId)
    requires forall i :: 0 <= i < |sessions| ==> sessions[i].slot < |slots|
    requires viewer < |users|
    requires 0 <= now <= MinutesPerDay
    ensures var page := Dashboard(slots, sessions, users, viewer, today, now);
            multiset(page.upcoming)[x] + multiset(page.past)[x] ==
              if x < |sessions| && (SeesAll(users[viewer]) || sessions[x].client == viewer) then 1 else 0
    ensures var page := Dashboard(slots, sessions, users, viewer, today, now);
            x < |sessions| && !SeesAll(users[viewer]) && sessions[x].client != viewer ==>
              x !in page.upcoming && x !in page.past
  {
    if x < |sessions| {
      UpcomingIsNotPast(slots[sessions[x].slot], today, now);
    }
    var page := Dashboard(slots, sessions, users, viewer, today, now);
    assert x in page.upcoming ==> x in multiset(page.upcoming);
    assert x in page.past ==> x in multiset(page.past);
  }

  /** On the current date, a session that started before now is past and one that
      starts now or later is upcoming. */
  lemma TodaySplitsAtNow(slots: seq<Slot>, sessions: seq<Session>, users: seq<User>, viewer: UserId,
                         today: int, now: int, x: SessionId)
    requires forall i :: 0 <= i < |sessions| ==> sessions[i].slot < |slots|
    requires viewer < |users| && Visible(sessions, users, viewer, x)
    requires slots[sessions[x].slot].date == today
    ensures var page := Dashboard(slots, sessions, users, viewer, today, now);
            (slots[sessions[x].slot].start < now ==> x in page.past && x !in page.upcoming)
            && (slots[sessions[x].slot].start >= now ==> x in page.upcoming && x !in page.past)
  {
    var page := Dashboard(slots, sessions, users, viewer, today, now);
    assert x in page.upcoming <==> x in multiset(page.upcoming);
    assert x in page.past <==> x in multiset(page.past);
  }

  datatype BookingResponse = BookingForm | BookingErrors(errors: FormResult) | Booked(session: SessionId)

  /** `make_appointment` with the corrected call to `save`: an invalid form changes
      nothing; a valid one books its slot for the requesting client. `today` is the date the form's queryset compares
      with and `createdAt` the instant stored as `created_at`. */
  method MakeAppointment(db: Store, viewer: UserId, post: bool, choice: Option<SlotId>, subject: string,
                         today: int, createdAt: int) returns (resp: BookingResponse)
    requires db.Valid() && viewer < |db.users|
    modifies db
    ensures db.Valid() && db.users == old(db.users)
    ensures var form := ValidateSessionForm(old(db.slots), old(db.sessions), today, choice, subject);
            if !post then
              resp == BookingForm && db.slots == old(db.slots) && db.sessions == old(db.sessions)
            else if form.Invalid? then
              resp == BookingErrors(form) && db.slots == old(db.slots) && db.sessions == old(db.sessions)
            else
              && resp == Booked(|old(db.sessions)|)
              && db.slots == old(db.slots)[form.slot := old(db.slots)[form.slot].(isAvailable := false)]
              && db.sessions == old(db.sessions) + [Session(viewer, form.slot, subject, None, createdAt)]
  {
    if !post {
      return BookingForm;
    }
    var form := IsValid(db, today, choice, subject);
    if form.Invalid? {
      return BookingErrors(form);
    }
    var newId := |db.sessions|;
    var _ := Save(db, form.slot, subject, viewer, createdAt, true);
    resp := Booked(newId);
  }

  datatype NotesResponse = SessionNotFound | OnlyCoaches | NotesForm(session: SessionId) | NotesSaved

  /** `edit_notes`: an unknown session is reported before the permission check; only
      a coach (being a superuser does not count) may see the form or save notes. */
  method EditNotes(db: Store, viewer: UserId, sessionId: nat, post: bool, notes: string) returns (resp: NotesResponse)
    requires db.Valid() && viewer < |db.users|
    modifies db
    ensures db.Valid() && db.slots == old(db.slots) && db.users == old(db.users)
    ensures if sessionId >= |old(db.sessions)| then resp == SessionNotFound && db.sessions == old(db.sessions)
            else if !old(db.users)[viewer].isCoach then resp == OnlyCoaches && db.sessions == old(db.sessions)
            else if !post then resp == NotesForm(sessionId) && db.sessions == old(db.sessions)
            else resp == NotesSaved
                 && db.sessions == old(db.sessions)[sessionId := old(db.sessions)[sessionId].(notes := Some(notes))]
  {
    if sessionId >= |db.sessions| {
      return SessionNotFound;
    }
    if !db.users[viewer].isCoach {
      return OnlyCoaches;
    }
    if !post {
      return NotesForm(sessionId);
    }
    db.SetNotes(sessionId, Some(notes));
    resp := NotesSaved;
  }

  /** What `make_appointment` does as written: `form.save(client=request.user)` passes
      a keyword that `SessionForm.save(self, commit=True)` does not accept, so a valid
      POST raises before `save` runs. */
  datatype AsWrittenOutcome = AsWrittenForm | AsWrittenErrors | SaveCallRaises

  /** `make_appointment` as written. It has no `modifies` clause: since the call to
      `save` raises, nothing is stored and the slot stays available. */
  method MakeAppointmentAsWritten(db: Store, post: bool, choice: Option<SlotId>, subject: string, today: int)
      returns (r: AsWrittenOutcome)
    requires db.Valid()
    ensures r == AsWrittenForm <==> !post
    ensures r == SaveCallRaises <==> post && ValidateSessionForm(db.slots, db.sessions, today, choice, subject).Valid?
  {
    if !post {
      return AsWrittenForm;
    }
    var form := IsValid(db, today, choice, subject);
    if form.Invalid? {
      return AsWrittenErrors;
    }
    r := SaveCallRaises;
  }

  /** The store of the booking test: one client, one coach, and one available slot at
      10:00 today with no session. Its POST passes the form, so the view as written
      raises (`MakeAppointmentAsWritten`), while the corrected view books the slot for
      the client (`MakeAppointment`). */
  lemma AsWrittenBookingTestFails(today: int)
    ensures var slots := [Slot(today, 600, true)];
            ValidateSessionForm(slots, [], today, Some(0), "Test Subject") == Valid(0, "Test Subject")
  {
    var slots := [Slot(today, 600, true)];
    EmptyDayAccepts(slots, 0);
  }
}
