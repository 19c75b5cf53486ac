/** The three tables of the coaching application (coach_app/models.py): users,
    bookable time slots and booked sessions, with the constraints the database
    enforces on them, the default ordering of slots and sessions, and the derived
    end time and status label of a slot. */
module Models {
  import opened Wrappers
  import opened Times
  import opened OrderBy

  /** Row ids: a row's id is its position in its table. The model has no deletion, so
      positions never shift. */
  type SlotId = nat
  type SessionId = nat
  type UserId = nat

  /** Every slot lasts 30 minutes. */
  const SlotLength: int := 30

  datatype User = User(username: string, email: string, isCoach: bool, isSuperuser: bool)

  datatype Slot = Slot(date: int, start: TimeOfDay, isAvailable: bool)

  /** `notes` is the nullable `notes_coach`; `createdAt` is the instant `auto_now_add` stores. */
  datatype Session = Session(client: UserId, slot: SlotId, subject: string, notes: Option<string>, createdAt: int)

  /** A constraint of the database refused a write. */
  datatype DbError = IntegrityError

  /** A slot created from a date and a start only: `is_available` takes its default. */
  function NewSlot(date: int, start: TimeOfDay): (s: Slot)
    ensures s.date == date && s.start == start
    ensures s.isAvailable
  {
    Slot(date, start, true)
  }

  /** `TimeSlot.end_time`: the time of day of the instant 30 minutes after the start,
      which wraps past midnight because only `.time()` of the instant is kept. */
  function EndTime(s: Slot): (t: TimeOfDay)
    ensures s.start + SlotLength < MinutesPerDay ==> t == s.start + SlotLength
    ensures s.start + SlotLength >= MinutesPerDay ==> t == s.start + SlotLength - MinutesPerDay
  {
    var endInstant := Instant(s.date, s.start) + SlotLength;
    if s.start + SlotLength < MinutesPerDay then
      InstantSplit(s.date, s.start + SlotLength);
      TimeOf(endInstant)
    else
      assert endInstant == Instant(s.date + 1, s.start + SlotLength - MinutesPerDay);
      InstantSplit(s.date + 1, s.start + SlotLength - MinutesPerDay);
      TimeOf(endInstant)
  }

  /** The status word of `TimeSlot.__str__`. */
  function Status(s: Slot): (word: string)
    ensures word == "Available" <==> s.isAvailable
    ensures word == "Booked" <==> !s.isAvailable
  {
    if s.isAvailable then "Available" else "Booked"
  }

  /** `unique_together = ['date', 'start_time']` */
  ghost predicate UniqueDateStart(slots: seq<Slot>)
  {
    forall i, j :: 0 <= i < j < |slots| ==> slots[i].date != slots[j].date || slots[i].start != slots[j].start
  }

  /** `Session.timeslot` is a `OneToOneField`: no slot is referenced twice. */
  ghost predicate OneSessionPerSlot(sessions: seq<Session>)
  {
    forall i, j :: 0 <= i < j < |sessions| ==> sessions[i].slot != sessions[j].slot
  }

  /** `username` is unique on Django's user model. */
  ghost predicate UniqueUsernames(users: seq<User>)
  {
    forall i, j :: 0 <= i < j < |users| ==> users[i].username != users[j].username
  }

  /** Every session's foreign keys name existing rows. */
  ghost predicate References(slots: seq<Slot>, sessions: seq<Session>, users: seq<User>)
  {
    forall i :: 0 <= i < |sessions| ==> sessions[i].slot < |slots| && sessions[i].client < |users|
  }

  ghost predicate ValidStore(slots: seq<Slot>, sessions: seq<Session>, users: seq<User>)
  {
    && UniqueDateStart(slots)
    && OneSessionPerSlot(sessions)
    && UniqueUsernames(users)
    && References(slots, sessions, users)
  }

  ghost predicate HasSlot(slots: seq<Slot>, date: int, start: int)
  {
    exists i :: 0 <= i < |slots| && slots[i].date == date && slots[i].start == start
  }

  /** `TimeSlot.objects.filter(date=..., start_time=...)`: the id of the matching row. */
  function FindSlot(slots: seq<Slot>, date: int, start: int): (r: Option<SlotId>)
    ensures r.Some? ==> r.value < |slots| && slots[r.value].date == date && slots[r.value].start == start
    ensures r.None? <==> !HasSlot(slots, date, start)
  {
    if |slots| == 0 then None
    else if slots[|slots| - 1].date == date && slots[|slots| - 1].start == start then Some(|slots| - 1)
    else
      var r := FindSlot(slots[..|slots| - 1], date, start);
      assert r.None? ==> forall i :: 0 <= i < |slots| - 1 ==> slots[..|slots| - 1][i] == slots[i];
      r
  }

  /** In a store without duplicates, the row found is the only one. */
  lemma FindSlotIsUnique(slots: seq<Slot>, id: SlotId)
    requires UniqueDateStart(slots)
    requires id < |slots|
    ensures FindSlot(slots, slots[id].date, slots[id].start) == Some(id)
  {
  }

  /** `timeslot.session`: the session booked on a slot, if any. */
  function SessionOf(sessions: seq<Session>, slot: SlotId): (r: Option<SessionId>)
    ensures r.Some? ==> r.value < |sessions| && sessions[r.value].slot == slot
    ensures r.None? <==> forall i :: 0 <= i < |sessions| ==> sessions[i].slot != slot
  {
    if |sessions| == 0 then None
    else if sessions[|sessions| - 1].slot == slot then Some(|sessions| - 1)
    else
      var r := SessionOf(sessions[..|sessions| - 1], slot);
      assert r.None? ==> forall i :: 0 <= i < |sessions| - 1 ==> sessions[..|sessions| - 1][i] == sessions[i];
      r
  }

  /** `ordering = ['date', 'start_time']`: `a` may be listed before `b`. */
  predicate ComesBefore(a: Slot, b: Slot)
  {
    a.date < b.date || (a.date == b.date && a.start <= b.start)
  }

  /** The sort key of a slot: its start instant. */
  function SlotKey(slots: seq<Slot>): nat -> int
  {
    (id: nat) => if id < |slots| then Instant(slots[id].date, slots[id].start) else 0
  }

  /** The sort key of a session: the start instant of its slot. */
  function SessionKey(slots: seq<Slot>, sessions: seq<Session>): nat -> int
  {
    (id: nat) => if id < |sessions| && sessions[id].slot < |slots| then
             Instant(slots[sessions[id].slot].date, slots[sessions[id].slot].start)
           else 0
  }

  /** Ascending instants are ascending (date, start) pairs. */
  lemma OrderedSlotsComeBefore(slots: seq<Slot>, ids: seq<nat>, descending: bool)
    requires forall i :: 0 <= i < |ids| ==> ids[i] < |slots|
    requires Ordered(ids, SlotKey(slots), descending)
    ensures forall i, j :: 0 <= i < j < |ids| ==>
              if descending then ComesBefore(slots[ids[j]], slots[ids[i]])
              else ComesBefore(slots[ids[i]], slots[ids[j]])
  {
    forall i, j | 0 <= i < j < |ids|
      ensures if descending then ComesBefore(slots[ids[j]], slots[ids[i]])
              else ComesBefore(slots[ids[i]], slots[ids[j]])
    {
      var a, b := slots[ids[i]], slots[ids[j]];
      assert Precedes(SlotKey(slots)(ids[i]), SlotKey(slots)(ids[j]), descending);
      InstantLexicographic(a.date, a.start, b.date, b.start);
      InstantLexicographic(b.date, b.start, a.date, a.start);
    }
  }

  /** `TimeSlot.objects.all()`: every slot once, in (date, start) order. */
  function ListSlots(slots: seq<Slot>): (r: seq<SlotId>)
    ensures forall x: nat :: multiset(r)[x] == if x < |slots| then 1 else 0
    ensures forall i :: 0 <= i < |r| ==> r[i] < |slots|
    ensures forall i, j :: 0 <= i < j < |r| ==> ComesBefore(slots[r[i]], slots[r[j]])
  {
    var r := SortBy(Range(|slots|), SlotKey(slots), false);
    forall x: nat ensures multiset(r)[x] == if x < |slots| then 1 else 0 {
      RangeCounts(|slots|, x);
    }
    assert forall i :: 0 <= i < |r| ==> r[i] < |slots| by {
      forall i | 0 <= i < |r| ensures r[i] < |slots| {
        assert r[i] in multiset(r);
      }
    }
    OrderedSlotsComeBefore(slots, r, false);
    r
  }

  /** The slots the sessions `ids` are booked on, in the same order. */
  function SlotsOf(sessions: seq<Session>, ids: seq<nat>): (r: seq<SlotId>)
    requires forall i :: 0 <= i < |ids| ==> ids[i] < |sessions|
    ensures |r| == |ids|
    ensures forall i :: 0 <= i < |ids| ==> r[i] == sessions[ids[i]].slot
  {
    if ids == [] then [] else [sessions[ids[0]].slot] + SlotsOf(sessions, ids[1..])
  }

  /** Sessions ordered by their slots' instants are ordered by their slots' (date, start). */
  lemma OrderedSessionsComeBefore(slots: seq<Slot>, sessions: seq<Session>, ids: seq<nat>, descending: bool)
    requires forall i :: 0 <= i < |sessions| ==> sessions[i].slot < |slots|
    requires forall i :: 0 <= i < |ids| ==> ids[i] < |sessions|
    requires Ordered(ids, SessionKey(slots, sessions), descending)
    ensures forall i, j :: 0 <= i < j < |ids| ==>
              if descending then ComesBefore(slots[sessions[ids[j]].slot], slots[sessions[ids[i]].slot])
              else ComesBefore(slots[sessions[ids[i]].slot], slots[sessions[ids[j]].slot])
  {
    var s := SlotsOf(sessions, ids);
    assert Ordered(s, SlotKey(slots), descending) by {
      forall i, j | 0 <= i < j < |s|
        ensures Precedes(SlotKey(slots)(s[i]), SlotKey(slots)(s[j]), descending)
      {
        assert SlotKey(slots)(s[i]) == SessionKey(slots, sessions)(ids[i]);
        assert SlotKey(slots)(s[j]) == SessionKey(slots, sessions)(ids[j]);
      }
    }
    OrderedSlotsComeBefore(slots, s, descending);
  }

  /** Every id of `ids` is the id of a session. */
  lemma IdsInRange(ids: seq<nat>, n: nat)
    requires forall x :: multiset(ids)[x] > 0 ==> x < n
    ensures forall i :: 0 <= i < |ids| ==> ids[i] < n
  {
    forall i | 0 <= i < |ids| ensures ids[i] < n {
      assert ids[i] in multiset(ids);
    }
  }

  /** `Session.objects.all()`: every session once, in the (date, start) order of its slot. */
  function ListSessions(slots: seq<Slot>, sessions: seq<Session>): (r: seq<SessionId>)
    requires forall i :: 0 <= i < |sessions| ==> sessions[i].slot < |slots|
    ensures forall x: nat :: multiset(r)[x] == if x < |sessions| then 1 else 0
    ensures forall i :: 0 <= i < |r| ==> r[i] < |sessions|
    ensures forall i, j :: 0 <= i < j < |r| ==> ComesBefore(slots[sessions[r[i]].slot], slots[sessions[r[j]].slot])
  {
    var r := SortBy(Range(|sessions|), SessionKey(slots, sessions), false);
    forall x: nat ensures multiset(r)[x] == if x < |sessions| then 1 else 0 {
      RangeCounts(|sessions|, x);
    }
    IdsInRange(r, |sessions|);
    OrderedSessionsComeBefore(slots, sessions, r, false);
    r
  }

  /** The ordering test of the session model: a session on an earlier slot of the
      same day is listed first, whatever the order the sessions were created in. */
  lemma EarlierSessionListedFirst(today: int, client: UserId)
    ensures var slots := [Slot(today, 600, true), Slot(today, 540, true)];
            var sessions := [Session(client, 0, "Math Tutoring", Some("Focus on calculus"), 0),
                             Session(client, 1, "English Tutoring", None, 0)];
            ListSessions(slots, sessions) == [1, 0]
  {
    var slots := [Slot(today, 600, true), Slot(today, 540, true)];
    var sessions := [Session(client, 0, "Math Tutoring", Some("Focus on calculus"), 0),
                     Session(client, 1, "English Tutoring", None, 0)];
    var r := ListSessions(slots, sessions);
    assert multiset(r) == multiset{0, 1} by {
      assert forall x: nat :: multiset(r)[x] == multiset{0, 1}[x];
    }
    assert |r| == |multiset(r)| == 2;
    assert r[0] in multiset(r) && r[1] in multiset(r);
  }

  /** The database: one table per model. Writes go through the methods below,
      which enforce the constraints of `ValidStore` the way the database does. */
  class Store {
    var slots: seq<Slot>
    var sessions: seq<Session>
    var users: seq<User>

    ghost predicate Valid()
      reads this
    {
      ValidStore(slots, sessions, users)
    }

    constructor ()
      ensures Valid()
      ensures slots == [] && sessions == [] && users == []
    {
      slots, sessions, users := [], [], [];
    }

    /** `TimeSlot.objects.create(date=..., start_time=...)`: an insert that the
        `unique_together` constraint refuses for an existing (date, start). */
    method CreateSlot(date: int, start: TimeOfDay) returns (r: Result<SlotId, DbError>)
      requires Valid()
      modifies this
      ensures Valid()
      ensures sessions == old(sessions) && users == old(users)
      ensures HasSlot(old(slots), date, start) ==> r == Err(IntegrityError) && slots == old(slots)
      ensures !HasSlot(old(slots), date, start) ==>
                r == Ok(|old(slots)|) && slots == old(slots) + [NewSlot(date, start)]
    {
      if FindSlot(slots, date, start).Some? {
        return Err(IntegrityError);
      }
      r := Ok(|slots|);
      slots := slots + [NewSlot(date, start)];
    }

    /** `timeslot.save()` after setting `is_available`. */
    method SetAvailability(id: SlotId, available: bool)
      requires Valid() && id < |slots|
      modifies this
      ensures Valid()
      ensures slots == old(slots)[id := old(slots)[id].(isAvailable := available)]
      ensures sessions == old(sessions) && users == old(users)
    {
      slots := slots[id := slots[id].(isAvailable := available)];
    }

    /** `session.save()` of a new session: refused when a foreign key names no row
        or the slot already has a session. */
    method CreateSession(s: Session) returns (r: Result<SessionId, DbError>)
      requires Valid()
      modifies this
      ensures Valid()
      ensures slots == old(slots) && users == old(users)
      ensures if s.slot < |old(slots)| && s.client < |old(users)| && SessionOf(old(sessions), s.slot).None?
              then r == Ok(|old(sessions)|) && sessions == old(sessions) + [s]
              else r == Err(IntegrityError) && sessions == old(sessions)
    {
      if s.slot < |slots| && s.client < |users| && SessionOf(sessions, s.slot).None? {
        r := Ok(|sessions|);
        sessions := sessions + [s];
      } else {
        r := Err(IntegrityError);
      }
    }

    /** `session.save()` after the coach changed `notes_coach`. */
    method SetNotes(id: SessionId, notes: Option<string>)
      requires Valid() && id < |sessions|
      modifies this
      ensures Valid()
      ensures sessions == old(sessions)[id := old(sessions)[id].(notes := notes)]
      ensures slots == old(slots) && users == old(users)
    {
      sessions := sessions[id := sessions[id].(notes := notes)];
    }

    /** Saving a new user: refused when the username is taken. */
    method CreateUser(u: User) returns (r: Result<UserId, DbError>)
      requires Valid()
      modifies this
      ensures Valid()
      ensures slots == old(slots) && sessions == old(sessions)
      ensures if forall i :: 0 <= i < |old(users)| ==> old(users)[i].username != u.username
              then r == Ok(|old(users)|) && users == old(users) + [u]
              else r == Err(IntegrityError) && users == old(users)
    {
      if forall i :: 0 <= i < |users| ==> users[i].username != u.username {
        r := Ok(|users|);
        users := users + [u];
      } else {
        r := Err(IntegrityError);
      }
    }
  }
}
