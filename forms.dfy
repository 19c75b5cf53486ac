/** The booking form (coach_app/forms.py, `SessionForm`): which slots a client
    may pick, the checks a picked slot must pass, and the save that books it. */
module Forms {
  import opened Wrappers
  import opened Times
  import opened OrderBy
  import opened Models

  /** `time(9, 0)` and `time(18, 0)`: the working day. */
  const Opening: TimeOfDay := Clock(9, 0)
  const Closing: TimeOfDay := Clock(18, 0)

  /** Minimum distance, in minutes, between the starts of two sessions of a day. */
  const GapMinutes: int := 10

  /** `Session.subject` is a `CharField(max_length=255)`. */
  const SubjectMaxLength: int := 255

  /** The complement of `start < time(9, 0) or start >= time(18, 0)`. */
  predicate InWorkingHours(t: int)
  {
    Opening <= t < Closing
  }

  /** The queryset of the `timeslot` field: `is_available=True, date__gte=today`. */
  predicate Selectable(s: Slot, today: int)
  {
    s.isAvailable && s.date >= today
  }

  /** The choices of the `timeslot` field, in the default slot order. */
  function SelectableSlots(slots: seq<Slot>, today: int): (r: seq<SlotId>)
    ensures forall i :: 0 <= i < |r| ==> r[i] < |slots|
    ensures forall x: nat :: multiset(r)[x] == if x < |slots| && Selectable(slots[x], today) then 1 else 0
    ensures forall i, j :: 0 <= i < j < |r| ==> ComesBefore(slots[r[i]], slots[r[j]])
  {
    var p := (id: nat) => id < |slots| && Selectable(slots[id], today);
    var r := SortBy(Filter(Range(|slots|), p), SlotKey(slots), false);
    FilterRangeCounts(|slots|, p, r);
    OrderedSlotsComeBefore(slots, r, false);
    r
  }

  /** Session `j` stops slot `id` from being booked: it is on the same date, it is not
      booked on `id` itself, and it starts inside the closed window of `GapMinutes`
      around the start of `id`. */
  predicate Conflicts(slots: seq<Slot>, sessions: seq<Session>, id: SlotId, j: nat)
    requires id < |slots| && j < |sessions| && sessions[j].slot < |slots|
  {
    var other := slots[sessions[j].slot];
    var start := Instant(slots[id].date, slots[id].start);
    && other.date == slots[id].date
    && sessions[j].slot != id
    && start - GapMinutes <= Instant(other.date, other.start) <= start + GapMinutes
  }

  predicate TooClose(slots: seq<Slot>, sessions: seq<Session>, id: SlotId)
    requires id < |slots|
    requires forall j :: 0 <= j < |sessions| ==> sessions[j].slot < |slots|
  {
    exists j :: 0 <= j < |sessions| && Conflicts(slots, sessions, id, j)
  }

  /** Why `clean_timeslot` refuses a slot. */
  datatype SlotError = OutsideWorkingHours | AlreadyBooked | GapTooShort

  /** `clean_timeslot`: the first failing check decides the error. */
  function CheckTimeslot(slots: seq<Slot>, sessions: seq<Session>, id: SlotId): (r: Result<SlotId, SlotError>)
    requires id < |slots|
    requires forall j :: 0 <= j < |sessions| ==> sessions[j].slot < |slots|
    ensures r.Ok? ==> r.value == id && InWorkingHours(slots[id].start) && slots[id].isAvailable
    ensures r.Ok? <==> InWorkingHours(slots[id].start) && slots[id].isAvailable && !TooClose(slots, sessions, id)
  {
    if !InWorkingHours(slots[id].start) then Err(OutsideWorkingHours)
    else if !slots[id].isAvailable then Err(AlreadyBooked)
    else if TooClose(slots, sessions, id) then Err(GapTooShort)
    else Ok(id)
  }

  /** What `CheckTimeslot` decides, stated on times of day: the hours error whatever
      the flag or the neighbours, then the booked error, then the gap error exactly
      when another session of the same date starts at most 10 minutes away, and
      otherwise the slot itself. */
  lemma CheckTimeslotOutcomes(slots: seq<Slot>, sessions: seq<Session>, id: SlotId)
    requires id < |slots|
    requires forall j :: 0 <= j < |sessions| ==> sessions[j].slot < |slots|
    ensures var s := slots[id];
            CheckTimeslot(slots, sessions, id) == Err(OutsideWorkingHours) <==> s.start < 540 || s.start >= 1080
    ensures var s := slots[id];
            CheckTimeslot(slots, sessions, id) == Err(AlreadyBooked) <==> 540 <= s.start < 1080 && !s.isAvailable
    ensures var s := slots[id];
            CheckTimeslot(slots, sessions, id) == Err(GapTooShort) <==>
              && 540 <= s.start < 1080 && s.isAvailable
              && exists j :: 0 <= j < |sessions| && sessions[j].slot != id
                   && slots[sessions[j].slot].date == s.date
                   && s.start - 10 <= slots[sessions[j].slot].start <= s.start + 10
    ensures var s := slots[id];
            CheckTimeslot(slots, sessions, id).Ok? <==>
              && 540 <= s.start < 1080 && s.isAvailable
              && forall j :: 0 <= j < |sessions| && sessions[j].slot != id && slots[sessions[j].slot].date == s.date
                   ==> slots[sessions[j].slot].start < s.start - 10 || slots[sessions[j].slot].start > s.start + 10
    ensures CheckTimeslot(slots, sessions, id).Ok? ==> CheckTimeslot(slots, sessions, id).value == id
  {
    var s := slots[id];
    forall j | 0 <= j < |sessions|
      ensures Conflicts(slots, sessions, id, j) <==>
                sessions[j].slot != id && slots[sessions[j].slot].date == s.date
                && s.start - 10 <= slots[sessions[j].slot].start <= s.start + 10
    {
    }
  }

  /** A session on another date, or one already booked on the slot itself, never
      changes the verdict. */
  lemma IrrelevantSessionIgnored(slots: seq<Slot>, sessions: seq<Session>, id: SlotId, extra: Session)
    requires id < |slots|
    requires forall j :: 0 <= j < |sessions| ==> sessions[j].slot < |slots|
    requires extra.slot < |slots|
    requires slots[extra.slot].date != slots[id].date || extra.slot == id
    ensures CheckTimeslot(slots, sessions + [extra], id) == CheckTimeslot(slots, sessions, id)
  {
    var more := sessions + [extra];
    assert !Conflicts(slots, more, id, |sessions|);
    assert forall j :: 0 <= j < |sessions| ==> more[j] == sessions[j];
    if TooClose(slots, more, id) {
      var j :| 0 <= j < |more| && Conflicts(slots, more, id, j);
      assert Conflicts(slots, sessions, id, j);
    }
    if TooClose(slots, sessions, id) {
      var j :| 0 <= j < |sessions| && Conflicts(slots, sessions, id, j);
      assert Conflicts(slots, more, id, j);
    }
  }

  /** With no sessions at all, an available slot inside working hours is accepted. */
  lemma EmptyDayAccepts(slots: seq<Slot>, id: SlotId)
    requires id < |slots| && InWorkingHours(slots[id].start) && slots[id].isAvailable
    ensures CheckTimeslot(slots, [], id) == Ok(id)
  {
  }

  /** Both ends of the window are closed: with a session at 10:00, slots at 09:50
      and 10:10 of the same date are refused, slots at 09:49 and 10:11 accepted. */
  lemma GapWindowIsClosed(date: int)
    ensures var slots := [Slot(date, 600, false), Slot(date, 590, true), Slot(date, 610, true),
                          Slot(date, 589, true), Slot(date, 611, true)];
            var sessions := [Session(0, 0, "", None, 0)];
            && CheckTimeslot(slots, sessions, 1) == Err(GapTooShort)
            && CheckTimeslot(slots, sessions, 2) == Err(GapTooShort)
            && CheckTimeslot(slots, sessions, 3) == Ok(3)
            && CheckTimeslot(slots, sessions, 4) == Ok(4)
  {
    var slots := [Slot(date, 600, false), Slot(date, 590, true), Slot(date, 610, true),
                  Slot(date, 589, true), Slot(date, 611, true)];
    var sessions := [Session(0, 0, "", None, 0)];
    assert Conflicts(slots, sessions, 1, 0) && Conflicts(slots, sessions, 2, 0);
  }

  /** `clean_timeslot` as the form runs it: the scan over the sessions of the
      slot's date stops at the first one inside the window. */
  method CleanTimeslot(db: Store, id: SlotId) returns (r: Result<SlotId, SlotError>)
    requires db.Valid() && id < |db.slots|
    ensures r == CheckTimeslot(db.slots, db.sessions, id)
  {
    var slot := db.slots[id];
    if slot.start < Opening || slot.start >= Closing {
      return Err(OutsideWorkingHours);
    }
    if !slot.isAvailable {
      return Err(AlreadyBooked);
    }
    var start := Instant(slot.date, slot.start);
    var bufferBefore, bufferAfter := start - GapMinutes, start + GapMinutes;
    var j := 0;
    while j < |db.sessions|
      invariant 0 <= j <= |db.sessions|
      invariant forall k :: 0 <= k < j ==> !Conflicts(db.slots, db.sessions, id, k)
    {
      var other := db.sessions[j];
      if db.slots[other.slot].date == slot.date && other.slot != id {
        var otherStart := Instant(db.slots[other.slot].date, db.slots[other.slot].start);
        if bufferBefore <= otherStart <= bufferAfter {
          assert Conflicts(db.slots, db.sessions, id, j);
          return Err(GapTooShort);
        }
      }
      j := j + 1;
    }
    r := Ok(id);
  }

  /** Errors of the `timeslot` field. `SlotHasSession` is the model's own uniqueness
      check of `is_valid()`: `Session.timeslot` is one-to-one, so a slot that already
      has a session is refused once the field's own checks have passed. */
  datatype ChoiceError = ChoiceRequired | InvalidChoice | Refused(reason: SlotError) | SlotHasSession
  datatype SubjectError = SubjectRequired | SubjectTooLong

  /** The outcome of `form.is_valid()`; an invalid form carries one error per field. */
  datatype FormResult =
    | Valid(slot: SlotId, subject: string)
    | Invalid(timeslotError: Option<ChoiceError>, subjectError: Option<SubjectError>)

  /** The `timeslot` field: a choice from the queryset, then `clean_timeslot`, then
      the uniqueness of `Session.timeslot`. */
  function CleanChoice(slots: seq<Slot>, sessions: seq<Session>, today: int, choice: Option<SlotId>): (r: Result<SlotId, ChoiceError>)
    requires forall j :: 0 <= j < |sessions| ==> sessions[j].slot < |slots|
    ensures r == Err(ChoiceRequired) <==> choice.None?
    ensures r == Err(InvalidChoice) <==>
              choice.Some? && (choice.value >= |slots| || !Selectable(slots[choice.value], today))
    ensures r.Err? && r.error.Refused? ==>
              choice.Some? && choice.value < |slots| && CheckTimeslot(slots, sessions, choice.value) == Err(r.error.reason)
    ensures r == Err(SlotHasSession) ==>
              && choice.Some? && choice.value < |slots| && Selectable(slots[choice.value], today)
              && CheckTimeslot(slots, sessions, choice.value).Ok?
              && SessionOf(sessions, choice.value).Some?
    ensures choice.Some? && choice.value < |slots| && Selectable(slots[choice.value], today)
            && CheckTimeslot(slots, sessions, choice.value).Err? ==>
              r == Err(Refused(CheckTimeslot(slots, sessions, choice.value).error))
    ensures r.Ok? <==>
              && choice.Some? && choice.value < |slots| && Selectable(slots[choice.value], today)
              && CheckTimeslot(slots, sessions, choice.value).Ok?
              && SessionOf(sessions, choice.value).None?
    ensures r.Ok? ==> r.value == choice.value
  {
    if choice.None? then Err(ChoiceRequired)
    else if choice.value >= |slots| || !Selectable(slots[choice.value], today) then Err(InvalidChoice)
    else match CheckTimeslot(slots, sessions, choice.value)
      case Err(e) => Err(Refused(e))
      case Ok(id) => if SessionOf(sessions, id).Some? then Err(SlotHasSession) else Ok(id)
  }

  /** The `subject` field: required, at most `SubjectMaxLength` characters. */
  function CleanSubject(subject: string): (r: Option<SubjectError>)
    ensures r.None? <==> 0 < |subject| <= SubjectMaxLength
    ensures r == Some(SubjectRequired) <==> subject == []
  {
    if |subject| == 0 then Some(SubjectRequired)
    else if |subject| > SubjectMaxLength then Some(SubjectTooLong)
    else None
  }

  /** `SessionForm(data).is_valid()`: both fields are cleaned, and the form is valid
      exactly when neither reports an error. */
  function ValidateSessionForm(slots: seq<Slot>, sessions: seq<Session>, today: int,
                               choice: Option<SlotId>, subject: string): (r: FormResult)
    requires forall j :: 0 <= j < |sessions| ==> sessions[j].slot < |slots|
    ensures r.Valid? <==>
              && choice.Some? && choice.value < |slots|
              && Selectable(slots[choice.value], today)
              && CheckTimeslot(slots, sessions, choice.value) == Ok(choice.value)
              && SessionOf(sessions, choice.value).None?
              && 0 < |subject| <= SubjectMaxLength
    ensures r.Valid? ==> r.slot == choice.value && r.subject == subject
    ensures r.Invalid? ==> r.timeslotError.Some? || r.subjectError.Some?
    ensures r.Invalid? ==>
              && r.subjectError == CleanSubject(subject)
              && r.timeslotError == (var c := CleanChoice(slots, sessions, today, choice);
                                     if c.Err? then Some(c.error) else None)
  {
    var c := CleanChoice(slots, sessions, today, choice);
    var s := CleanSubject(subject);
    if c.Ok? && s.None? then Valid(c.value, subject)
    else Invalid(if c.Err? then Some(c.error) else None, s)
  }

  /** `form.is_valid()` as the form runs it. */
  method IsValid(db: Store, today: int, choice: Option<SlotId>, subject: string) returns (r: FormResult)
    requires db.Valid()
    ensures r == ValidateSessionForm(db.slots, db.sessions, today, choice, subject)
  {
    var c: Result<SlotId, ChoiceError>;
    if choice.None? {
      c := Err(ChoiceRequired);
    } else if choice.value >= |db.slots| || !Selectable(db.slots[choice.value], today) {
      c := Err(InvalidChoice);
    } else {
      var checked := CleanTimeslot(db, choice.value);
      if checked.Err? {
        c := Err(Refused(checked.error));
      } else if SessionOf(db.sessions, checked.value).Some? {
        c := Err(SlotHasSession);
      } else {
        c := Ok(checked.value);
      }
    }
    var s := CleanSubject(subject);
    if c.Ok? && s.None? {
      r := Valid(c.value, subject);
    } else {
      r := Invalid(if c.Err? then Some(c.error) else None, s);
    }
  }

  /** `SessionForm.save` as the booking view means it, with the booking client (the
      corrected save; `SaveAsWritten` is the one the form defines): the slot is marked
      booked and saved first, whether or not `commit` is set; with `commit` the new
      session is inserted too, which the database refuses when the slot already has one. */
  method Save(db: Store, slot: SlotId, subject: string, client: UserId, createdAt: int, commit: bool)
      returns (r: Result<Session, DbError>)
    requires db.Valid() && slot < |db.slots|
    modifies db
    ensures db.Valid()
    ensures db.slots == old(db.slots)[slot := old(db.slots)[slot].(isAvailable := false)]
    ensures db.users == old(db.users)
    ensures var s := Session(client, slot, subject, None, createdAt);
            if !commit then r == Ok(s) && db.sessions == old(db.sessions)
            else if client < |old(db.users)| && SessionOf(old(db.sessions), slot).None? then
              r == Ok(s) && db.sessions == old(db.sessions) + [s]
            else r == Err(IntegrityError) && db.sessions == old(db.sessions)
  {
    var session := Session(client, slot, subject, None, createdAt);
    db.SetAvailability(slot, false);
    if commit {
      var saved := db.CreateSession(session);
      if saved.Err? {
        return Err(saved.error);
      }
    }
    r := Ok(session);
  }

  /** The unsaved session that `super().save(commit=False)` builds from the form's
      fields. `client` is not one of them, so it is not set. */
  datatype Draft = Draft(client: Option<UserId>, slot: SlotId, subject: string)

  /** `SessionForm.save(commit)` as written. The slot is marked booked and saved. Then,
      with `commit`, inserting the session fails because the `client_id` column is
      NOT NULL and no client was set. The slot stays booked and no session is stored. */
  method SaveAsWritten(db: Store, slot: SlotId, subject: string, commit: bool) returns (r: Result<Draft, DbError>)
    requires db.Valid() && slot < |db.slots|
    modifies db
    ensures db.Valid()
    ensures db.slots == old(db.slots)[slot := old(db.slots)[slot].(isAvailable := false)]
    ensures db.sessions == old(db.sessions) && db.users == old(db.users)
    ensures if commit then r == Err(IntegrityError) else r == Ok(Draft(None, slot, subject))
  {
    var draft := Draft(None, slot, subject);
    db.SetAvailability(slot, false);
    if commit {
      return Err(IntegrityError);
    }
    r := Ok(draft);
  }

  /** After a committed `save` as written, the slot the form accepted can never be
      chosen again, yet no session holds it. The corrected `Save` stores a session
      for it instead. */
  lemma AsWrittenSaveLosesSlot(slots: seq<Slot>, sessions: seq<Session>, today: int, slot: SlotId, subject: string)
    requires forall j :: 0 <= j < |sessions| ==> sessions[j].slot < |slots|
    requires ValidateSessionForm(slots, sessions, today, Some(slot), subject).Valid?
    ensures slot < |slots|
    ensures var slots' := slots[slot := slots[slot].(isAvailable := false)];
            && SessionOf(sessions, slot).None?
            && (forall subject' :: ValidateSessionForm(slots', sessions, today, Some(slot), subject') ==
                  Invalid(Some(InvalidChoice), CleanSubject(subject')))
  {
  }

  /** Once a slot is booked with a committed save, every other available slot of the
      same date inside working hours whose start is at most 10 minutes away is
      refused by the gap rule, and the booked slot itself by its flag. */
  lemma BookingBlocksNeighbours(slots: seq<Slot>, sessions: seq<Session>, booked: SlotId,
                                client: UserId, subject: string, createdAt: int, other: SlotId)
    requires forall j :: 0 <= j < |sessions| ==> sessions[j].slot < |slots|
    requires booked < |slots| && other < |slots|
    requires InWorkingHours(slots[other].start)
    ensures var slots' := slots[booked := slots[booked].(isAvailable := false)];
            var sessions' := sessions + [Session(client, booked, subject, None, createdAt)];
            && (other == booked ==> CheckTimeslot(slots', sessions', other) == Err(AlreadyBooked))
            && (other != booked && slots[other].isAvailable && slots[other].date == slots[booked].date
                && slots[booked].start - GapMinutes <= slots[other].start <= slots[booked].start + GapMinutes
                ==> CheckTimeslot(slots', sessions', other) == Err(GapTooShort))
  {
    var slots' := slots[booked := slots[booked].(isAvailable := false)];
    var sessions' := sessions + [Session(client, booked, subject, None, createdAt)];
    if other != booked {
      assert slots'[other] == slots[other] && slots'[booked].date == slots[booked].date;
      assert slots[other].date == slots[booked].date ==> (
        slots[booked].start - GapMinutes <= slots[other].start <= slots[booked].start + GapMinutes
        ==> Conflicts(slots', sessions', other, |sessions|));
    }
  }
}
