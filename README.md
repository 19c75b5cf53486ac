# Coaching-appointment booking rules, modelled in Dafny

This project models the booking core of a small Django application. In it, clients
book 30-minute time slots with a coach, and coaches manage slots and leave notes.
The database is a `Store` class with three tables held as sequences: users, slots
and sessions. A row's id is its position in its table; the model has no deletion, so
positions never shift. Times of day are whole minutes since midnight, and dates are
integer day numbers. `datetime.combine(date, t)` becomes the instant
`date * 1440 + t` (`Times.Instant`).

Modules follow the source files:

- `Times`: instants, splitting an instant back into date and time, and the proof
  that instant order is lexicographic (date, time) order.
- `OrderBy`: queryset `filter` and `order_by` over row ids (a filter and an insertion
  sort by an integer key, ascending or descending).
- `Models` (coach_app/models.py): the entities and the end time and status of a slot.
  It also has the database constraints (unique `(date, start_time)`, one session per
  slot, unique usernames, foreign keys) as the store invariant, the default ordering
  of slots and sessions, and the store's insert and update operations, each refusing
  what the database refuses.
- `Forms` (coach_app/forms.py): the slots a client may pick and `clean_timeslot`.
  `clean_timeslot` is the specification function `CheckTimeslot` plus the scanning
  method `CleanTimeslot` proved equal to it. The module also has the whole form's
  validity, including the uniqueness check that `is_valid()` runs on the one-to-one
  `timeslot` field, and `SessionForm.save`.
- `Admin` (coach_app/admin.py): the start-time choices `LimitedTimeSelect` builds,
  `clean_start_time`, and `generate_timeslots`. `generate_timeslots` is the fold
  `FillDates`, with its properties as lemmas, and nested loops proved equal to it.
- `Views` (coach_app/views.py): `signup`, the dashboard split into upcoming and past
  sessions, `make_appointment` and `edit_notes`.

The model follows the code:

- A booking picks a slot by id from the form's queryset. There is no free-text time
  lookup and no "no such slot" error of its own. A missing or unlisted choice is the
  form field's `ChoiceRequired` or `InvalidChoice`.
- `save` marks the slot booked and saves it before it inserts the session, with no
  transaction around the two writes. When the insert is refused, the slot stays
  booked; `Forms.Save` and `Forms.SaveAsWritten` state this.
- The gap rule excludes sessions by slot identity on the same date.
- The available flag and the existence of a session are independent: the admin can
  edit `is_available`, and a session can be created without changing it. The form
  refuses a slot that already has a session whatever its flag says.

## Model

| member | source | states |
|---|---|---|
| Times.InstantSplit | appointment_booking_project/coach_app/models.py:28-30 | `.date()` and `.time()` of `datetime.combine(d, t)` give back `d` and `t` |
| Times.InstantLexicographic | appointment_booking_project/coach_app/models.py:34 | instant order is (date, time) lexicographic order; equal instants mean equal pairs |
| Models.NewSlot | appointment_booking_project/coach_app/models.py:20-23 | a slot created from a date and a start is available by default |
| Models.EndTime | appointment_booking_project/coach_app/models.py:25-30 | end time is start + 30 minutes, wrapping past midnight (start − 1410) because only the time of day is kept |
| Models.Status | appointment_booking_project/coach_app/models.py:36-38 | the label is "Available" exactly when the slot is available and "Booked" exactly when it is not |
| Models.FindSlot | appointment_booking_project/coach_app/admin.py:54 | returns a row with that (date, start) when there is one, and none exactly when no row matches |
| Models.FindSlotIsUnique | appointment_booking_project/coach_app/models.py:33 | under unique (date, start) the lookup returns the one row that has them |
| Models.SessionOf | appointment_booking_project/coach_app/models.py:46 | returns a session booked on the slot, and none exactly when no session references it |
| Models.ListSlots | appointment_booking_project/coach_app/models.py:34 | every slot listed exactly once, in ascending (date, start) order |
| Models.ListSessions | appointment_booking_project/coach_app/models.py:53 | every session listed exactly once, in ascending (date, start) order of its slot |
| Models.EarlierSessionListedFirst | appointment_booking_project/coach_app/tests.py:59-69 | a session created later on an earlier slot is listed first |
| Models.Store.CreateSlot | appointment_booking_project/coach_app/models.py:33 | inserting an existing (date, start) fails and changes nothing; otherwise one available slot is appended; the invariant is kept |
| Models.Store.CreateSession | appointment_booking_project/coach_app/models.py:45-46 | a session is appended exactly when its slot and client exist and the slot has no session; otherwise an integrity error and no change |
| Models.Store.SetAvailability | appointment_booking_project/coach_app/forms.py:66-67 | only the flag of the one slot changes |
| Models.Store.SetNotes | appointment_booking_project/coach_app/views.py:165-167 | only the notes of the one session change |
| Models.Store.CreateUser | appointment_booking_project/coach_app/models.py:6-10 | a user is appended exactly when the username is free; usernames stay unique |
| OrderBy.Filter | appointment_booking_project/coach_app/views.py:69-98 | keeps exactly the occurrences that satisfy the condition |
| OrderBy.SortBy | appointment_booking_project/coach_app/views.py:105-110 | the result is a permutation of the input, ordered by the key ascending or descending |
| Forms.SelectableSlots | appointment_booking_project/coach_app/forms.py:22-25 | the choices are exactly the available slots dated today or later, each once, in slot order |
| Forms.CheckTimeslot | appointment_booking_project/coach_app/forms.py:26-60 | accepts exactly an available slot inside working hours with no conflicting session, and returns that slot |
| Forms.CheckTimeslotOutcomes | appointment_booking_project/coach_app/forms.py:26-60 | hours error iff start < 09:00 or ≥ 18:00 (whatever the flag or neighbours); booked error iff in hours and unavailable; gap error iff in hours, available and some other-slot session on the same date starts within ±10 minutes inclusive; acceptance returns the slot unchanged |
| Forms.IrrelevantSessionIgnored | appointment_booking_project/coach_app/forms.py:45-49 | adding a session on another date, or one booked on the slot itself, never changes the verdict |
| Forms.EmptyDayAccepts | appointment_booking_project/coach_app/forms.py:51-60 | with no sessions, an available in-hours slot is accepted |
| Forms.GapWindowIsClosed | appointment_booking_project/coach_app/forms.py:40-58 | with a session at 10:00, slots at 09:50 and 10:10 are refused and slots at 09:49 and 10:11 accepted |
| Forms.CleanTimeslot | appointment_booking_project/coach_app/forms.py:26-60 | the checks in order, then the scan that stops at the first same-date session in the window, decide exactly what `CheckTimeslot` decides |
| Forms.CleanChoice | appointment_booking_project/coach_app/forms.py:15-60 | required if missing; invalid choice iff not in the queryset; otherwise `clean_timeslot`'s error; only a choice that passes both is checked for uniqueness, refused iff the slot already has a session (the one-to-one `timeslot`, models.py:46); a listed choice that fails `clean_timeslot` reports exactly that error; accepted iff all pass, returning the chosen slot |
| Forms.CleanSubject | appointment_booking_project/coach_app/models.py:47 | accepted iff 1 to 255 characters; required error exactly for the empty subject |
| Forms.ValidateSessionForm | appointment_booking_project/coach_app/forms.py:12-60 | the form is valid iff the choice is a listed slot that passes `clean_timeslot` and has no session, and the subject has 1 to 255 characters; an invalid form reports for each field exactly that field's own error, or none |
| Forms.IsValid | appointment_booking_project/coach_app/forms.py:19-60 | the form as run, with the scanning `clean_timeslot` and the uniqueness check, computes exactly `ValidateSessionForm` |
| Forms.Save | appointment_booking_project/coach_app/forms.py:63-70 | the corrected save, which takes the client: the chosen slot becomes unavailable even without `commit`, and no other slot changes; with `commit` exactly one session for that slot and client is appended, unless the database refuses it |
| Forms.SaveAsWritten | appointment_booking_project/coach_app/forms.py:63-70 | save as written: the slot is marked booked; without `commit` an unsaved session with no client is returned; with `commit` the insert is refused (no client), so no session is stored and the slot stays booked |
| Forms.AsWrittenSaveLosesSlot | appointment_booking_project/coach_app/forms.py:63-70 | after save as written on a slot the form accepted, no session holds the slot and the form refuses it to every later booking |
| Forms.BookingBlocksNeighbours | appointment_booking_project/coach_app/forms.py:35-69 | after a committed booking, that slot is refused as booked and every available in-hours slot on the same date within ±10 minutes is refused by the gap rule |
| Admin.GridShape | appointment_booking_project/coach_app/admin.py:12-19 | the grid runs from 09:00 to 17:30 in strictly ascending 30-minute steps, all inside working hours, and holds every such step |
| Admin.LimitedTimeChoices | appointment_booking_project/coach_app/admin.py:9-21 | exactly 18 choices, the k-th being ("HH:MM:SS", "HH:MM") of 09:00 + 30k |
| Admin.FormatHm | appointment_booking_project/coach_app/admin.py:18 | five characters `HH:MM` whose digit pairs are the hour and the minute |
| Admin.FormatHms | appointment_booking_project/coach_app/admin.py:18 | the `HH:MM` formatting followed by `:00` |
| Admin.ParseTime | appointment_booking_project/coach_app/admin.py:31 | reads `HH:MM:SS` and `HH:MM` inputs; whatever it accepts is the formatting of the time it returns |
| Admin.ParseFormat | appointment_booking_project/coach_app/admin.py:18 | every time formatted either way reads back as itself |
| Admin.ChoiceValuesAreGridTimes | appointment_booking_project/coach_app/admin.py:12-38 | every choice value reads back as its grid time, passes `clean_start_time`, and differs from every other choice value |
| Admin.CleanStartTime | appointment_booking_project/coach_app/admin.py:34-38 | accepts t iff 09:00 ≤ t < 18:00, returning t unchanged |
| Admin.SelectedDates | appointment_booking_project/coach_app/admin.py:42-43 | the date of each selected slot, in order |
| Admin.FillDay | appointment_booking_project/coach_app/admin.py:50-57 | handling k grid times of a day keeps the existing slots as a prefix and appends at most k |
| Admin.FillDates | appointment_booking_project/coach_app/admin.py:42-57 | handling the dates in turn keeps the existing slots as a prefix |
| Admin.FillDayExtends | appointment_booking_project/coach_app/admin.py:50-57 | one day's pass only appends, at most 18 slots, all available, on that date and at grid times |
| Admin.FillDayUnique | appointment_booking_project/coach_app/admin.py:54-55 | one day's pass keeps (date, start) unique |
| Admin.FillDayKeeps | appointment_booking_project/coach_app/admin.py:54-55 | every (date, start) present before a day's pass is present after it |
| Admin.FillDayCovers | appointment_booking_project/coach_app/admin.py:50-57 | after a day's pass the date has a slot at every grid time handled |
| Admin.FillDayNoop | appointment_booking_project/coach_app/admin.py:54-55 | a day that already has its grid is left as it is |
| Admin.FillDatesExtends | appointment_booking_project/coach_app/admin.py:42-57 | existing slots and their flags are untouched; new slots are available, on selected dates, at grid times, at most 18 times the number of distinct selected dates in all |
| Admin.FillDatesUnique | appointment_booking_project/coach_app/admin.py:54-55 | the action never creates a duplicate (date, start) |
| Admin.FillDatesCovers | appointment_booking_project/coach_app/admin.py:42-57 | afterwards every selected date has a slot at 09:00, 09:30, …, 17:30 |
| Admin.FillDatesNoop | appointment_booking_project/coach_app/admin.py:54-55 | when every selected date already has its grid, nothing is added |
| Admin.GenerateIsIdempotent | appointment_booking_project/coach_app/admin.py:54-55 | running the action twice on the same dates equals running it once |
| Admin.GenerateDay | appointment_booking_project/coach_app/admin.py:47-57 | the inner while loop computes exactly one day's pass and keeps the store invariant |
| Admin.GenerateTimeslots | appointment_booking_project/coach_app/admin.py:41-57 | the action computes exactly the fold `FillDates` over the selected dates, leaves sessions and users alone and keeps the store invariant |
| Views.DuplicateCheckAsWritten | appointment_booking_project/coach_app/views.py:43-47 | the checks as written: username taken first, then any user with exactly that e-mail, a blank one included |
| Views.AsWrittenSignupTestFails | appointment_booking_project/coach_app/tests_views.py:39-46 | in the sign-up test's store (users without e-mail), the checks as written refuse the POST as a duplicate e-mail, while the corrected check lets it register |
| Views.Signup | appointment_booking_project/coach_app/views.py:36-57 | with the corrected e-mail check: the username check precedes the e-mail check; a non-coach user is created iff a valid POST has a free username and an e-mail no one else has (blank e-mails clash with nobody); otherwise nothing changes |
| Views.UpcomingIsNotPast | appointment_booking_project/coach_app/views.py:70-78 | past is exactly not upcoming, and upcoming means starting at or after the current instant |
| Views.UpcomingSessions | appointment_booking_project/coach_app/views.py:68-107 | exactly the visible sessions with date > today, or date = today and start ≥ now, each once, ascending by (date, start) |
| Views.PastSessions | appointment_booking_project/coach_app/views.py:68-110 | exactly the visible sessions with date < today, or date = today and start < now, each once, descending by (date, start) |
| Views.Dashboard | appointment_booking_project/coach_app/views.py:63-112 | coaches and superusers get the coach template; the upcoming list holds exactly the visible upcoming sessions, once each, ascending, and the past list exactly the visible past ones, once each, descending |
| Views.DashboardPartitions | appointment_booking_project/coach_app/views.py:68-98 | every visible session is in exactly one list; a client's dashboard holds no session of another client |
| Views.TodaySplitsAtNow | appointment_booking_project/coach_app/views.py:70-98 | for any viewer and any session they see dated today: started before now means past only; starting now or later means upcoming only |
| Views.MakeAppointment | appointment_booking_project/coach_app/views.py:118-131 | with the corrected call to save: GET or an invalid form changes nothing; a valid POST books the slot and appends exactly one session for the requesting user |
| Views.EditNotes | appointment_booking_project/coach_app/views.py:157-173 | an unknown id is not-found before any permission check; a non-coach is refused even as superuser; only a coach's POST changes exactly that session's notes |
| Views.MakeAppointmentAsWritten | appointment_booking_project/coach_app/views.py:118-131 | as written: it changes nothing in the store; a valid POST fails in the call to save, and only then |
| Views.AsWrittenBookingTestFails | appointment_booking_project/coach_app/tests_views.py:78-91 | in the booking test's store the form is valid, so the view as written fails instead of booking |

## Left out

- Concurrency: no locking or transaction exists in the code. Two simultaneous
  bookings of one slot are not modelled.
- Deletion is left out. The admin's delete views and `delete_selected` action are
  not modelled, nor the cascade that deletes a slot's session with the slot
  (models.py:45-46).
- Wall clock and time zones: "today", "now" and `created_at` are parameters. `now`
  is the time of day rounded up to a whole minute.
- Seconds and microseconds of `TimeField` values are not modelled: slot times have
  minute resolution.
- Admin.ParseTime: refuses seconds other than `00`, the microseconds format and
  one-digit hours or minutes, all of which Django's time field accepts.
- Python's date range (years 1 to 9999) is not modelled: dates are unbounded
  integers.
- Authentication: `login_required`, `login`, the login and logout views and
  anonymous requests are left out. Every request comes from an existing user.
- Templates, `messages`, redirects and HTTP status codes are left out. Each view
  returns a response value instead.
- Views.Signup: the checks of Django's user creation form are a `formValid` input
  rather than a model. Those include passwords and username characters. They also
  include the form's own unique-username check, which is case-insensitive since
  Django 4.2. So for a real form the view's username check never fires. The model
  keeps `formValid` a free input, and the contract covers that branch too.
- Forms.CleanSubject: the subject is not stripped of surrounding whitespace, as
  Django's form `CharField` does before its checks. A subject containing the null
  character U+0000 is accepted, where Django's form field refuses it.
- Views.EditNotes: stores the posted notes as given. Django's form field strips
  surrounding whitespace from them first. It also refuses notes that contain the
  null character U+0000, and then nothing is saved. The model has no refusal of
  the notes form: every coach's POST saves.
- Only the status word of `TimeSlot.__str__` is modelled. The date and time
  formatting of `__str__`, and `Session.__str__` and `CustomUser.__str__`, are left
  out.
- `home` and `timeslot_calendar_view` only render pages, so they are left out.
  `CustomUserCreationForm`, `DateSelectionForm` and `CoachNotesForm` are field
  declarations.
- The admin's unique check on a hand-added slot comes from Django. It is
  represented only by the store's refusal of a duplicate in `CreateSlot`.
- The chatbot and REST API packages are left out. They are calls to an external
  language model and serializer glue.

## Findings

| source | as written | input that shows it | evidently intended | confidence | as-written member | corrected member |
|---|---|---|---|---|---|---|
| appointment_booking_project/coach_app/views.py:123 | `make_appointment` calls `form.save(client=request.user)`, but `SessionForm.save` (forms.py:63) accepts only `commit`. A valid booking raises an argument error before `save` runs, so no session is stored and the slot stays available. | The booking test's store (tests_views.py:9-21): one available slot at 10:00 today and no sessions, with a POST of that slot and the subject "Test Subject". | Save the booking for the requesting client. The test (tests_views.py:84-91) expects a redirect, one session whose client is the user, and the slot booked. | not executed | Views.MakeAppointmentAsWritten | Views.MakeAppointment |
| appointment_booking_project/coach_app/forms.py:63-70 | `SessionForm.save` never sets `client`, which is not a form field. A committed save marks the slot booked and saves it, and then the session insert is refused by the NOT NULL `client` column. The slot is left booked with no session. | Any valid form saved with `form.save()`, such as the booking test's POST. | Save the session for the booking client, the one views.py:123 passes. | not executed | Forms.SaveAsWritten | Forms.Save |
| appointment_booking_project/coach_app/views.py:45 | `signup` refuses any e-mail that some user already has, compared exactly, a blank one included. The e-mail field is optional, and users made by `create_user` have a blank e-mail. | The sign-up test (tests_views.py:39-46): the POST has no e-mail, while both users of the setup (tests_views.py:11-16) have a blank one. | A blank e-mail clashes with nobody. The test expects the new user to be created. | not executed | Views.DuplicateCheckAsWritten | Views.Signup |

`Views.AsWrittenBookingTestFails`, `Forms.AsWrittenSaveLosesSlot` and
`Views.AsWrittenSignupTestFails` show the inputs of the three rows.
