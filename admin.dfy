/** The coach's admin tools (coach_app/admin.py): the list of start times offered
    when a slot is added by hand, the check on a hand-entered start time, and the
    action that fills the selected dates with the day's 30-minute grid of slots. */
module Admin {
  import opened Wrappers
  import opened Times
  import opened Models
  import opened Forms

  /** The working day holds 18 slots of 30 minutes. */
  const GridSize: nat := 18

  /** The start of the `k`-th slot of the day: 09:00, 09:30, ..., 17:30. */
  function GridTime(k: nat): TimeOfDay
    requires k < GridSize
  {
    Opening + SlotLength * k
  }

  ghost predicate OnGrid(t: int)
  {
    exists k :: 0 <= k < GridSize && GridTime(k) == t
  }

  /** The grid starts at opening time, steps by 30 minutes, stays inside working
      hours, and holds every working-hours time that is a whole number of slots
      after opening. */
  lemma GridShape()
    ensures GridTime(0) == 540 && GridTime(GridSize - 1) == 1050
    ensures forall k :: 0 <= k < GridSize - 1 ==> GridTime(k + 1) == GridTime(k) + 30
    ensures forall k, l :: 0 <= k < l < GridSize ==> GridTime(k) < GridTime(l)
    ensures forall k :: 0 <= k < GridSize ==> InWorkingHours(GridTime(k))
    ensures forall t :: InWorkingHours(t) && (t - 540) % 30 == 0 ==> OnGrid(t)
  {
    forall t | InWorkingHours(t) && (t - 540) % 30 == 0 ensures OnGrid(t) {
      var k := (t - 540) / 30;
      assert GridTime(k) == t;
    }
  }

  function Digit(n: int): char
    requires 0 <= n < 10
  {
    ('0' as int + n) as char
  }

  function DigitValue(c: char): int
  {
    c as int - '0' as int
  }

  predicate IsDigit(c: char)
  {
    '0' <= c <= '9'
  }

  function TwoDigits(n: int): (s: string)
    requires 0 <= n < 100
    ensures |s| == 2 && IsDigit(s[0]) && IsDigit(s[1])
    ensures DigitValue(s[0]) * 10 + DigitValue(s[1]) == n
  {
    [Digit(n / 10), Digit(n % 10)]
  }

  /** Two digit characters read back as the number they spell. */
  lemma TwoDigitsOfDigits(a: char, b: char)
    requires IsDigit(a) && IsDigit(b)
    ensures TwoDigits(DigitValue(a) * 10 + DigitValue(b)) == [a, b]
  {
  }

  /** `t.strftime('%H:%M')`: the hour and the minute, two digits each. */
  function FormatHm(t: TimeOfDay): (s: string)
    ensures |s| == 5 && s[2] == ':'
    ensures IsDigit(s[0]) && IsDigit(s[1]) && IsDigit(s[3]) && IsDigit(s[4])
    ensures DigitValue(s[0]) * 10 + DigitValue(s[1]) == t / 60
    ensures DigitValue(s[3]) * 10 + DigitValue(s[4]) == t % 60
  {
    TwoDigits(t / 60) + ":" + TwoDigits(t % 60)
  }

  /** `t.strftime('%H:%M:%S')`; times have no seconds, so the seconds are `00`. */
  function FormatHms(t: TimeOfDay): (s: string)
    ensures |s| == 8 && s[..5] == FormatHm(t) && s[5..] == ":00"
  {
    FormatHm(t) + ":00"
  }

  /** The first five characters of an accepted input are the `%H:%M` formatting of
      the time they spell. */
  lemma ReadBack(s: string)
    requires |s| >= 5 && s[2] == ':' && IsDigit(s[0]) && IsDigit(s[1]) && IsDigit(s[3]) && IsDigit(s[4])
    requires DigitValue(s[0]) * 10 + DigitValue(s[1]) < 24 && DigitValue(s[3]) * 10 + DigitValue(s[4]) < 60
    ensures s[..5] == FormatHm(Clock(DigitValue(s[0]) * 10 + DigitValue(s[1]), DigitValue(s[3]) * 10 + DigitValue(s[4])))
  {
    var h, m := DigitValue(s[0]) * 10 + DigitValue(s[1]), DigitValue(s[3]) * 10 + DigitValue(s[4]);
    var t := Clock(h, m);
    TwoDigitsOfDigits(s[0], s[1]);
    TwoDigitsOfDigits(s[3], s[4]);
    assert FormatHm(t) == TwoDigits(h) + ":" + TwoDigits(m);
    assert s[..5] == [s[0], s[1]] + ":" + [s[3], s[4]];
  }

  /** Reading a time field's input, in the formats `HH:MM:SS` and `HH:MM` that the
      form's time field accepts. Seconds other than `00` are refused, since times
      have minute resolution. Whatever is accepted is the formatting of the time read. */
  function ParseTime(s: string): (r: Option<TimeOfDay>)
    ensures r.Some? ==> s == FormatHms(r.value) || s == FormatHm(r.value)
  {
    if (|s| == 5 || (|s| == 8 && s[5] == ':' && s[6..] == "00")) && s[2] == ':'
       && IsDigit(s[0]) && IsDigit(s[1]) && IsDigit(s[3]) && IsDigit(s[4]) then
      var h, m := DigitValue(s[0]) * 10 + DigitValue(s[1]), DigitValue(s[3]) * 10 + DigitValue(s[4]);
      if h < 24 && m < 60 then
        ReadBack(s);
        assert |s| == 8 ==> s == s[..5] + s[5..] && s[5..] == ":00";
        Some(Clock(h, m))
      else None
    else None
  }

  /** Every formatted time reads back as itself, in both formats. */
  lemma ParseFormat(t: TimeOfDay)
    ensures ParseTime(FormatHms(t)) == Some(t)
    ensures ParseTime(FormatHm(t)) == Some(t)
  {
    var s := FormatHms(t);
    assert s[..2] == TwoDigits(t / 60) && s[3..5] == TwoDigits(t % 60);
    assert s[6..] == "00";
  }

  /** `LimitedTimeSelect`: one (value, label) choice for each 30 minutes from 09:00
      until 18:00, built by stepping a datetime. `strptime` without a date gives
      the date 1900-01-01, which plays no part; any day number does. */
  method LimitedTimeChoices() returns (choices: seq<(string, string)>)
    ensures |choices| == GridSize
    ensures forall k :: 0 <= k < GridSize ==> choices[k] == (FormatHms(GridTime(k)), FormatHm(GridTime(k)))
  {
    var day := 0;
    choices := [];
    var start, end := Instant(day, Opening), Instant(day, Closing);
    var current := start;
    while current < end
      invariant current == start + SlotLength * |choices| && |choices| <= GridSize
      invariant forall k :: 0 <= k < |choices| ==> choices[k] == (FormatHms(GridTime(k)), FormatHm(GridTime(k)))
    {
      InstantSplit(day, GridTime(|choices|));
      var t := TimeOf(current);
      choices := choices + [(FormatHms(t), FormatHm(t))];
      current := current + SlotLength;
    }
  }

  /** The choice values are distinct, read back as the grid times, and each one is
      accepted by `clean_start_time`. */
  lemma ChoiceValuesAreGridTimes()
    ensures forall k :: 0 <= k < GridSize ==>
              ParseTime(FormatHms(GridTime(k))) == Some(GridTime(k)) && CleanStartTime(GridTime(k)) == Ok(GridTime(k))
    ensures forall k, l :: 0 <= k < l < GridSize ==> FormatHms(GridTime(k)) != FormatHms(GridTime(l))
  {
    GridShape();
    forall k | 0 <= k < GridSize
      ensures ParseTime(FormatHms(GridTime(k))) == Some(GridTime(k))
    {
      ParseFormat(GridTime(k));
    }
  }

  datatype AdminError = StartOutsideWorkingHours

  /** `TimeSlotAdminForm.clean_start_time` */
  function CleanStartTime(t: TimeOfDay): (r: Result<TimeOfDay, AdminError>)
    ensures r.Ok? <==> 540 <= t < 1080
    ensures r.Ok? ==> r.value == t
  {
    if t < Opening || t >= Closing then Err(StartOutsideWorkingHours) else Ok(t)
  }

  /** One step of the action: create the slot unless the (date, start) exists. */
  function AddIfAbsent(slots: seq<Slot>, date: int, start: TimeOfDay): seq<Slot>
  {
    if FindSlot(slots, date, start).Some? then slots else slots + [NewSlot(date, start)]
  }

  /** The slots after the first `k` grid times of `date` have been handled. */
  function FillDay(slots: seq<Slot>, date: int, k: nat): (r: seq<Slot>)
    requires k <= GridSize
    ensures |slots| <= |r| <= |slots| + k && r[..|slots|] == slots
  {
    if k == 0 then slots
    else
      var prev := FillDay(slots, date, k - 1);
      assert (prev + [NewSlot(date, GridTime(k - 1))])[..|slots|] == prev[..|slots|];
      AddIfAbsent(prev, date, GridTime(k - 1))
  }

  /** The slots after each date of `dates` has been handled in turn. */
  function FillDates(slots: seq<Slot>, dates: seq<int>): (r: seq<Slot>)
    ensures |slots| <= |r| && r[..|slots|] == slots
  {
    if dates == [] then slots
    else
      var prev := FillDates(slots, dates[..|dates| - 1]);
      var r := FillDay(prev, dates[|dates| - 1], GridSize);
      assert r[..|slots|] == r[..|prev|][..|slots|];
      r
  }

  /** The date of each selected slot, in the queryset's order. */
  function SelectedDates(slots: seq<Slot>, selected: seq<SlotId>): (dates: seq<int>)
    requires forall i :: 0 <= i < |selected| ==> selected[i] < |slots|
    ensures |dates| == |selected|
    ensures forall i :: 0 <= i < |selected| ==> dates[i] == slots[selected[i]].date
  {
    if selected == [] then [] else [slots[selected[0]].date] + SelectedDates(slots, selected[1..])
  }

  /** Slots created by the action: appended after the existing ones. */
  ghost predicate Extends(before: seq<Slot>, after: seq<Slot>, dates: set<int>, bound: nat)
  {
    && |before| <= |after| <= |before| + bound
    && after[..|before|] == before
    && forall i :: |before| <= i < |after| ==>
         after[i].date in dates && after[i].isAvailable && OnGrid(after[i].start)
  }

  lemma {:induction false} FillDayExtends(slots: seq<Slot>, date: int, k: nat)
    requires k <= GridSize
    ensures Extends(slots, FillDay(slots, date, k), {date}, k)
  {
    if k > 0 {
      FillDayExtends(slots, date, k - 1);
      var prev := FillDay(slots, date, k - 1);
      assert OnGrid(GridTime(k - 1));
      if FindSlot(prev, date, GridTime(k - 1)).None? {
        var r := prev + [NewSlot(date, GridTime(k - 1))];
        assert r[..|slots|] == prev[..|slots|];
      }
    }
  }

  lemma {:induction false} FillDayUnique(slots: seq<Slot>, date: int, k: nat)
    requires k <= GridSize
    requires UniqueDateStart(slots)
    ensures UniqueDateStart(FillDay(slots, date, k))
  {
    if k > 0 {
      FillDayUnique(slots, date, k - 1);
    }
  }

  /** Handling a day keeps every (date, start) that was there before. */
  lemma {:induction false} FillDayKeeps(slots: seq<Slot>, date: int, k: nat, d: int, t: int)
    requires k <= GridSize
    requires HasSlot(slots, d, t)
    ensures HasSlot(FillDay(slots, date, k), d, t)
  {
    FillDayExtends(slots, date, k);
    var r := FillDay(slots, date, k);
    var i :| 0 <= i < |slots| && slots[i].date == d && slots[i].start == t;
    assert r[..|slots|][i] == r[i];
  }

  lemma {:induction false} FillDayCovers(slots: seq<Slot>, date: int, k: nat)
    requires k <= GridSize
    ensures forall j :: 0 <= j < k ==> HasSlot(FillDay(slots, date, k), date, GridTime(j))
  {
    if k > 0 {
      FillDayCovers(slots, date, k - 1);
      var prev := FillDay(slots, date, k - 1);
      var r := FillDay(slots, date, k);
      assert r == AddIfAbsent(prev, date, GridTime(k - 1));
      forall j | 0 <= j < k ensures HasSlot(r, date, GridTime(j)) {
        if j < k - 1 {
          var i :| 0 <= i < |prev| && prev[i].date == date && prev[i].start == GridTime(j);
          assert r[i] == prev[i];
        } else if FindSlot(prev, date, GridTime(k - 1)).None? {
          assert r[|prev|] == NewSlot(date, GridTime(k - 1));
        }
      }
    }
  }

  lemma {:induction false} FillDayNoop(slots: seq<Slot>, date: int, k: nat)
    requires k <= GridSize
    requires forall j :: 0 <= j < k ==> HasSlot(slots, date, GridTime(j))
    ensures FillDay(slots, date, k) == slots
  {
    if k > 0 {
      FillDayNoop(slots, date, k - 1);
    }
  }

  ghost function DateSet(dates: seq<int>): set<int>
  {
    set i | 0 <= i < |dates| :: dates[i]
  }

  lemma ExtendsTransitive(a: seq<Slot>, b: seq<Slot>, c: seq<Slot>, d1: set<int>, d2: set<int>, n1: nat, n2: nat)
    requires Extends(a, b, d1, n1) && Extends(b, c, d2, n2)
    ensures Extends(a, c, d1 + d2, n1 + n2)
  {
    assert c[..|a|] == c[..|b|][..|a|];
    forall i | |a| <= i < |c|
      ensures c[i].date in d1 + d2 && c[i].isAvailable && OnGrid(c[i].start)
    {
      if i < |b| {
        assert c[..|b|][i] == c[i];
      }
    }
  }

  /** The action only appends, on selected dates, available slots at grid times,
      at most `GridSize` for each distinct date. */
  lemma {:induction false} FillDatesExtends(slots: seq<Slot>, dates: seq<int>)
    ensures Extends(slots, FillDates(slots, dates), DateSet(dates), GridSize * |DateSet(dates)|)
  {
    if dates != [] {
      var pre, d := dates[..|dates| - 1], dates[|dates| - 1];
      FillDatesExtends(slots, pre);
      var mid := FillDates(slots, pre);
      assert DateSet(dates) == DateSet(pre) + {d} by {
        assert forall i :: 0 <= i < |pre| ==> pre[i] == dates[i];
      }
      if d in DateSet(pre) {
        FillDatesCovers(slots, pre);
        FillDayNoop(mid, d, GridSize);
      } else {
        FillDayExtends(mid, d, GridSize);
        ExtendsTransitive(slots, mid, FillDates(slots, dates), DateSet(pre), {d}, GridSize * |DateSet(pre)|, GridSize);
      }
    }
  }

  lemma {:induction false} FillDatesUnique(slots: seq<Slot>, dates: seq<int>)
    requires UniqueDateStart(slots)
    ensures UniqueDateStart(FillDates(slots, dates))
  {
    if dates != [] {
      FillDatesUnique(slots, dates[..|dates| - 1]);
      FillDayUnique(FillDates(slots, dates[..|dates| - 1]), dates[|dates| - 1], GridSize);
    }
  }

  /** After the action every selected date has a slot at every grid time. */
  lemma {:induction false} FillDatesCovers(slots: seq<Slot>, dates: seq<int>)
    ensures forall i, j :: 0 <= i < |dates| && 0 <= j < GridSize ==> HasSlot(FillDates(slots, dates), dates[i], GridTime(j))
  {
    if dates != [] {
      var pre, d := dates[..|dates| - 1], dates[|dates| - 1];
      FillDatesCovers(slots, pre);
      var mid := FillDates(slots, pre);
      FillDayCovers(mid, d, GridSize);
      forall i, j | 0 <= i < |dates| - 1 && 0 <= j < GridSize
        ensures HasSlot(FillDates(slots, dates), dates[i], GridTime(j))
      {
        assert dates[i] == pre[i];
        FillDayKeeps(mid, d, GridSize, dates[i], GridTime(j));
      }
    }
  }

  /** When every selected date already has its full grid, the action adds nothing. */
  lemma {:induction false} FillDatesNoop(slots: seq<Slot>, dates: seq<int>)
    requires forall i, j :: 0 <= i < |dates| && 0 <= j < GridSize ==> HasSlot(slots, dates[i], GridTime(j))
    ensures FillDates(slots, dates) == slots
  {
    if dates != [] {
      var pre, d := dates[..|dates| - 1], dates[|dates| - 1];
      assert forall i :: 0 <= i < |pre| ==> pre[i] == dates[i];
      FillDatesNoop(slots, pre);
      FillDayNoop(slots, d, GridSize);
    }
  }

  /** Running the action twice on the same dates gives what running it once gives. */
  lemma GenerateIsIdempotent(slots: seq<Slot>, dates: seq<int>)
    ensures FillDates(FillDates(slots, dates), dates) == FillDates(slots, dates)
  {
    FillDatesCovers(slots, dates);
    FillDatesNoop(FillDates(slots, dates), dates);
  }

  /** The inner loop of `generate_timeslots`: step through the day's grid and
      create each slot that does not exist yet. */
  method GenerateDay(db: Store, selectedDate: int)
    requires db.Valid()
    modifies db
    ensures db.Valid()
    ensures db.slots == FillDay(old(db.slots), selectedDate, GridSize)
    ensures db.sessions == old(db.sessions) && db.users == old(db.users)
  {
    var currentTime := Instant(selectedDate, Opening);
    var endInstant := Instant(selectedDate, Closing);
    ghost var k := 0;
    while currentTime < endInstant
      invariant 0 <= k <= GridSize
      invariant currentTime == Instant(selectedDate, Opening) + SlotLength * k
      invariant db.Valid()
      invariant db.slots == FillDay(old(db.slots), selectedDate, k)
      invariant db.sessions == old(db.sessions) && db.users == old(db.users)
    {
      InstantSplit(selectedDate, GridTime(k));
      var startTime := TimeOf(currentTime);
      if FindSlot(db.slots, selectedDate, startTime).None? {
        var _ := db.CreateSlot(selectedDate, startTime);
      }
      currentTime := currentTime + SlotLength;
      k := k + 1;
    }
  }

  /** One turn of the action's outer loop: the selected slot still has the date it
      had, and handling that date extends the fold by one date. */
  lemma FillDatesStep(initial: seq<Slot>, selected: seq<SlotId>, i: nat)
    requires forall j :: 0 <= j < |selected| ==> selected[j] < |initial|
    requires i < |selected|
    ensures var dates := SelectedDates(initial, selected);
            && FillDates(initial, dates[..i])[selected[i]] == initial[selected[i]]
            && FillDates(initial, dates[..i + 1]) == FillDay(FillDates(initial, dates[..i]), dates[i], GridSize)
  {
    var dates := SelectedDates(initial, selected);
    var now := FillDates(initial, dates[..i]);
    assert now[..|initial|][selected[i]] == now[selected[i]];
    assert dates[..i + 1][..i] == dates[..i];
  }

  /** The admin action `generate_timeslots` on the selected slots. */
  method GenerateTimeslots(db: Store, selected: seq<SlotId>)
    requires db.Valid()
    requires forall i :: 0 <= i < |selected| ==> selected[i] < |db.slots|
    modifies db
    ensures db.Valid()
    ensures db.slots == FillDates(old(db.slots), SelectedDates(old(db.slots), selected))
    ensures db.sessions == old(db.sessions) && db.users == old(db.users)
  {
    ghost var initial := db.slots;
    ghost var dates := SelectedDates(initial, selected);
    var i := 0;
    while i < |selected|
      invariant 0 <= i <= |selected|
      invariant db.Valid()
      invariant db.slots == FillDates(initial, dates[..i])
      invariant db.sessions == old(db.sessions) && db.users == old(db.users)
    {
      FillDatesStep(initial, selected, i);
      var selectedDate := db.slots[selected[i]].date;
      GenerateDay(db, selectedDate);
      i := i + 1;
    }
    assert dates[..|selected|] == dates;
  }
}
