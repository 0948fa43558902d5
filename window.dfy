/** The strip of seven selectable days above the list (`dayRow`), the week
    navigation that slides it, and the effect that keeps the selected day
    inside it. */
module Window {
  import opened Tasks

  /** `dayRow`'s keys: seven consecutive days, oldest first, the last one
      `offset` days before today. */
  function DayRow(offset: nat, today: DayKey): (r: seq<DayKey>)
    ensures |r| == 7
    ensures r[6] == today - offset
    ensures forall i :: 0 <= i < 6 ==> r[i + 1] == r[i] + 1
  {
    seq(7, i requires 0 <= i < 7 => today - (offset + (6 - i)))
  }

  /** A day is in the window exactly when it lies in its seven-day span. */
  lemma {:induction false} InDayRow(offset: nat, today: DayKey, day: DayKey)
    ensures day in DayRow(offset, today) <==> today - offset - 6 <= day <= today - offset
  {
    var r := DayRow(offset, today);
    forall i | 0 <= i < 7 ensures r[i] == today - offset - 6 + i {
      DayRowAt(offset, today, i);
    }
    if today - offset - 6 <= day <= today - offset {
      assert r[day - (today - offset - 6)] == day;
    }
  }

  lemma {:induction false} DayRowAt(offset: nat, today: DayKey, i: nat)
    requires i < 7
    ensures DayRow(offset, today)[i] == today - offset - 6 + i
    decreases 6 - i
  {
    if i < 6 {
      DayRowAt(offset, today, i + 1);
    }
  }

  /** The chart's seven days are the window at offset 0. */
  lemma {:induction false} WindowAtZeroEndsToday(today: DayKey)
    ensures today in DayRow(0, today)
    ensures forall d :: d in DayRow(0, today) ==> d <= today
  {
    forall d | d in DayRow(0, today) ensures d <= today {
      InDayRow(0, today, d);
    }
  }

  /** The "previous 7 days" button. */
  function OlderWeek(offset: nat): (r: nat)
    ensures r > offset
    ensures r % 7 == offset % 7
  {
    offset + 7
  }

  /** The "next 7 days" button, clamped so the window never reaches past today. */
  function NewerWeek(offset: nat): (r: nat)
    ensures r <= offset
    ensures offset >= 7 ==> r == offset - 7
    ensures offset < 7 ==> r == 0
  {
    if offset - 7 >= 0 then offset - 7 else 0
  }

  /** Going back a week and forward again returns to the same window; going
      forward and back does so unless the window already ended today. */
  lemma WeekNavigationInverse(offset: nat)
    ensures NewerWeek(OlderWeek(offset)) == offset
    ensures offset >= 7 ==> OlderWeek(NewerWeek(offset)) == offset
  {
  }

  /** Consecutive weeks tile the calendar: the older window ends the day before
      the newer one starts. */
  lemma {:induction false} OlderWeekIsAdjacent(offset: nat, today: DayKey)
    ensures DayRow(OlderWeek(offset), today)[6] + 1 == DayRow(offset, today)[0]
  {
    DayRowAt(offset, today, 0);
  }

  /** The selection-reset effect: a selected day outside the window moves to the
      window's most recent day; one inside stays. */
  function ResetSelection(selected: DayKey, offset: nat, today: DayKey): (r: DayKey)
    ensures r in DayRow(offset, today)
    ensures selected in DayRow(offset, today) ==> r == selected
    ensures selected !in DayRow(offset, today) ==> r == today - offset
  {
    var keys := DayRow(offset, today);
    if selected in keys then selected else keys[6]
  }

  /** Running the effect again changes nothing. */
  lemma ResetSelectionIdempotent(selected: DayKey, offset: nat, today: DayKey)
    ensures ResetSelection(ResetSelection(selected, offset, today), offset, today) == ResetSelection(selected, offset, today)
  {
  }
}
