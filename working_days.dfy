/** The due-date calculator of middleware/auth.js (`addWorkingDays`).
    A date is a whole day number counted from 1970-01-01, which was a Thursday;
    weekdays are numbered as JavaScript's `getDay()` numbers them, Sunday = 0
    to Saturday = 6. */
module WorkingDays {

  function Weekday(d: int): (w: int)
    ensures 0 <= w < 7
  {
    (d + 4) % 7
  }

  /** Monday to Friday; holidays are not considered. */
  predicate IsWorkingDay(d: int) {
    Weekday(d) != 0 && Weekday(d) != 6
  }

  lemma WeekdayStep(d: int)
    ensures Weekday(d + 1) == if Weekday(d) == 6 then 0 else Weekday(d) + 1
  {
  }

  /** The number of working days in the half-open interval (start, end]. */
  function WorkingDaysBetween(start: int, end: int): nat
    decreases end - start
  {
    if end <= start then 0
    else WorkingDaysBetween(start, end - 1) + (if IsWorkingDay(end) then 1 else 0)
  }

  /** The first working day strictly after d. */
  function NextWorkingDay(d: int): (r: int)
    ensures d < r <= d + 3 && IsWorkingDay(r)
    ensures forall k :: d < k < r ==> !IsWorkingDay(k)
  {
    WeekdayStep(d);
    WeekdayStep(d + 1);
    WeekdayStep(d + 2);
    d + (if Weekday(d) == 5 then 3 else if Weekday(d) == 6 then 2 else 1)
  }

  /** Reference definition of the due date: the n-th working day after start,
      or start itself when n <= 0. */
  function DueDate(start: int, n: int): (r: int)
    ensures start <= r
    ensures n >= 1 ==> start < r && IsWorkingDay(r)
    decreases n
  {
    if n <= 0 then start else NextWorkingDay(DueDate(start, n - 1))
  }

  /** addWorkingDays: step one calendar day at a time, counting only Monday to
      Friday, until workingDays of them have been counted. */
  method AddWorkingDays(startDate: int, workingDays: int) returns (due: int)
    ensures due == DueDate(startDate, workingDays)
    ensures workingDays <= 0 ==> due == startDate
  {
    var date := startDate;
    var addedDays := 0;
    while addedDays < workingDays
      invariant 0 <= addedDays && (addedDays <= workingDays || addedDays == 0)
      invariant DueDate(startDate, addedDays) <= date < NextWorkingDay(DueDate(startDate, addedDays))
      invariant addedDays < workingDays || date == DueDate(startDate, addedDays)
      decreases workingDays - addedDays, NextWorkingDay(DueDate(startDate, addedDays)) - date
    {
      date := date + 1;
      var day := Weekday(date);
      if day != 0 && day != 6 {
        addedDays := addedDays + 1;
      }
    }
    due := date;
  }

  lemma {:induction false} WorkingDaysBetweenMonotone(start: int, a: int, b: int)
    requires a <= b
    ensures WorkingDaysBetween(start, a) <= WorkingDaysBetween(start, b)
    decreases b - a
  {
    if a < b {
      WorkingDaysBetweenMonotone(start, a, b - 1);
    }
  }

  /** Every working day adds one to the count. */
  lemma CountGrowsAtWorkingDay(start: int, a: int, b: int)
    requires a < b && start < b && IsWorkingDay(b)
    ensures WorkingDaysBetween(start, a) < WorkingDaysBetween(start, b)
  {
    WorkingDaysBetweenMonotone(start, a, b - 1);
  }

  /** Stepping over non-working days adds nothing to the count; reaching the next
      working day adds exactly one. */
  lemma {:induction false} CountToNextWorkingDay(start: int, d: int, e: int)
    requires start <= d <= e <= NextWorkingDay(d)
    ensures WorkingDaysBetween(start, e)
         == WorkingDaysBetween(start, d) + (if e == NextWorkingDay(d) then 1 else 0)
    decreases e - d
  {
    if d < e {
      CountToNextWorkingDay(start, d, e - 1);
    }
  }

  /** Exactly n working days lie in (start, DueDate(start, n)]. */
  lemma {:induction false} DueDateCount(start: int, n: nat)
    ensures WorkingDaysBetween(start, DueDate(start, n)) == n
  {
    if n > 0 {
      var prev := DueDate(start, n - 1);
      DueDateCount(start, n - 1);
      CountToNextWorkingDay(start, prev, NextWorkingDay(prev));
    }
  }

  /** The due date is the only working day after start at which the count of
      working days reaches n. */
  lemma DueDateCharacterization(start: int, n: int, d: int)
    requires n >= 1
    ensures d == DueDate(start, n)
        <==> start < d && IsWorkingDay(d) && WorkingDaysBetween(start, d) == n
  {
    var due := DueDate(start, n);
    DueDateCount(start, n);
    if d < due {
      CountGrowsAtWorkingDay(start, d, due);
    } else if due < d && IsWorkingDay(d) {
      CountGrowsAtWorkingDay(start, due, d);
    }
  }

  /** Asking for more working days never gives an earlier due date, and for
      positive counts strictly later. */
  lemma {:induction false} DueDateMonotone(start: int, m: int, n: int)
    requires m <= n
    ensures DueDate(start, m) <= DueDate(start, n)
    ensures 0 <= m < n ==> DueDate(start, m) < DueDate(start, n)
    decreases n - m
  {
    if m < n && n > 0 {
      DueDateMonotone(start, m, n - 1);
    }
  }

  /** From a Friday, one working day is the following Monday. */
  lemma FridayPlusOne(start: int)
    requires Weekday(start) == 5
    ensures DueDate(start, 1) == start + 3 && Weekday(start + 3) == 1
  {
  }

  /** From any working day, five working days is the same weekday a week later. */
  lemma FullWeek(start: int)
    requires IsWorkingDay(start)
    ensures DueDate(start, 5) == start + 7
  {
    var d1 := DueDate(start, 1);
    var d2 := DueDate(start, 2);
    var d3 := DueDate(start, 3);
    var d4 := DueDate(start, 4);
    assert d2 == NextWorkingDay(d1) && d3 == NextWorkingDay(d2);
    assert d4 == NextWorkingDay(d3) && DueDate(start, 5) == NextWorkingDay(d4);
    WeekdayStep(start);
    WeekdayStep(start + 1);
    WeekdayStep(start + 2);
    WeekdayStep(start + 3);
    WeekdayStep(start + 4);
    WeekdayStep(start + 5);
    WeekdayStep(start + 6);
  }

  /** 2024-01-05 (day 19727) is a Friday; one working day later is Monday 2024-01-08. */
  lemma FridayJanuaryFifth()
    ensures Weekday(19727) == 5 && DueDate(19727, 1) == 19730
  {
    FridayPlusOne(19727);
  }

  /** 2024-01-01 (day 19723) is a Monday; five working days later is 2024-01-08. */
  lemma MondayJanuaryFirst()
    ensures Weekday(19723) == 1 && DueDate(19723, 5) == 19730
  {
    FullWeek(19723);
  }
}
