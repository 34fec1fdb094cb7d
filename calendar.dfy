/** Dates as the leave-request code sees them.

    A Joda `DateMidnight` is modelled as a whole day number (`Day`), and a
    `java.util.Date` or the current time as an instant in milliseconds
    (`Instant`), both counted from the same epoch in one fixed time zone. */
module Calendar {
  import opened Common

  type Day = int
  type Instant = int

  const MillisPerDay: int := 86_400_000

  /** The instant at which a day starts (`DateMidnight.toDate()`, and the
      instant compared by `isBeforeNow`/`isAfter`). */
  function StartOfDay(d: Day): Instant {
    d * MillisPerDay
  }

  /** The day that contains an instant (`new DateTime(date).toDateMidnight()`). */
  function DayOf(i: Instant): (d: Day)
    ensures StartOfDay(d) <= i < StartOfDay(d) + MillisPerDay
  {
    i / MillisPerDay
  }

  /** What a date setter of `Application` stores for a nullable day. */
  function ToStored(d: Option<Day>): (s: Option<Instant>)
    ensures s.None? <==> d.None?
  {
    match d
    case None => None
    case Some(day) => Some(StartOfDay(day))
  }

  /** What a date getter of `Application` returns for a nullable stored date. */
  function FromStored(s: Option<Instant>): (d: Option<Day>)
    ensures d.None? <==> s.None?
  {
    match s
    case None => None
    case Some(i) => Some(DayOf(i))
  }

  /** Day numbers and their start instants are ordered alike. */
  lemma StartOfDayMonotone(a: Day, b: Day)
    ensures a < b <==> StartOfDay(a) < StartOfDay(b)
  {
  }

  /** Converting a day to its start instant and back gives the same day. */
  lemma DayOfStartOfDay(d: Day)
    ensures DayOf(StartOfDay(d)) == d
  {
  }

  /** Storing a nullable day and reading it back gives it back unchanged. */
  lemma StoredRoundTrip(d: Option<Day>)
    ensures FromStored(ToStored(d)) == d
  {
  }
}
