/** The activity panel's helpers: the relative-time label of an entry and
    the cut to the ten most recent entries. */
module ActivityLog {
  import opened Text

  /** `Math.floor((now - date) / 1000)` over millisecond timestamps. The
      divisor is positive, so Dafny's Euclidean `/` is the floor here, for
      a negative difference too. */
  function DiffSeconds(nowMs: int, thenMs: int): (d: int)
    ensures d * 1000 <= nowMs - thenMs < d * 1000 + 1000
  {
    (nowMs - thenMs) / 1000
  }

  const Minute: int := 60
  const Hour: int := 3600
  const Day: int := 86400
  const Week: int := 604800

  /** A relative-time label: "Just now", "<n>m ago", "<n>h ago", "<n>d ago",
      or the calendar date for anything older. */
  datatype Label = JustNow | MinutesAgo(n: int) | HoursAgo(n: int) | DaysAgo(n: int) | CalendarDate

  /** `formatTimeAgo`, from the difference in whole seconds. */
  function FormatTimeAgo(d: int): (l: Label)
    ensures l == JustNow <==> d < Minute
    ensures l.MinutesAgo? <==> Minute <= d < Hour
    ensures l.MinutesAgo? ==> 1 <= l.n <= 59 && l.n * Minute <= d < (l.n + 1) * Minute
    ensures l.HoursAgo? <==> Hour <= d < Day
    ensures l.HoursAgo? ==> 1 <= l.n <= 23 && l.n * Hour <= d < (l.n + 1) * Hour
    ensures l.DaysAgo? <==> Day <= d < Week
    ensures l.DaysAgo? ==> 1 <= l.n <= 6 && l.n * Day <= d < (l.n + 1) * Day
    ensures l == CalendarDate <==> Week <= d
  {
    if d < Minute then JustNow
    else if d < Hour then MinutesAgo(d / Minute)
    else if d < Day then HoursAgo(d / Hour)
    else if d < Week then DaysAgo(d / Day)
    else CalendarDate
  }

  /** The unit a label counts in, from the finest. */
  function Bucket(l: Label): nat {
    match l
    case JustNow => 0
    case MinutesAgo(_) => 1
    case HoursAgo(_) => 2
    case DaysAgo(_) => 3
    case CalendarDate => 4
  }

  /** `a` reads as no older than `b`. */
  predicate NoOlder(a: Label, b: Label) {
    Bucket(a) < Bucket(b)
    || (Bucket(a) == Bucket(b) && ((a.MinutesAgo? || a.HoursAgo? || a.DaysAgo?) ==> a.n <= b.n))
  }

  /** An older entry never gets a younger-sounding label. */
  lemma FormatMonotone(d: int, d': int)
    requires d <= d'
    ensures NoOlder(FormatTimeAgo(d), FormatTimeAgo(d'))
  {
  }

  /** The panel renders the first ten entries, in the order given. */
  function Recent<T>(entries: seq<T>): (r: seq<T>)
    ensures |r| <= 10 && |r| <= |entries|
    ensures r == entries[..|r|]
    ensures |entries| <= 10 ==> r == entries
    ensures |entries| >= 10 ==> |r| == 10
  {
    Take(entries, 10)
  }
}
