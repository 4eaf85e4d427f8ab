/** The three `formatTime` helpers, which turn the whole seconds elapsed
    since a timestamp into a short age. The sidebar list and the map marker
    use three buckets (seconds, minutes, hours); the detail panel adds a
    fourth, a calendar date, from one day on. Only the bucket and its number
    are modelled: the elapsed seconds are a parameter (the clock and the date
    parsing stay outside), and the suffix text and date formatting are left
    to the view. */
module Elapsed {

  datatype Age =
    | Seconds(n: int)
    | Minutes(n: int)
    | Hours(n: int)
    | CalendarDate

  const Minute: int := 60
  const Hour: int := 3600
  const Day: int := 86400

  /** The three-bucket age of the sidebar (`vehicle-list`) and of the map
      marker: below a minute in seconds, below an hour in whole minutes,
      otherwise in whole hours, never rounding up. */
  function ShortAge(d: int): (a: Age)
    ensures d < Minute ==> a == Seconds(d)
    ensures Minute <= d < Hour ==> a.Minutes? && 1 <= a.n <= 59
                                   && a.n * Minute <= d < (a.n + 1) * Minute
    ensures Hour <= d ==> a.Hours? && 1 <= a.n && a.n * Hour <= d < (a.n + 1) * Hour
  {
    if d < Minute then Seconds(d)
    else if d < Hour then Minutes(d / Minute)
    else Hours(d / Hour)
  }

  /** The four-bucket age of the detail panel: as the short age below one
      day, with at most 23 hours, and a calendar date from one day on. */
  function DetailAge(d: int): (a: Age)
    ensures d < Minute ==> a == Seconds(d)
    ensures Minute <= d < Hour ==> a.Minutes? && 1 <= a.n <= 59
                                   && a.n * Minute <= d < (a.n + 1) * Minute
    ensures Hour <= d < Day ==> a.Hours? && 1 <= a.n <= 23 && a.n * Hour <= d < (a.n + 1) * Hour
    ensures Day <= d <==> a.CalendarDate?
  {
    if d < Minute then Seconds(d)
    else if d < Hour then Minutes(d / Minute)
    else if d < Day then Hours(d / Hour)
    else CalendarDate
  }

  /** The detail panel and the short age agree below one day; from one day
      on the short age still counts hours. */
  lemma DetailAgreesBelowOneDay(d: int)
    ensures d < Day ==> DetailAge(d) == ShortAge(d)
    ensures Day <= d ==> ShortAge(d).Hours? && ShortAge(d).n >= 24 && DetailAge(d) == CalendarDate
  {
  }

  /** Bucket order: seconds, then minutes, then hours, then a date. */
  function BucketRank(a: Age): nat {
    match a
    case Seconds(_) => 0
    case Minutes(_) => 1
    case Hours(_) => 2
    case CalendarDate => 3
  }

  /** A later timestamp never shows a coarser bucket, nor a larger number
      in the same bucket. */
  lemma ShortAgeMonotone(d1: int, d2: int)
    requires d1 <= d2
    ensures BucketRank(ShortAge(d1)) <= BucketRank(ShortAge(d2))
    ensures BucketRank(ShortAge(d1)) == BucketRank(ShortAge(d2)) ==> ShortAge(d1).n <= ShortAge(d2).n
  {
  }
}
