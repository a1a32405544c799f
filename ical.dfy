/**
 * What the `ical` parser hands the processors: the components of a calendar
 * file in the order the parser's result object lists them, each with the
 * fields the processors read. Start times are instants in milliseconds since
 * the epoch, or an invalid date.
 */
module ICal {
  import opened Wrappers

  /** A parsed DTSTART: a valid instant, or a value `new Date` turns into NaN. */
  datatype Stamp = InvalidDate | Instant(ms: int)

  datatype Component = Component(
    isEvent: bool,
    uid: Option<string>,
    start: Option<Stamp>,
    summary: Option<string>,
    location: Option<string>)

  /** Calendar fields of an instant as some clock shows them (month 1-12). */
  datatype CivilTime = CivilTime(year: int, month: nat, day: nat, hour: nat, minute: nat, second: nat)
  {
    predicate Valid() {
      1 <= month <= 12 && 1 <= day <= 31 && hour <= 23 && minute <= 59 && second <= 59
    }
  }

  const MS_PER_MINUTE := 60000
}
