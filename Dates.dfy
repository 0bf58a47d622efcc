/**
 * Foundation's `Date` as seconds from a fixed reference instant. Arithmetic is
 * exact: the rounding of `Double` is not modelled.
 */
module Dates {

  type Date = real

  /** `TimeInterval`: a signed span in seconds. */
  type TimeInterval = real

  /** `date.addingTimeInterval(interval)`. */
  function AddingTimeInterval(date: Date, interval: TimeInterval): Date {
    date + interval
  }

  /**
   * `Calendar.current.date(byAdding: .minute, value: minutes, to: date)`: a
   * minute is sixty seconds (no leap seconds), and the calendar never fails,
   * so the source's `?? now` fallbacks do not arise.
   */
  function AddingMinutes(date: Date, minutes: int): Date {
    AddingTimeInterval(date, (60 * minutes) as real)
  }
}
