/**
 * Calendar dates as the extractors hand them on. Parsing text into a date
 * (`parse_date`, `datetime.strptime`) is not modelled: extractors take the
 * parser as a function parameter.
 */
module Dates {
  import opened Wrappers

  datatype Date = Date(year: int, month: int, day: int)

  /** A date parser: the date a text denotes, or None. */
  type DateParser = string -> Option<Date>
}
