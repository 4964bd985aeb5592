/**
 * The posting-date filter: is a listing's free-form date inside July 2025,
 * both ends inclusive?
 *
 * The permissive date parser is a foreign library; it enters the model as the
 * function `parse`, which gives the calendar date of a string (time of day and
 * time zone already dropped) or None when the string does not parse.
 */
module DateWindow {
  import opened Payload

  datatype Date = Date(year: int, month: int, day: int)

  const WIN_START: Date := Date(2025, 7, 1)
  const WIN_END: Date := Date(2025, 7, 31)

  /** Calendar order: by year, then month, then day. */
  predicate DateLe(a: Date, b: Date)
  {
    a.year < b.year ||
    (a.year == b.year && (a.month < b.month || (a.month == b.month && a.day <= b.day)))
  }

  /** `WIN_START <= d <= WIN_END`. */
  predicate InWindow(d: Date)
    ensures InWindow(d) ==> d.year == 2025 && d.month == 7
  {
    DateLe(WIN_START, d) && DateLe(d, WIN_END)
  }

  /** The window is exactly the days 1 to 31 of July 2025. */
  lemma InWindowIsJuly2025(d: Date)
    ensures InWindow(d) <==> d.year == 2025 && d.month == 7 && 1 <= d.day <= 31
  {
  }

  /**
   * `in_july_2025`: false for a missing or empty string and for one that does not
   * parse; otherwise whether the parsed date lies in the window.
   */
  function InJuly2025(dstr: Option<string>, parse: string -> Option<Date>): (r: bool)
    ensures r <==> dstr.Some? && dstr.value != "" && parse(dstr.value).Some? &&
                   parse(dstr.value).value.year == 2025 && parse(dstr.value).value.month == 7 &&
                   1 <= parse(dstr.value).value.day <= 31
    ensures dstr.None? || dstr == Some("") ==> !r
  {
    match dstr
    case None => false
    case Some(s) =>
      if s == "" then false
      else
        match parse(s)
        case None => false
        case Some(d) => InWindowIsJuly2025(d); InWindow(d)
  }

  /** Both ends of the window are inside it; the days just outside are not. */
  lemma WindowBoundaries(s: string, parse: string -> Option<Date>)
    requires s != ""
    ensures parse(s) == Some(Date(2025, 7, 1)) ==> InJuly2025(Some(s), parse)
    ensures parse(s) == Some(Date(2025, 7, 31)) ==> InJuly2025(Some(s), parse)
    ensures parse(s) == Some(Date(2025, 6, 30)) ==> !InJuly2025(Some(s), parse)
    ensures parse(s) == Some(Date(2025, 8, 1)) ==> !InJuly2025(Some(s), parse)
    ensures parse(s) == None ==> !InJuly2025(Some(s), parse)
  {
  }
}
