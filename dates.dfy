/** The ordinal suffix of get_today_date in skills.py; the clock and the
    strftime formatting around it are not modelled. */
module Dates {

  /** "th" for 11..13, otherwise by the last digit: 1 "st", 2 "nd",
      3 "rd", anything else "th". */
  function DaySuffix(day: int): (s: string)
    ensures s == "st" || s == "nd" || s == "rd" || s == "th"
    ensures 11 <= day <= 13 ==> s == "th"
  {
    if 11 <= day <= 13 then "th"
    else
      match day % 10
      case 1 => "st"
      case 2 => "nd"
      case 3 => "rd"
      case _ => "th"
  }

  /** The English ordinal rule for the days of a month: the teens take
      "th", and so do days ending in 4..9 or 0. */
  lemma DaySuffixRule(day: int)
    requires 1 <= day <= 31
    ensures DaySuffix(day) == "st" <==> day == 1 || day == 21 || day == 31
    ensures DaySuffix(day) == "nd" <==> day == 2 || day == 22
    ensures DaySuffix(day) == "rd" <==> day == 3 || day == 23
  {
  }
}
