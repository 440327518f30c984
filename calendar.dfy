/** `datetime.datetime(year=..., month=..., day=...)`: the observation date, at midnight. */
module Calendar {
  import opened Wrappers
  import opened Exceptions
  import opened Json

  const MinYear := 1
  const MaxYear := 9999

  /** A date and time whose time of day is 00:00:00, as `datetime(year, month, day)` builds. */
  datatype Date = Date(year: int, month: int, day: int)

  predicate IsLeapYear(year: int) {
    year % 4 == 0 && (year % 100 != 0 || year % 400 == 0)
  }

  function DaysInMonth(year: int, month: int): (n: int)
    requires 1 <= month <= 12
    ensures 28 <= n <= 31
  {
    if month == 2 then (if IsLeapYear(year) then 29 else 28)
    else if month == 4 || month == 6 || month == 9 || month == 11 then 30
    else 31
  }

  /** The dates `datetime` accepts. */
  predicate ValidDate(year: int, month: int, day: int) {
    && MinYear <= year <= MaxYear
    && 1 <= month <= 12
    && 1 <= day <= DaysInMonth(year, month)
  }

  /** The range of a C int, which `datetime` converts each argument to. */
  const IntMin := -0x8000_0000
  const IntMax := 0x7FFF_FFFF

  /** An argument `datetime` takes as an integer: an int, or a bool (a subclass of int), that
      fits a C int. */
  function AsInt(value: Json): (r: Result<int, Error>)
    ensures r.Ok? <==> (value.JInt? && IntMin <= value.i <= IntMax) || value.JBool?
    ensures r.Ok? && value.JInt? ==> r.value == value.i
    ensures !value.JInt? && !value.JBool? ==> r == Err(TypeError)
  {
    match value
    case JInt(i) => if IntMin <= i <= IntMax then Ok(i) else Err(OverflowError)
    case JBool(b) => Ok(if b then 1 else 0)
    case _ => Err(TypeError)
  }

  /** `datetime(year=year, month=month, day=day)`: all three arguments are converted to
      integers first, in order (TypeError, OverflowError), then the year, the month and the day are range-checked in
      that order (ValueError). */
  function MakeDate(year: Json, month: Json, day: Json): (r: Result<Date, Error>)
    ensures r.Ok? <==>
      && AsInt(year).Ok? && AsInt(month).Ok? && AsInt(day).Ok?
      && ValidDate(AsInt(year).value, AsInt(month).value, AsInt(day).value)
    ensures r.Ok? ==> r.value == Date(AsInt(year).value, AsInt(month).value, AsInt(day).value)
  {
    var y :- AsInt(year);
    var m :- AsInt(month);
    var d :- AsInt(day);
    if !(MinYear <= y <= MaxYear) then Err(ValueError)
    else if !(1 <= m <= 12) then Err(ValueError)
    else if !(1 <= d <= DaysInMonth(y, m)) then Err(ValueError)
    else Ok(Date(y, m, d))
  }
}
