/** A card's age label (formatTimeAgo, app/page.tsx:85-91), with the clock
    reading `now` as a parameter. Times are whole milliseconds, so
    Math.floor of a quotient by a positive constant is Dafny's integer
    division, which also rounds toward minus infinity. */
module TimeAgo {

  import opened Wrappers
  import opened Decimal

  datatype Unit = Seconds | Minutes | Hours

  /** An age label read back: an amount and the unit its suffix names. */
  datatype Age = Age(amount: int, unit: Unit)

  function Suffix(u: Unit): char {
    match u
    case Seconds => 's'
    case Minutes => 'm'
    case Hours => 'h'
  }

  function Render(a: Age): string {
    IntToString(a.amount) + [Suffix(a.unit)]
  }

  function FormatTimeAgo(now: int, timestamp: int): (r: string)
    ensures |r| >= 2
    ensures r[|r| - 1] == 's' <==> (now - timestamp) / 1000 < 60
    ensures r[|r| - 1] == 'h' <==> (now - timestamp) / 1000 / 60 >= 60
  {
    var seconds := (now - timestamp) / 1000;
    if seconds < 60 then IntToString(seconds) + "s"
    else
      var minutes := seconds / 60;
      if minutes < 60 then IntToString(minutes) + "m"
      else IntToString(minutes / 60) + "h"
  }

  /** The age in whole elapsed units of the largest unit that still fits
      under sixty, stated on the raw millisecond difference. */
  function AgeOf(now: int, timestamp: int): Age {
    var elapsed := now - timestamp;
    if elapsed < 60000 then Age(elapsed / 1000, Seconds)
    else if elapsed < 3600000 then Age(elapsed / 60000, Minutes)
    else Age(elapsed / 3600000, Hours)
  }

  /** Reads a label back; None for text that is no label. */
  function ParseAge(s: string): Option<Age> {
    if |s| < 2 then None
    else
      var unit :=
        if s[|s| - 1] == 's' then Some(Seconds)
        else if s[|s| - 1] == 'm' then Some(Minutes)
        else if s[|s| - 1] == 'h' then Some(Hours)
        else None;
      match (unit, ParseInt(s[..|s| - 1]))
      case (Some(u), Some(n)) => Some(Age(n, u))
      case _ => None
  }

  lemma ParseRender(a: Age)
    ensures ParseAge(Render(a)) == Some(a)
  {
    var s := Render(a);
    assert s[..|s| - 1] == IntToString(a.amount);
    ParseIntToString(a.amount);
  }

  /** Flooring seconds then minutes then hours loses nothing against
      flooring the milliseconds once. */
  lemma NestedFloors(elapsed: int)
    ensures elapsed / 1000 < 60 <==> elapsed < 60000
    ensures elapsed / 1000 / 60 == elapsed / 60000
    ensures elapsed / 1000 / 60 / 60 == elapsed / 3600000
  {
  }

  /** The label is the rendering of the age, and of no other age. */
  lemma FormatTimeAgoIsAge(now: int, timestamp: int, a: Age)
    ensures FormatTimeAgo(now, timestamp) == Render(a) <==> a == AgeOf(now, timestamp)
  {
    NestedFloors(now - timestamp);
    var r := AgeOf(now, timestamp);
    assert FormatTimeAgo(now, timestamp) == Render(r);
    if FormatTimeAgo(now, timestamp) == Render(a) {
      ParseRender(a);
      ParseRender(r);
    }
  }

  /** The hour count of a label equals whole hours elapsed. */
  lemma HoursAreWholeHours(now: int, timestamp: int)
    requires (now - timestamp) / 1000 / 60 >= 60
    ensures FormatTimeAgo(now, timestamp) == IntToString((now - timestamp) / 1000 / 3600) + "h"
  {
    NestedFloors(now - timestamp);
  }
}
