/** The relative-time label of a card ("3 days ago", "just now"):
    elapsed whole seconds, a fixed table of unit lengths walked from the
    largest down, the first unit with a floored count of at least one. */
module TimeAgo {

  /** A row of the unit table: its name and its length in seconds. */
  datatype Unit = Unit(name: string, seconds: nat)

  /** Fixed-length units, largest first: a year is 365 days, a month 30. */
  const Intervals: seq<Unit> := [
    Unit("year", 31536000),
    Unit("month", 2592000),
    Unit("week", 604800),
    Unit("day", 86400),
    Unit("hour", 3600),
    Unit("minute", 60)
  ]

  const JustNow := "just now"

  /** Whole seconds between `updated` and `now` (both in milliseconds),
      rounded down as `Math.floor` does, also when `updated` lies ahead. */
  function ElapsedSeconds(now: int, updated: int): (r: int)
    ensures r * 1000 <= now - updated < (r + 1) * 1000
  {
    (now - updated) / 1000
  }

  /** The decimal digits of `n` without leading zeros, as a template
      literal prints a non-negative integer. */
  function Decimal(n: nat): (r: string)
    ensures |r| >= 1
    ensures forall k :: 0 <= k < |r| ==> '0' <= r[k] <= '9'
    ensures r[0] == '0' ==> n == 0
  {
    if n < 10 then [Digit(n)] else Decimal(n / 10) + [Digit(n % 10)]
  }

  function Digit(d: nat): char
    requires d < 10
  {
    (48 + d) as char
  }

  /** The value of a string of decimal digits. */
  function DigitsValue(s: string): nat
    requires forall k :: 0 <= k < |s| ==> '0' <= s[k] <= '9'
  {
    if s == [] then 0 else DigitsValue(s[..|s| - 1]) * 10 + (s[|s| - 1] as int - 48)
  }

  /** Reading back the digits that `Decimal` prints gives the count again. */
  lemma {:induction false} DecimalRoundTrip(n: nat)
    ensures DigitsValue(Decimal(n)) == n
  {
    if n >= 10 {
      var d := Decimal(n / 10) + [Digit(n % 10)];
      assert d[..|d| - 1] == Decimal(n / 10);
      DecimalRoundTrip(n / 10);
    }
  }

  /** "<count> <unit>[s] ago", with the plural "s" only above one. */
  function Phrase(count: nat, unit: string): string {
    Decimal(count) + " " + unit + (if count > 1 then "s" else "") + " ago"
  }

  /** The label chosen by walking the table from row `i` on. */
  function AgoFrom(seconds: int, i: nat): string
    requires i <= |Intervals|
    decreases |Intervals| - i
  {
    if i == |Intervals| then JustNow
    else
      var count := seconds / Intervals[i].seconds;
      if count >= 1 then Phrase(count, Intervals[i].name) else AgoFrom(seconds, i + 1)
  }

  /** The label for `seconds` elapsed seconds. */
  function Ago(seconds: int): string {
    AgoFrom(seconds, 0)
  }

  /** `timeAgo`: the loop over the unit table with its early return. */
  method TimeAgoLabel(now: int, updated: int) returns (text: string)
    ensures text == Ago(ElapsedSeconds(now, updated))
  {
    var seconds := (now - updated) / 1000;
    for i := 0 to |Intervals|
      invariant AgoFrom(seconds, i) == Ago(seconds)
    {
      var count := seconds / Intervals[i].seconds;
      if count >= 1 {
        return Phrase(count, Intervals[i].name);
      }
    }
    return JustNow;
  }

  /** The table is strictly descending and every unit is at least a minute. */
  lemma IntervalsDescending()
    ensures forall i, j :: 0 <= i < j < |Intervals| ==> Intervals[i].seconds > Intervals[j].seconds
    ensures forall i :: 0 <= i < |Intervals| ==> Intervals[i].seconds >= 60
  {
  }

  /** Rows before the first one whose unit fits are skipped. */
  lemma {:induction false} SkipShortRows(seconds: int, i: nat, k: nat)
    requires i <= k <= |Intervals|
    requires forall j :: i <= j < k ==> seconds < Intervals[j].seconds
    ensures AgoFrom(seconds, i) == AgoFrom(seconds, k)
    decreases k - i
  {
    if i < k {
      SkipShortRows(seconds, i + 1, k);
    }
  }

  /** The label names the largest unit that fits at least once, with its
      floored count; below the largest unit the count stays short of the
      next larger unit (at most 59 minutes, 23 hours, ...). */
  lemma AgoPicksLargestUnit(seconds: int, i: nat)
    requires i < |Intervals| && Intervals[i].seconds <= seconds
    requires forall j :: 0 <= j < i ==> seconds < Intervals[j].seconds
    ensures seconds / Intervals[i].seconds >= 1
    ensures i > 0 ==> seconds / Intervals[i].seconds * Intervals[i].seconds < Intervals[i - 1].seconds
    ensures Ago(seconds) == Phrase(seconds / Intervals[i].seconds, Intervals[i].name)
  {
    SkipShortRows(seconds, 0, i);
    if i > 0 {
      FlooredMultipleBelow(seconds, Intervals[i].seconds, Intervals[i - 1].seconds);
    }
  }

  lemma FlooredMultipleBelow(seconds: int, unit: nat, bound: int)
    requires 0 < unit && seconds < bound
    ensures seconds / unit * unit < bound
  {
    assert seconds == seconds / unit * unit + seconds % unit;
  }

  /** The label is "just now" exactly when less than a minute has elapsed,
      which includes a negative elapsed time. */
  lemma JustNowIffUnderAMinute(seconds: int)
    ensures Ago(seconds) == JustNow <==> seconds < 60
  {
    if seconds < 60 {
      SkipShortRows(seconds, 0, |Intervals|);
    } else {
      var i :| 0 <= i < |Intervals| && Intervals[i].seconds <= seconds &&
               forall j :: 0 <= j < i ==> seconds < Intervals[j].seconds
        by { FirstFittingRow(seconds); }
      AgoPicksLargestUnit(seconds, i);
      var p := Phrase(seconds / Intervals[i].seconds, Intervals[i].name);
      assert p[0] == Decimal(seconds / Intervals[i].seconds)[0];
      assert p[0] != JustNow[0];
    }
  }

  lemma FirstFittingRow(seconds: int)
    requires seconds >= 60
    ensures exists i :: 0 <= i < |Intervals| && Intervals[i].seconds <= seconds &&
                        forall j :: 0 <= j < i ==> seconds < Intervals[j].seconds
  {
    var i := 0;
    while Intervals[i].seconds > seconds
      invariant 0 <= i < |Intervals|
      invariant forall j :: 0 <= j < i ==> seconds < Intervals[j].seconds
      decreases |Intervals| - i
    {
      i := i + 1;
    }
  }

  /** The worked examples: 90000 s, 3599 s, 45 s and 63072000 s. */
  lemma Examples()
    ensures Ago(90000) == "1 day ago"
    ensures Ago(3599) == "59 minutes ago"
    ensures Ago(45) == "just now"
    ensures Ago(63072000) == "2 years ago"
  {
    OneDay();
    FiftyNineMinutes();
    JustNowIffUnderAMinute(45);
    TwoYears();
  }

  lemma OneDay()
    ensures Ago(90000) == "1 day ago"
  {
    AgoPicksLargestUnit(90000, 3);
    assert Phrase(1, "day") == "1 day ago";
  }

  lemma FiftyNineMinutes()
    ensures Ago(3599) == "59 minutes ago"
  {
    AgoPicksLargestUnit(3599, 5);
    assert Decimal(59) == "59";
    assert Phrase(59, "minute") == "59 minutes ago";
  }

  lemma TwoYears()
    ensures Ago(63072000) == "2 years ago"
  {
    AgoPicksLargestUnit(63072000, 0);
    assert Phrase(2, "year") == "2 years ago";
  }
}
