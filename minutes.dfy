/**
 * `df_minutos`: a list of random "hh:mm:ss" times. The random draws are a
 * parameter (one Draw per loop iteration, in order) and the list is returned
 * instead of being wrapped in a one-column DataFrame.
 */
module Minutes {
  import opened Wrappers
  import opened Formatting

  /** The three `rd.randint` results of one loop iteration. */
  datatype Draw = Draw(hour: nat, minute: nat, second: nat)

  /** `randint(0, max_m)` with `max_m < 0` raises: the range is empty. */
  datatype MinutesError = EmptyHourRange

  /** The number of times generated when `max_m` is None (line 124, `range(1, 31)`). */
  const DefaultCount: nat := 30

  /** The largest hour drawn when `max_m` is None (line 125). */
  const DefaultMaxHour: nat := 2

  /** Python truthiness of the optional count: None and 0 are both false. */
  predicate Truthy(n: Option<int>) {
    n.Some? && n.value != 0
  }

  /** How many times the loops of lines 116-129 generate. */
  function TimeCount(n: Option<int>, maxM: Option<int>): nat {
    if !Truthy(n) then 0
    else if maxM.Some? then (if n.value > 0 then n.value else 0)
    else DefaultCount
  }

  /** The hour bound passed to `randint`. */
  function MaxHour(maxM: Option<int>): int {
    if maxM.Some? then maxM.value else DefaultMaxHour
  }

  /** Line 118 raises on its first iteration when the hour range is empty. */
  predicate RaisesEmptyRange(n: Option<int>, maxM: Option<int>) {
    TimeCount(n, maxM) > 0 && MaxHour(maxM) < 0
  }

  /** `f'{hour:02d}:{minute:02d}:{second:02d}'` */
  function TimeString(d: Draw): string {
    ZeroPad(d.hour, 2) + ":" + ZeroPad(d.minute, 2) + ":" + ZeroPad(d.second, 2)
  }

  /**
   * Reads "h…h:mm:ss" back: at least two hour digits, then exactly two minute
   * digits and two second digits.
   */
  function ParseTime(t: string): Option<Draw> {
    if |t| >= 8 && t[|t| - 3] == ':' && t[|t| - 6] == ':'
       && AllDigits(t[..|t| - 6]) && AllDigits(t[|t| - 5..|t| - 3]) && AllDigits(t[|t| - 2..])
    then Some(Draw(DecimalValue(t[..|t| - 6]), DecimalValue(t[|t| - 5..|t| - 3]), DecimalValue(t[|t| - 2..])))
    else None
  }

  /** A draw `randint` can produce for the given hour bound. */
  predicate InRange(d: Draw, maxHour: int) {
    d.hour <= maxHour && d.minute <= 59 && d.second <= 59
  }

  /** A well-formed "hh:mm:ss" string with hour in 0..maxHour and minute and second in 0..59. */
  predicate IsClockTime(t: string, maxHour: int) {
    ParseTime(t).Some? && InRange(ParseTime(t).value, maxHour)
  }

  /** Formatting loses nothing: a time string parses back to its draw. */
  lemma TimeStringRoundTrip(d: Draw)
    requires d.minute < 100 && d.second < 100
    ensures ParseTime(TimeString(d)) == Some(d)
  {
    var h, m, s := ZeroPad(d.hour, 2), ZeroPad(d.minute, 2), ZeroPad(d.second, 2);
    ZeroPadWidth(d.minute, 2);
    ZeroPadWidth(d.second, 2);
    var t := TimeString(d);
    assert |h| >= 2;
    assert t[..|t| - 6] == h;
    assert t[|t| - 5..|t| - 3] == m;
    assert t[|t| - 2..] == s;
    DecimalOfZeroPad(d.hour, 2);
    DecimalOfZeroPad(d.minute, 2);
    DecimalOfZeroPad(d.second, 2);
  }

  /** Every draw in range yields a clock time within the same bounds. */
  lemma TimeStringIsClockTime(d: Draw, maxHour: int)
    requires InRange(d, maxHour)
    ensures IsClockTime(TimeString(d), maxHour)
  {
    TimeStringRoundTrip(d);
  }

  /** `df_minutos(n, max_m)` with the random draws given in order. */
  method DfMinutos(n: Option<int>, maxM: Option<int>, draws: seq<Draw>)
    returns (times: Result<seq<string>, MinutesError>)
    requires TimeCount(n, maxM) <= |draws|
    ensures times.Failure? <==> RaisesEmptyRange(n, maxM)
    ensures times.Success? ==>
              && |times.value| == TimeCount(n, maxM)
              && forall i :: 0 <= i < |times.value| ==> times.value[i] == TimeString(draws[i])
    ensures times.Success? && (forall i :: 0 <= i < TimeCount(n, maxM) ==> InRange(draws[i], MaxHour(maxM))) ==>
              forall i :: 0 <= i < |times.value| ==> IsClockTime(times.value[i], MaxHour(maxM))
  {
    var list: seq<string> := [];
    if Truthy(n) && maxM.Some? {
      var count := if n.value > 0 then n.value else 0;
      for i := 0 to count
        invariant |list| == i
        invariant 0 < i ==> 0 <= maxM.value
        invariant forall j :: 0 <= j < i ==> list[j] == TimeString(draws[j])
      {
        if maxM.value < 0 {
          return Failure(EmptyHourRange);
        }
        list := list + [TimeString(draws[i])];
      }
    } else if Truthy(n) && maxM.None? {
      for i := 1 to DefaultCount + 1
        invariant |list| == i - 1
        invariant forall j :: 0 <= j < i - 1 ==> list[j] == TimeString(draws[j])
      {
        list := list + [TimeString(draws[i - 1])];
      }
    }
    forall i | 0 <= i < |list| && InRange(draws[i], MaxHour(maxM))
      ensures IsClockTime(list[i], MaxHour(maxM))
    {
      TimeStringIsClockTime(draws[i], MaxHour(maxM));
    }
    times := Success(list);
  }
}
