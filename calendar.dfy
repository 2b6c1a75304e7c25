/** Calendar days as ordinals, their ISO text and the dayfile key derived from it. */
module Calendar {
  import opened Errors
  import opened Digits

  /** The ordinal of 0001-01-01, the first date Python's date type holds. */
  const MinDay: int := 1
  /** The ordinal of 9999-12-31, the last date Python's date type holds. */
  const MaxDay: int := 3652059
  /** Width of the ISO text of a date; every day renders to exactly this many characters. */
  const DateWidth: nat := 7

  type Day = d: int | MinDay <= d <= MaxDay witness MinDay

  lemma DaysFitWidth()
    ensures MaxDay < Pow10(DateWidth)
  {
    assert Pow10(3) == 1000;
    assert Pow10(6) == 1000 * Pow10(3);
    assert Pow10(7) == 10 * Pow10(6);
  }

  /** date.isoformat(): the text of a day, of fixed width. */
  function IsoDate(d: Day): (s: string)
    ensures |s| == DateWidth && AllDigits(s)
  {
    Pad(d, DateWidth)
  }

  /** date.fromisoformat(): the day a text denotes, if it denotes one. */
  function ParseIsoDate(s: string): (r: Option<Day>)
    ensures r.Some? ==> IsoDate(r.value) == s
    ensures r.Some? <==> |s| == DateWidth && AllDigits(s) && MinDay <= Value(s) <= MaxDay
  {
    if |s| == DateWidth && AllDigits(s) && MinDay <= Value(s) <= MaxDay then
      PadOfValue(s);
      Some(Value(s))
    else
      None
  }

  /** Parsing the ISO text of a day gives the day back. */
  lemma IsoDateRoundTrip(d: Day)
    ensures ParseIsoDate(IsoDate(d)) == Some(d)
  {
    DaysFitWidth();
    ValueOfPad(d, DateWidth);
  }

  /** format_dayfile_filename: the ISO date followed by ".json". */
  function DayfileKey(d: Day): (k: string)
    ensures |k| == DateWidth + 5
  {
    IsoDate(d) + ".json"
  }

  /** A dayfile key has a fixed length, ends in ".json", and its date part parses back to its day. */
  lemma DayfileKeyParses(d: Day)
    ensures var k := DayfileKey(d);
            |k| == DateWidth + 5 && k[DateWidth..] == ".json"
            && ParseIsoDate(k[..DateWidth]) == Some(d)
  {
    IsoDateRoundTrip(d);
    assert DayfileKey(d)[..DateWidth] == IsoDate(d);
  }

  /** Distinct days have distinct dayfile keys. */
  lemma DayfileKeyInjective(d1: Day, d2: Day)
    requires DayfileKey(d1) == DayfileKey(d2)
    ensures d1 == d2
  {
    DayfileKeyParses(d1);
    DayfileKeyParses(d2);
  }
}
