/** Timestamps of the readings API: parsing tolerant of a trailing Z, and the reading-count estimate. */
module TimeMath {
  import opened Errors
  import opened Digits
  import opened Calendar
  import opened Lex

  const SecondsPerDay: int := 86400
  /** The sensor reports once every INTERVAL minutes. */
  const IntervalMinutes: int := 15
  const IntervalSeconds: int := 60 * IntervalMinutes

  type SecondOfDay = s: int | 0 <= s < SecondsPerDay

  /** A naive (zone-less) datetime, to the second. */
  datatype DateTime = DateTime(day: Day, second: SecondOfDay)

  /** Seconds since the start of day 0: the scale on which elapsed time is measured. */
  function InstantOf(dt: DateTime): int
  {
    dt.day * SecondsPerDay + dt.second
  }

  /** The second of the day at a clock reading. */
  function ClockSeconds(h: nat, m: nat, sec: nat): (r: SecondOfDay)
    requires h < 24 && m < 60 && sec < 60
    ensures r / 3600 == h && r % 3600 / 60 == m && r % 3600 % 60 == sec
  {
    h * 3600 + m * 60 + sec
  }

  /** The characters a local timestamp is made of. */
  predicate StampChar(c: char) { IsDigit(c) || c == 'T' || c == ':' }

  /** The time part "T<hh>:<mm>:<ss>" of a timestamp, as a second of the day. */
  function ParseTime(t: string): (r: Option<SecondOfDay>)
    ensures r.Some? ==> |t| == 9 && IsDigit(t[8]) && forall i :: 0 <= i < |t| ==> StampChar(t[i])
  {
    if |t| == 9 && t[0] == 'T' && t[3] == ':' && t[6] == ':'
       && AllDigits(t[1..3]) && AllDigits(t[4..6]) && AllDigits(t[7..9])
       && Value(t[1..3]) < 24 && Value(t[4..6]) < 60 && Value(t[7..9]) < 60
    then
      assert forall i :: 1 <= i < 3 ==> t[i] == t[1..3][i - 1];
      assert forall i :: 4 <= i < 6 ==> t[i] == t[4..6][i - 4];
      assert forall i :: 7 <= i < 9 ==> t[i] == t[7..9][i - 7];
      Some(ClockSeconds(Value(t[1..3]), Value(t[4..6]), Value(t[7..9])))
    else
      None
  }

  /** datetime.fromisoformat over the two forms the core meets: a date, or a date and a time. */
  function ParseLocal(s: string): (r: Result<DateTime>)
    ensures r.Err? ==> r.error == FormatError
    ensures r.Ok? ==> |s| >= DateWidth && s[..DateWidth] == IsoDate(r.value.day)
    ensures r.Ok? ==> IsDigit(s[|s| - 1]) && forall i :: 0 <= i < |s| ==> StampChar(s[i])
  {
    if |s| < DateWidth then Err(FormatError)
    else
      match ParseIsoDate(s[..DateWidth])
      case None => Err(FormatError)
      case Some(d) =>
        assert forall i :: 0 <= i < DateWidth ==> s[i] == s[..DateWidth][i];
        if |s| == DateWidth then Ok(DateTime(d, 0))
        else
          match ParseTime(s[DateWidth..])
          case None => Err(FormatError)
          case Some(t) =>
            assert forall i :: DateWidth <= i < |s| ==> s[i] == s[DateWidth..][i - DateWidth];
            Ok(DateTime(d, t))
  }

  /** str_to_datetime: drop one trailing "Z", then parse; a malformed string is an error. */
  function StrToDatetime(s: string): (r: Result<DateTime>)
    ensures r.Err? ==> r.error == FormatError
    ensures r.Ok? ==> |s| >= DateWidth && s[..DateWidth] == IsoDate(r.value.day)
    ensures r.Ok? ==> forall i :: 0 <= i < |s| ==> StampChar(s[i]) || s[i] == 'Z'
  {
    if |s| > 0 && s[|s| - 1] == 'Z' then
      var t := s[..|s| - 1];
      assert forall i :: 0 <= i < |t| ==> s[i] == t[i];
      ParseLocal(t)
    else
      ParseLocal(s)
  }

  /** The time part "T<hh>:<mm>:<ss>" written for a second of the day. */
  function RenderTime(second: SecondOfDay): string
  {
    var rest := second % 3600;
    Clock(second / 3600, rest / 60, rest % 60)
  }

  /** "T<hh>:<mm>:<ss>" for a clock reading. */
  function Clock(h: nat, m: nat, sec: nat): string
  {
    "T" + Pad(h, 2) + ":" + Pad(m, 2) + ":" + Pad(sec, 2)
  }

  /** The API's way of writing a datetime, without its trailing "Z". */
  function Render(dt: DateTime): string
  {
    IsoDate(dt.day) + RenderTime(dt.second)
  }

  /** Where the three fields sit in "T<hh>:<mm>:<ss>". */
  lemma TimeFields(a: string, b: string, c: string)
    requires |a| == 2 && |b| == 2 && |c| == 2
    ensures var t := "T" + a + ":" + b + ":" + c;
            |t| == 9 && t[0] == 'T' && t[3] == ':' && t[6] == ':'
            && t[1..3] == a && t[4..6] == b && t[7..9] == c
  {
  }

  /** A time part whose three two-digit fields are in range parses as hours, minutes and seconds. */
  lemma ParseTimeFields(t: string, a: string, b: string, c: string)
    requires |a| == 2 && |b| == 2 && |c| == 2 && AllDigits(a) && AllDigits(b) && AllDigits(c)
    requires Value(a) < 24 && Value(b) < 60 && Value(c) < 60
    requires |t| == 9 && t[0] == 'T' && t[3] == ':' && t[6] == ':' && t[1..3] == a && t[4..6] == b && t[7..9] == c
    ensures ParseTime(t) == Some(ClockSeconds(Value(a), Value(b), Value(c)))
  {
  }

  /** A second of the day splits into hours, minutes and seconds in range. */
  lemma SplitSecond(second: SecondOfDay)
    ensures var rest := second % 3600;
            second / 3600 < 24 && rest / 60 < 60 && rest % 60 < 60
            && second == ClockSeconds(second / 3600, rest / 60, rest % 60)
  {
  }

  lemma RenderTimeRoundTrip(second: SecondOfDay)
    ensures ParseTime(RenderTime(second)) == Some(second)
  {
    var rest := second % 3600;
    SplitSecond(second);
    ClockRoundTrip(second / 3600, rest / 60, rest % 60);
  }

  /** A clock reading in range is parsed back from its "T<hh>:<mm>:<ss>". */
  lemma ClockRoundTrip(h: nat, m: nat, sec: nat)
    requires h < 24 && m < 60 && sec < 60
    ensures ParseTime(Clock(h, m, sec)) == Some(ClockSeconds(h, m, sec))
  {
    assert Pow10(2) == 100;
    ValueOfPad(h, 2);
    ValueOfPad(m, 2);
    ValueOfPad(sec, 2);
    TimeFields(Pad(h, 2), Pad(m, 2), Pad(sec, 2));
    ParseTimeFields(Clock(h, m, sec), Pad(h, 2), Pad(m, 2), Pad(sec, 2));
  }

  /** A bare ISO date, as bootstrap_series sends it, parses to midnight of that day. */
  lemma DateOnlyRoundTrip(d: Day)
    ensures StrToDatetime(IsoDate(d)) == Ok(DateTime(d, 0))
  {
    var s := IsoDate(d);
    IsoDateRoundTrip(d);
    assert s[..DateWidth] == s;
    assert IsDigit(s[|s| - 1]);
  }

  /** Every datetime is parsed back from its rendering, with or without the trailing "Z". */
  lemma RenderRoundTrip(dt: DateTime)
    ensures ParseLocal(Render(dt)) == Ok(dt)
    ensures StrToDatetime(Render(dt) + "Z") == Ok(dt)
  {
    IsoDateRoundTrip(dt.day);
    RenderTimeRoundTrip(dt.second);
    var s := Render(dt);
    assert s[..DateWidth] == IsoDate(dt.day);
    assert s[DateWidth..] == RenderTime(dt.second);
    assert (s + "Z")[..|s|] == s;
  }

  /** An accepted local timestamp is a bare date at midnight or the rendering of its result. */
  lemma ParseLocalRenders(s: string)
    requires ParseLocal(s).Ok?
    ensures var v := ParseLocal(s).value;
            (s == IsoDate(v.day) && v.second == 0) || s == Render(v)
  {
    if |s| > DateWidth {
      var t := s[DateWidth..];
      PadOfValue(t[1..3]);
      PadOfValue(t[4..6]);
      PadOfValue(t[7..9]);
      SplitSecond(ParseLocal(s).value.second);
      assert t == "T" + t[1..3] + ":" + t[4..6] + ":" + t[7..9];
      assert s == s[..DateWidth] + t;
    } else {
      assert s == s[..DateWidth];
    }
  }

  /** An accepted timestamp is one of those two forms, bare or followed by one "Z". */
  lemma StrToDatetimeRenders(s: string)
    requires StrToDatetime(s).Ok?
    ensures var v := StrToDatetime(s).value;
            (v.second == 0 && (s == IsoDate(v.day) || s == IsoDate(v.day) + "Z"))
            || s == Render(v) || s == Render(v) + "Z"
  {
    if |s| > 0 && s[|s| - 1] == 'Z' {
      var t := s[..|s| - 1];
      ParseLocalRenders(t);
      assert s == t + "Z";
    } else {
      ParseLocalRenders(s);
    }
  }

  /** A parsed timestamp reads the same with one trailing "Z"; a second "Z" is malformed. */
  lemma TrailingZ(s: string)
    requires ParseLocal(s).Ok?
    ensures StrToDatetime(s) == ParseLocal(s)
    ensures StrToDatetime(s + "Z") == ParseLocal(s)
    ensures StrToDatetime(s + "ZZ") == Err(FormatError)
  {
    assert (s + "Z")[..|s|] == s;
    assert (s + "ZZ")[..|s| + 1] == s + "Z";
  }

  /** The empty string and a lone "Z" are malformed. */
  lemma MalformedRejected()
    ensures StrToDatetime("") == Err(FormatError)
    ensures StrToDatetime("Z") == Err(FormatError)
  {
  }

  /** String order of well-formed timestamps never puts a later day first. */
  lemma DayOrder(a: string, b: string)
    requires StrToDatetime(a).Ok? && StrToDatetime(b).Ok?
    requires LexLe(a, b)
    ensures StrToDatetime(a).value.day <= StrToDatetime(b).value.day
  {
    var da, db := StrToDatetime(a).value.day, StrToDatetime(b).value.day;
    assert a == IsoDate(da) + a[DateWidth..];
    assert b == IsoDate(db) + b[DateWidth..];
    LexLePrefix(IsoDate(da), IsoDate(db), a[DateWidth..], b[DateWidth..]);
    DaysFitWidth();
    PadMonotone(da, db, DateWidth);
  }

  /** A timestamp on an earlier day sorts before one on a later day. */
  lemma EarlierDayFirst(a: string, b: string)
    requires StrToDatetime(a).Ok? && StrToDatetime(b).Ok?
    requires StrToDatetime(a).value.day < StrToDatetime(b).value.day
    ensures LexLe(a, b)
  {
    LexLeTotal(a, b);
    if !LexLe(a, b) {
      DayOrder(b, a);
    }
  }

  /** num_of_readings / estimate_number_of_readings: whole intervals elapsed, rounded down. */
  function EstimateReadings(since: int, until: int): (n: int)
    ensures n * IntervalSeconds <= until - since < (n + 1) * IntervalSeconds
  {
    (until - since) / 60 / IntervalMinutes
  }

  /** 149 minutes hold 9 whole intervals and 150 minutes hold 10. */
  lemma EstimateRoundsDown(since: int)
    ensures EstimateReadings(since, since + 149 * 60) == 9
    ensures EstimateReadings(since, since + 150 * 60) == 10
  {
  }
}
