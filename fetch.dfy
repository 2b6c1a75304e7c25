/** fetch_readings_since: the query it sends, and the day-partitioned readings it returns. */
module Fetching {
  import opened Errors
  import opened Digits
  import opened Calendar
  import opened TimeMath
  import opened Lex
  import opened Readings
  import opened Partition

  /** The API returns at most this many readings unless asked for more. */
  const DefaultPageLimit: int := 500

  const ApiHost: string := "environment.data.gov.uk"
  const ApiRoot: string := "https://" + ApiHost + "/flood-monitoring" + "/id/measures/"

  /** The parameters of a readings request: since=<since>, and _limit=<n> when present. */
  datatype Query = Query(since: string, limit: Option<nat>)

  /** What the readings API answers: its items and its opaque meta object. */
  datatype Response = Response(items: seq<RawReading>, meta: Json)

  /** The result of fetch_readings_since: the readings by day, and the response's meta. */
  datatype Fetched = Fetched(query: Query, batches: DayBatches, meta: Json)

  /** The request for readings since a timestamp, sized by the estimate of how many there are. */
  function QueryFor(since: string, now: int): (r: Result<Query>)
    ensures r.Err? <==> StrToDatetime(since).Err?
    ensures r.Err? ==> r.error == FormatError
    ensures r.Ok? ==> r.value.since == since
  {
    match StrToDatetime(since)
    case Err(e) => Err(e)
    case Ok(dt) =>
      var estimate := EstimateReadings(InstantOf(dt), now);
      Ok(Query(since, if estimate > DefaultPageLimit then Some(estimate + 1) else None))
  }

  /** The URL of a request for the readings of one measure. */
  function Url(measureId: string, q: Query): (u: string)
    ensures var plain := PlainUrl(measureId, q.since);
            |plain| <= |u| && u[..|plain|] == plain
  {
    PlainUrl(measureId, q.since)
      + (match q.limit case Some(n) => "&_limit=" + Decimal(n) case None => "")
  }

  /** The URL of a request without a _limit parameter. */
  function PlainUrl(measureId: string, since: string): string
  {
    ApiRoot + measureId + "/readings?since=" + since
  }

  lemma ApiRootHasNoAmpersand()
    ensures '&' !in ApiRoot
  {
    assert '&' !in "https://" && '&' !in ApiHost && '&' !in "/flood-monitoring" && '&' !in "/id/measures/";
    AmpersandAfter("https://", ApiHost);
    AmpersandAfter("https://" + ApiHost, "/flood-monitoring");
    AmpersandAfter("https://" + ApiHost + "/flood-monitoring", "/id/measures/");
  }

  lemma PlainUrlHasNoAmpersand(measureId: string, since: string)
    requires '&' !in measureId
    requires StrToDatetime(since).Ok?
    ensures '&' !in PlainUrl(measureId, since)
  {
    assert '&' !in since by {
      forall i | 0 <= i < |since| ensures since[i] != '&' {
        assert StampChar(since[i]) || since[i] == 'Z';
      }
    }
    ApiRootHasNoAmpersand();
    AmpersandAfter(ApiRoot, measureId);
    AmpersandAfter(ApiRoot + measureId, "/readings?since=");
    AmpersandAfter(ApiRoot + measureId + "/readings?since=", since);
  }

  /** The URL gets a _limit parameter, of estimate + 1, exactly when the estimate is above 500;
      otherwise it ends in ?since=<since>. */
  lemma LimitParameter(measureId: string, since: string, now: int)
    requires '&' !in measureId
    requires StrToDatetime(since).Ok?
    ensures var url := Url(measureId, QueryFor(since, now).value);
            var estimate := EstimateReadings(InstantOf(StrToDatetime(since).value), now);
            ('&' in url <==> estimate > DefaultPageLimit)
            && (estimate > DefaultPageLimit ==>
                  url == PlainUrl(measureId, since) + "&_limit=" + Decimal(estimate + 1)
                  && Value(Decimal(estimate + 1)) == estimate + 1)
            && (estimate <= DefaultPageLimit ==> url == PlainUrl(measureId, since))
  {
    var estimate := EstimateReadings(InstantOf(StrToDatetime(since).value), now);
    var q := QueryFor(since, now).value;
    assert q.limit == if estimate > DefaultPageLimit then Some(estimate + 1) else None;
    PlainUrlHasNoAmpersand(measureId, since);
    UrlAmpersand(measureId, q);
    if estimate > DefaultPageLimit {
      ValueOfDecimal(estimate + 1);
    }
  }

  /** A URL whose plain part has no '&' holds one exactly when it carries a _limit. */
  lemma UrlAmpersand(measureId: string, q: Query)
    requires '&' !in PlainUrl(measureId, q.since)
    ensures '&' in Url(measureId, q) <==> q.limit.Some?
    ensures q.limit.Some? ==> Url(measureId, q) == PlainUrl(measureId, q.since) + "&_limit=" + Decimal(q.limit.value)
    ensures q.limit.None? ==> Url(measureId, q) == PlainUrl(measureId, q.since)
  {
    var plain := PlainUrl(measureId, q.since);
    if q.limit.Some? {
      var tail := "&_limit=" + Decimal(q.limit.value);
      AmpersandAfter(plain, tail);
      assert tail[0] == '&';
    } else {
      assert plain + "" == plain;
    }
  }

  /** Behind a prefix without '&', an ampersand is found exactly when the rest holds one. */
  lemma AmpersandAfter(prefix: string, rest: string)
    requires '&' !in prefix
    ensures '&' in prefix + rest <==> '&' in rest
  {
    if '&' in prefix + rest {
      var i :| 0 <= i < |prefix + rest| && (prefix + rest)[i] == '&';
      assert rest[i - |prefix|] == '&';
    }
    if '&' in rest {
      var i :| 0 <= i < |rest| && rest[i] == '&';
      assert (prefix + rest)[|prefix| + i] == '&';
    }
  }

  /** The API's items sorted, then keyed by day in the partition loop. */
  function KeyedItems(items: seq<RawReading>): Result<seq<Keyed>>
  {
    match SortByDateTime(items)
    case Err(e) => Err(e)
    case Ok(sorted) => KeyAll(sorted)
  }

  /** What fetch_readings_since returns, or the error it raises. */
  function Fetch(since: string, now: int, source: Query -> Response): (r: Result<Fetched>)
    ensures r.Ok? ==> QueryFor(since, now) == Ok(r.value.query) && r.value.batches.Valid()
  {
    match QueryFor(since, now)
    case Err(e) => Err(e)
    case Ok(q) =>
      match KeyedItems(source(q).items)
      case Err(e) => Err(e)
      case Ok(ks) => Ok(Fetched(q, Group(ks), source(q).meta))
  }

  /** The dict of the partition loop describes the readings keyed so far. */
  ghost predicate DescribesGroup(days: seq<Day>, byDay: map<Day, seq<Reading>>, ks: seq<Keyed>)
  {
    days == DaysInOrder(ks)
    && (forall d :: d in byDay <==> d in days)
    && (forall d :: d in byDay ==> byDay[d] == ReadingsOn(ks, d))
  }

  /** One pass of the partition loop: append to the day's list, or start it. */
  lemma PartitionStep(days: seq<Day>, byDay: map<Day, seq<Reading>>, ks: seq<Keyed>, k: Keyed)
    requires DescribesGroup(days, byDay, ks)
    ensures k.day in byDay ==> DescribesGroup(days, byDay[k.day := byDay[k.day] + [k.reading]], ks + [k])
    ensures k.day !in byDay ==> DescribesGroup(days + [k.day], byDay[k.day := [k.reading]], ks + [k])
  {
    ReadingsOnSnoc(ks, k);
    DaysInOrderMembers(ks, k.day);
  }

  lemma DescribesGroupIsGroup(days: seq<Day>, byDay: map<Day, seq<Reading>>, ks: seq<Keyed>)
    requires DescribesGroup(days, byDay, ks)
    ensures DayBatches(days, byDay) == Group(ks)
  {
    assert byDay == Group(ks).byDay;
  }

  /** Fetch once the query is built and the items are sorted: the partition loop decides. */
  lemma FetchOfSorted(since: string, now: int, source: Query -> Response)
    requires QueryFor(since, now).Ok?
    requires SortByDateTime(source(QueryFor(since, now).value).items).Ok?
    ensures var q := QueryFor(since, now).value;
            var keyed := KeyAll(SortByDateTime(source(q).items).value);
            Fetch(since, now, source) == if keyed.Ok? then Ok(Fetched(q, Group(keyed.value), source(q).meta))
                                         else Err(keyed.error)
  {
  }

  /** fetch_readings_since: build the query, ask the source, sort its items by dateTime,
      and append each trimmed reading to the list of its day. */
  method FetchReadingsSince(since: string, now: int, source: Query -> Response) returns (r: Result<Fetched>)
    ensures r == Fetch(since, now, source)
  {
    var query := QueryFor(since, now);
    if query.Err? {
      return Err(query.error);
    }
    var response := source(query.value);
    var sorted := SortByDateTime(response.items);
    if sorted.Err? {
      return Err(sorted.error);
    }
    FetchOfSorted(since, now, source);
    var batches := PartitionByDay(sorted.value);
    if batches.Err? {
      return Err(batches.error);
    }
    r := Ok(Fetched(query.value, batches.value, response.meta));
  }

  /** The loop of fetch_readings_since over the sorted items: trim and key each one, and append
      it to the list of its day, starting a list the first time its day is met. */
  method PartitionByDay(raws: seq<RawReading>) returns (r: Result<DayBatches>)
    ensures KeyAll(raws).Ok? ==> r == Ok(Group(KeyAll(raws).value))
    ensures KeyAll(raws).Err? ==> r == Err(KeyAll(raws).error)
  {
    var days: seq<Day> := [];
    var byDay: map<Day, seq<Reading>> := map[];
    ghost var ks: seq<Keyed> := [];
    var i := 0;
    while i < |raws|
      invariant 0 <= i <= |raws|
      invariant KeyAll(raws[..i]) == Ok(ks)
      invariant DescribesGroup(days, byDay, ks)
    {
      var keyed := KeyReading(raws[i]);
      if keyed.Err? {
        KeyAllFirstError(raws, i);
        return Err(keyed.error);
      }
      var k := keyed.value;
      PartitionStep(days, byDay, ks, k);
      KeyAllSnoc(raws, i, ks);
      if k.day in byDay {
        byDay := byDay[k.day := byDay[k.day] + [k.reading]];
      } else {
        byDay := byDay[k.day := [k.reading]];
        days := days + [k.day];
      }
      ks := ks + [k];
      i := i + 1;
    }
    assert raws[..i] == raws;
    DescribesGroupIsGroup(days, byDay, ks);
    r := Ok(DayBatches(days, byDay));
  }

  /** The day-partitioned readings: one list per day, each non-empty, on its day and in order,
      the lists together being the trimmed items in dateTime order. */
  lemma FetchPartition(since: string, now: int, source: Query -> Response)
    requires Fetch(since, now, source).Ok?
    ensures var f := Fetch(since, now, source).value;
            var sorted := SortByDateTime(source(f.query).items).value;
            var b := f.batches;
            b.Valid()
            && (forall d :: d in b.byDay ==>
                  |b.byDay[d]| > 0 && ReadingsSorted(b.byDay[d])
                  && forall i :: 0 <= i < |b.byDay[d]| ==> OnDay(b.byDay[d][i], d))
            && |Flatten(b.days, b.byDay)| == |sorted|
            && forall i :: 0 <= i < |sorted| ==> TrimReading(sorted[i]) == Ok(Flatten(b.days, b.byDay)[i])
  {
    var f := Fetch(since, now, source).value;
    var sorted := SortByDateTime(source(f.query).items).value;
    var ks := KeyAll(sorted).value;
    KeyAllSpec(sorted);
    assert f.batches == Group(ks);
    forall i | 0 <= i < |ks| ensures ks[i].reading.dateTime == sorted[i].fields["dateTime"] {
      assert TrimReading(sorted[i]) == Ok(ks[i].reading);
      assert ks[i].reading.Fields()["dateTime"] == ks[i].reading.dateTime;
    }
    forall i, j | 0 <= i < j < |ks| ensures ks[i].day <= ks[j].day {
      DayOrder(ks[i].reading.dateTime, ks[j].reading.dateTime);
    }
    FlattenGroup(ks);
    forall d | d in f.batches.byDay
      ensures |f.batches.byDay[d]| > 0 && ReadingsSorted(f.batches.byDay[d])
      ensures forall i :: 0 <= i < |f.batches.byDay[d]| ==> OnDay(f.batches.byDay[d][i], d)
    {
      DaysInOrderMembers(ks, d);
      ReadingsOnSorted(ks, d);
      ReadingsOnOnDay(ks, d);
    }
  }
}
