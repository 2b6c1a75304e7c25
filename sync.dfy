/** One run of the sync: find the newest dayfile, then either bootstrap the series or fetch the
    readings taken since the last known one, and append them to their days' files. */
module Sync {
  import opened Errors
  import opened Calendar
  import opened Lex
  import opened TimeMath
  import opened Readings
  import opened Partition
  import opened Fetching
  import opened Dayfiles

  /** How a run ends: it bootstrapped from a day, it synced from a cursor, or it raised. */
  datatype Outcome = Bootstrapped(from: Day, fetched: Fetched) | Synced(cursor: string, fetched: Fetched) | Failed(error: Error)

  /** fetch_readings_since followed by the add_to_dayfile loop: the fetch result and the new store.
      A failed fetch raises before anything is written. */
  function Ingest(objects: Objects, since: string, now: int, source: Query -> Response): (r: (Result<Fetched>, Objects))
    ensures r.0.Err? ==> r.1 == objects
    ensures r.0.Ok? ==> objects.Keys <= r.1.Keys
  {
    match Fetch(since, now, source)
    case Err(e) => (Err(e), objects)
    case Ok(f) =>
      FetchPartition(since, now, source);
      (Ok(f), MergeDays(objects, f.batches.days, f.batches.byDay, f.meta))
  }

  /** The handler: locate the newest dayfile with the search as written (which at the default
      limit is Locate), bootstrap from its day if it is missing, otherwise
      resume from the latest dateTime in it. */
  function Cycle(objects: Objects, today: Day, now: int, source: Query -> Response): (r: (Outcome, Objects))
    requires today - DefaultSearchLimit >= MinDay
    ensures r.0.Bootstrapped? ==> DayfileKey(r.0.from) !in objects
  {
    var start := FindMostRecentAsWritten(objects, today, 0, DefaultSearchLimit);
    var key := DayfileKey(start);
    if key !in objects then
      match Ingest(objects, IsoDate(start), now, source)
      case (Err(e), after) => (Failed(e), after)
      case (Ok(f), after) => (Bootstrapped(start, f), after)
    else if |objects[key].items| == 0 then (Failed(EmptyDayfile), objects)
    else
      var cursor := LatestDateTime(objects[key].items);
      match Ingest(objects, cursor, now, source)
      case (Err(e), after) => (Failed(e), after)
      case (Ok(f), after) => (Synced(cursor, f), after)
  }

  /** A successful ingest stores exactly the fetched batches: each fetched day's file gets that
      day's readings appended (or is created with the fetched meta), and nothing else changes. */
  lemma IngestContents(objects: Objects, since: string, now: int, source: Query -> Response)
    requires Ingest(objects, since, now, source).0.Ok?
    ensures var (r, after) := Ingest(objects, since, now, source);
            var b := r.value.batches;
            after.Keys == objects.Keys + KeysOf(b.days)
            && (forall k :: k in objects && k !in KeysOf(b.days) ==> after[k] == objects[k])
            && (forall d :: d in b.byDay ==> after[DayfileKey(d)] == MergedFile(objects, d, b.byDay[d], r.value.meta))
  {
    var f := Fetch(since, now, source).value;
    FetchPartition(since, now, source);
    MergeDaysEffect(objects, f.batches.days, f.batches.byDay, f.meta);
    var after := Ingest(objects, since, now, source).1;
    forall d | d in f.batches.byDay
      ensures after[DayfileKey(d)] == MergedFile(objects, d, f.batches.byDay[d], f.meta)
    {
      var i :| 0 <= i < |f.batches.days| && f.batches.days[i] == d;
    }
  }

  /** A failed ingest writes nothing; a successful one keeps every stored dayfile well formed
      and loses none of what was stored. */
  lemma IngestKeepsArchive(objects: Objects, since: string, now: int, source: Query -> Response)
    ensures Ingest(objects, since, now, source).0.Err? ==> Ingest(objects, since, now, source).1 == objects
    ensures Extends(objects, Ingest(objects, since, now, source).1)
    ensures Archived(objects) ==> Archived(Ingest(objects, since, now, source).1)
  {
    if Fetch(since, now, source).Ok? {
      var f := Fetch(since, now, source).value;
      FetchPartition(since, now, source);
      MergeDaysExtends(objects, f.batches.days, f.batches.byDay, f.meta);
      if Archived(objects) {
        forall i | 0 <= i < |f.batches.days|
          ensures HoldsDay(Dayfile(f.meta, f.batches.byDay[f.batches.days[i]]), f.batches.days[i])
        {
          assert f.batches.days[i] in f.batches.byDay;
        }
        MergeDaysArchived(objects, f.batches.days, f.batches.byDay, f.meta);
      }
    } else {
      assert Ingest(objects, since, now, source).1 == objects;
    }
  }

  /** A run keeps the archive well formed and append-only; a failed run writes nothing. */
  lemma CycleKeepsArchive(objects: Objects, today: Day, now: int, source: Query -> Response)
    requires today - DefaultSearchLimit >= MinDay
    ensures Cycle(objects, today, now, source).0.Failed? ==> Cycle(objects, today, now, source).1 == objects
    ensures Extends(objects, Cycle(objects, today, now, source).1)
    ensures Archived(objects) ==> Archived(Cycle(objects, today, now, source).1)
  {
    SearchAgreesAtDefault(objects, today, 0);
    var start := Locate(objects, today, 0, DefaultSearchLimit);
    var key := DayfileKey(start);
    if key !in objects {
      IngestKeepsArchive(objects, IsoDate(start), now, source);
    } else if |objects[key].items| > 0 {
      IngestKeepsArchive(objects, LatestDateTime(objects[key].items), now, source);
    }
  }

  /** What Ingest reports is what the fetch returned. */
  lemma IngestOutcome(objects: Objects, since: string, now: int, source: Query -> Response)
    ensures Ingest(objects, since, now, source).0 == Fetch(since, now, source)
  {
  }

  /** No dayfile under the located day: the run bootstraps the series from that day's ISO date. */
  lemma CycleBootstraps(objects: Objects, today: Day, now: int, source: Query -> Response)
    requires today - DefaultSearchLimit >= MinDay
    requires DayfileKey(Locate(objects, today, 0, DefaultSearchLimit)) !in objects
    ensures var start := Locate(objects, today, 0, DefaultSearchLimit);
            var r := Fetch(IsoDate(start), now, source);
            QueryFor(IsoDate(start), now).Ok?
            && Cycle(objects, today, now, source) ==
              (if r.Ok? then Bootstrapped(start, r.value) else Failed(r.error),
               Ingest(objects, IsoDate(start), now, source).1)
  {
    SearchAgreesAtDefault(objects, today, 0);
    var start := Locate(objects, today, 0, DefaultSearchLimit);
    DateOnlyRoundTrip(start);
    IngestOutcome(objects, IsoDate(start), now, source);
  }

  /** The located dayfile has no readings: sorting and taking the first raises, nothing is written. */
  lemma CycleEmptyDayfile(objects: Objects, today: Day, now: int, source: Query -> Response)
    requires today - DefaultSearchLimit >= MinDay
    requires DayfileKey(Locate(objects, today, 0, DefaultSearchLimit)) in objects
    requires |objects[DayfileKey(Locate(objects, today, 0, DefaultSearchLimit))].items| == 0
    ensures Cycle(objects, today, now, source) == (Failed(EmptyDayfile), objects)
  {
    SearchAgreesAtDefault(objects, today, 0);
  }

  /** The located dayfile has readings: the run fetches since the latest dateTime among them. */
  lemma CycleResumes(objects: Objects, today: Day, now: int, source: Query -> Response)
    requires today - DefaultSearchLimit >= MinDay
    requires DayfileKey(Locate(objects, today, 0, DefaultSearchLimit)) in objects
    requires |objects[DayfileKey(Locate(objects, today, 0, DefaultSearchLimit))].items| > 0
    ensures var cursor := LatestDateTime(objects[DayfileKey(Locate(objects, today, 0, DefaultSearchLimit))].items);
            var r := Fetch(cursor, now, source);
            Cycle(objects, today, now, source) ==
              (if r.Ok? then Synced(cursor, r.value) else Failed(r.error),
               Ingest(objects, cursor, now, source).1)
            && (r.Ok? ==> r.value.query.since == cursor)
  {
    SearchAgreesAtDefault(objects, today, 0);
    var cursor := LatestDateTime(objects[DayfileKey(Locate(objects, today, 0, DefaultSearchLimit))].items);
    IngestOutcome(objects, cursor, now, source);
  }

  /** A run that resumes asks for readings since the latest dateTime in the whole archive up to
      today, so nothing newer than the cursor is already stored. */
  lemma CycleCursorIsLatest(objects: Objects, today: Day, now: int, source: Query -> Response)
    requires today - DefaultSearchLimit >= MinDay && Archived(objects)
    requires Cycle(objects, today, now, source).0.Synced?
    ensures var out := Cycle(objects, today, now, source).0;
            out.fetched.query.since == out.cursor
            && forall d: Day, i :: d <= today && DayfileKey(d) in objects && 0 <= i < |objects[DayfileKey(d)].items|
                 ==> LexLe(objects[DayfileKey(d)].items[i].dateTime, out.cursor)
  {
    SearchAgreesAtDefault(objects, today, 0);
    var start := Locate(objects, today, 0, DefaultSearchLimit);
    if DayfileKey(start) !in objects {
      CycleBootstraps(objects, today, now, source);
    } else if |objects[DayfileKey(start)].items| == 0 {
      CycleEmptyDayfile(objects, today, now, source);
    } else {
      CycleResumes(objects, today, now, source);
      forall d: Day, i | d <= today && DayfileKey(d) in objects && 0 <= i < |objects[DayfileKey(d)].items|
        ensures LexLe(objects[DayfileKey(d)].items[i].dateTime, Cycle(objects, today, now, source).0.cursor)
      {
        LocatedCursorIsLatest(objects, today, DefaultSearchLimit, d, i);
      }
    }
  }

  /** The blob store: an S3 bucket in the Lambda variant, the working directory locally. */
  class DayfileStore {
    var objects: Objects

    constructor(initial: Objects)
      ensures objects == initial
    {
      objects := initial;
    }

    /** add_to_dayfile: append to the day's file, keeping its meta, or create it with this meta. */
    method AddToDayfile(day: Day, readings: seq<Reading>, meta: Json)
      modifies this
      ensures objects == Merge(old(objects), day, readings, meta)
      ensures objects.Keys == old(objects).Keys + {DayfileKey(day)}
      ensures forall k :: k in old(objects) && k != DayfileKey(day) ==> objects[k] == old(objects)[k]
      ensures objects[DayfileKey(day)] == MergedFile(old(objects), day, readings, meta)
    {
      var filename := DayfileKey(day);
      if filename in objects {
        var dayfile := objects[filename];
        objects := objects[filename := Dayfile(dayfile.meta, dayfile.items + readings)];
      } else {
        objects := objects[filename := Dayfile(meta, readings)];
      }
    }

    /** The add_to_dayfile loop over the fetched batches, in the dict's insertion order. */
    method AddAll(batches: DayBatches, meta: Json)
      requires batches.Valid()
      modifies this
      ensures objects == MergeDays(old(objects), batches.days, batches.byDay, meta)
      ensures objects.Keys == old(objects).Keys + KeysOf(batches.days)
      ensures forall k :: k in old(objects) && k !in KeysOf(batches.days) ==> objects[k] == old(objects)[k]
      ensures forall d :: d in batches.byDay ==>
                objects[DayfileKey(d)] == MergedFile(old(objects), d, batches.byDay[d], meta)
    {
      var i := 0;
      while i < |batches.days|
        invariant 0 <= i <= |batches.days|
        invariant objects == MergeDays(old(objects), batches.days[..i], batches.byDay, meta)
      {
        var day := batches.days[i];
        MergeDaysSnoc(old(objects), batches.days, i, batches.byDay, meta);
        AddToDayfile(day, batches.byDay[day], meta);
        i := i + 1;
      }
      assert batches.days[..i] == batches.days;
      MergeBatchesEffect(old(objects), batches, meta);
    }

    /** bootstrap_series: fetch everything since the given day and store it. */
    method BootstrapSeries(initialDate: Day, now: int, source: Query -> Response) returns (r: Result<Fetched>)
      modifies this
      ensures (r, objects) == Ingest(old(objects), IsoDate(initialDate), now, source)
    {
      r := SyncSince(IsoDate(initialDate), now, source);
    }

    /** fetch_readings_since followed by the add_to_dayfile loop. */
    method SyncSince(since: string, now: int, source: Query -> Response) returns (r: Result<Fetched>)
      modifies this
      ensures (r, objects) == Ingest(old(objects), since, now, source)
    {
      r := FetchReadingsSince(since, now, source);
      if r.Ok? {
        FetchPartition(since, now, source);
        AddAll(r.value.batches, r.value.meta);
      }
    }

    /** lambda_handler (main in the local variant). */
    method RunCycle(today: Day, now: int, source: Query -> Response) returns (outcome: Outcome)
      requires today - DefaultSearchLimit >= MinDay
      modifies this
      ensures (outcome, objects) == Cycle(old(objects), today, now, source)
    {
      var dayfileDate := FindMostRecentAsWritten(objects, today, 0, DefaultSearchLimit);
      var dayfileFilename := DayfileKey(dayfileDate);
      if dayfileFilename !in objects {
        var r := BootstrapSeries(dayfileDate, now, source);
        outcome := if r.Ok? then Bootstrapped(dayfileDate, r.value) else Failed(r.error);
        return;
      }
      var dayfile := objects[dayfileFilename];
      if |dayfile.items| == 0 {
        return Failed(EmptyDayfile);
      }
      var lastKnownReading := LatestDateTime(dayfile.items);
      var r := SyncSince(lastKnownReading, now, source);
      outcome := if r.Ok? then Synced(lastKnownReading, r.value) else Failed(r.error);
    }
  }
}
