/** Dayfiles in the blob store: merge-or-create, the backward search, and the cursor. */
module Dayfiles {
  import opened Calendar
  import opened Lex
  import opened TimeMath
  import opened Readings
  import opened Partition

  /** The JSON document stored for one day. */
  datatype Dayfile = Dayfile(meta: Json, items: seq<Reading>)

  /** The blob store (an S3 bucket, or the working directory): dayfiles by key. */
  type Objects = map<string, Dayfile>

  /** The file add_to_dayfile leaves under a day's key: the stored file with the readings
      appended and its meta kept, or a new file with this meta. */
  function MergedFile(objects: Objects, day: Day, readings: seq<Reading>, meta: Json): Dayfile
  {
    var key := DayfileKey(day);
    if key in objects then Dayfile(objects[key].meta, objects[key].items + readings)
    else Dayfile(meta, readings)
  }

  /** add_to_dayfile on the store's contents: append to the day's file, or create it. */
  function Merge(objects: Objects, day: Day, readings: seq<Reading>, meta: Json): (r: Objects)
    ensures r.Keys == objects.Keys + {DayfileKey(day)}
  {
    objects[DayfileKey(day) := MergedFile(objects, day, readings, meta)]
  }

  /** The add_to_dayfile loop over the fetched batches, in the dict's insertion order. */
  function MergeDays(objects: Objects, days: seq<Day>, byDay: map<Day, seq<Reading>>, meta: Json): (r: Objects)
    requires forall i :: 0 <= i < |days| ==> days[i] in byDay
    ensures objects.Keys <= r.Keys
  {
    if |days| == 0 then objects
    else
      var last := days[|days| - 1];
      Merge(MergeDays(objects, days[..|days| - 1], byDay, meta), last, byDay[last], meta)
  }

  /** Merging one more day of the dict is one more merge. */
  lemma MergeDaysSnoc(objects: Objects, days: seq<Day>, i: nat, byDay: map<Day, seq<Reading>>, meta: Json)
    requires i < |days| && forall j :: 0 <= j < |days| ==> days[j] in byDay
    ensures MergeDays(objects, days[..i + 1], byDay, meta)
         == Merge(MergeDays(objects, days[..i], byDay, meta), days[i], byDay[days[i]], meta)
  {
    assert days[..i + 1][..i] == days[..i];
  }

  function KeysOf(days: seq<Day>): set<string>
  {
    set i | 0 <= i < |days| :: DayfileKey(days[i])
  }

  lemma KeysOfSnoc(days: seq<Day>)
    requires |days| > 0
    ensures KeysOf(days) == KeysOf(days[..|days| - 1]) + {DayfileKey(days[|days| - 1])}
  {
    var init := days[..|days| - 1];
    assert forall i :: 0 <= i < |init| ==> init[i] == days[i];
    forall k | k in KeysOf(days) ensures k in KeysOf(init) + {DayfileKey(days[|days| - 1])} {
      var i :| 0 <= i < |days| && k == DayfileKey(days[i]);
      if i < |init| { assert k == DayfileKey(init[i]); }
    }
  }

  lemma KeyNotInKeysOf(days: seq<Day>, day: Day)
    requires forall i :: 0 <= i < |days| ==> days[i] != day
    ensures DayfileKey(day) !in KeysOf(days)
  {
    forall i | 0 <= i < |days| ensures DayfileKey(days[i]) != DayfileKey(day) {
      DayfileKeyParses(days[i]);
      DayfileKeyParses(day);
    }
  }

  /** What one merge does to the store. */
  lemma MergeEffect(objects: Objects, day: Day, readings: seq<Reading>, meta: Json)
    ensures var r, key := Merge(objects, day, readings, meta), DayfileKey(day);
            r.Keys == objects.Keys + {key}
            && (forall k :: k in objects && k != key ==> r[k] == objects[k])
            && r[key] == if key in objects then Dayfile(objects[key].meta, objects[key].items + readings)
                         else Dayfile(meta, readings)
  {
  }

  /** The effect of merging days, as one predicate. */
  predicate MergedAs(objects: Objects, days: seq<Day>, byDay: map<Day, seq<Reading>>, meta: Json, r: Objects)
    requires forall i :: 0 <= i < |days| ==> days[i] in byDay
  {
    r.Keys == objects.Keys + KeysOf(days)
    && (forall k :: k in objects && k !in KeysOf(days) ==> r[k] == objects[k])
    && (forall i :: 0 <= i < |days| ==> r[DayfileKey(days[i])] == MergedFile(objects, days[i], byDay[days[i]], meta))
  }

  /** Merging one more day, not merged before, extends the effect to it. */
  lemma MergedAsSnoc(objects: Objects, days: seq<Day>, byDay: map<Day, seq<Reading>>, meta: Json, prev: Objects)
    requires |days| > 0 && forall i :: 0 <= i < |days| ==> days[i] in byDay
    requires forall i :: 0 <= i < |days| - 1 ==> days[i] != days[|days| - 1]
    requires MergedAs(objects, days[..|days| - 1], byDay, meta, prev)
    ensures MergedAs(objects, days, byDay, meta, Merge(prev, days[|days| - 1], byDay[days[|days| - 1]], meta))
  {
    var n := |days|;
    var r := Merge(prev, days[n - 1], byDay[days[n - 1]], meta);
    MergedAsFrame(objects, days, byDay, meta, prev);
    forall i | 0 <= i < n
      ensures r[DayfileKey(days[i])] == MergedFile(objects, days[i], byDay[days[i]], meta)
    {
      if i < n - 1 {
        MergedAsEarlier(objects, days, byDay, meta, prev, i);
      } else {
        MergedAsLast(objects, days, byDay, meta, prev);
      }
    }
  }

  /** The keys and the untouched objects after merging one more day. */
  lemma MergedAsFrame(objects: Objects, days: seq<Day>, byDay: map<Day, seq<Reading>>, meta: Json, prev: Objects)
    requires |days| > 0 && forall i :: 0 <= i < |days| ==> days[i] in byDay
    requires MergedAs(objects, days[..|days| - 1], byDay, meta, prev)
    ensures var r := Merge(prev, days[|days| - 1], byDay[days[|days| - 1]], meta);
            r.Keys == objects.Keys + KeysOf(days)
            && forall k :: k in objects && k !in KeysOf(days) ==> r[k] == objects[k]
  {
    var last := days[|days| - 1];
    MergeEffect(prev, last, byDay[last], meta);
    KeysOfSnoc(days);
  }

  /** The day merged last gets its merged file. */
  lemma MergedAsLast(objects: Objects, days: seq<Day>, byDay: map<Day, seq<Reading>>, meta: Json, prev: Objects)
    requires |days| > 0 && forall i :: 0 <= i < |days| ==> days[i] in byDay
    requires forall i :: 0 <= i < |days| - 1 ==> days[i] != days[|days| - 1]
    requires MergedAs(objects, days[..|days| - 1], byDay, meta, prev)
    ensures Merge(prev, days[|days| - 1], byDay[days[|days| - 1]], meta)[DayfileKey(days[|days| - 1])]
         == MergedFile(objects, days[|days| - 1], byDay[days[|days| - 1]], meta)
  {
    var init, last := days[..|days| - 1], days[|days| - 1];
    KeyNotInKeysOf(init, last);
    var key := DayfileKey(last);
    assert key in prev <==> key in objects;
    assert key in objects ==> prev[key] == objects[key];
  }

  /** A day merged earlier keeps its merged file when a different day is merged after it. */
  lemma MergedAsEarlier(objects: Objects, days: seq<Day>, byDay: map<Day, seq<Reading>>, meta: Json, prev: Objects, i: nat)
    requires i < |days| - 1 && forall j :: 0 <= j < |days| ==> days[j] in byDay
    requires days[i] != days[|days| - 1]
    requires MergedAs(objects, days[..|days| - 1], byDay, meta, prev)
    ensures Merge(prev, days[|days| - 1], byDay[days[|days| - 1]], meta)[DayfileKey(days[i])]
         == MergedFile(objects, days[i], byDay[days[i]], meta)
  {
    var init, last := days[..|days| - 1], days[|days| - 1];
    assert init[i] == days[i];
    if DayfileKey(days[i]) == DayfileKey(last) { DayfileKeyInjective(days[i], last); }
    MergeEffect(prev, last, byDay[last], meta);
  }

  /** Merging a dict of distinct days: each day's file gets that day's readings appended, keeping
      its meta, or is created with the fetched meta; every other object is left as it was. */
  lemma {:induction false} MergeDaysEffect(objects: Objects, days: seq<Day>, byDay: map<Day, seq<Reading>>, meta: Json)
    requires forall i :: 0 <= i < |days| ==> days[i] in byDay
    requires forall i, j :: 0 <= i < j < |days| ==> days[i] != days[j]
    ensures MergeDays(objects, days, byDay, meta).Keys == objects.Keys + KeysOf(days)
    ensures forall k :: k in objects && k !in KeysOf(days) ==> MergeDays(objects, days, byDay, meta)[k] == objects[k]
    ensures forall i :: 0 <= i < |days| ==>
              MergeDays(objects, days, byDay, meta)[DayfileKey(days[i])] == MergedFile(objects, days[i], byDay[days[i]], meta)
  {
    MergeDaysMergedAs(objects, days, byDay, meta);
  }

  /** The same for a dict of batches, day by day. */
  lemma MergeBatchesEffect(objects: Objects, batches: DayBatches, meta: Json)
    requires batches.Valid()
    ensures var r := MergeDays(objects, batches.days, batches.byDay, meta);
            r.Keys == objects.Keys + KeysOf(batches.days)
            && (forall k :: k in objects && k !in KeysOf(batches.days) ==> r[k] == objects[k])
            && forall d :: d in batches.byDay ==>
                 r[DayfileKey(d)] == MergedFile(objects, d, batches.byDay[d], meta)
  {
    MergeDaysEffect(objects, batches.days, batches.byDay, meta);
    forall d | d in batches.byDay
      ensures MergeDays(objects, batches.days, batches.byDay, meta)[DayfileKey(d)]
           == MergedFile(objects, d, batches.byDay[d], meta)
    {
      var j :| 0 <= j < |batches.days| && batches.days[j] == d;
    }
  }

  lemma {:induction false} MergeDaysMergedAs(objects: Objects, days: seq<Day>, byDay: map<Day, seq<Reading>>, meta: Json)
    requires forall i :: 0 <= i < |days| ==> days[i] in byDay
    requires forall i, j :: 0 <= i < j < |days| ==> days[i] != days[j]
    ensures MergedAs(objects, days, byDay, meta, MergeDays(objects, days, byDay, meta))
  {
    if |days| > 0 {
      var n := |days|;
      var init := days[..n - 1];
      assert forall i :: 0 <= i < n - 1 ==> init[i] == days[i];
      MergeDaysMergedAs(objects, init, byDay, meta);
      MergedAsSnoc(objects, days, byDay, meta, MergeDays(objects, init, byDay, meta));
    } else {
      assert KeysOf(days) == {};
    }
  }

  /** A well-formed dayfile for day d: at least one reading, and every reading on day d. */
  predicate HoldsDay(f: Dayfile, d: Day)
  {
    |f.items| > 0 && forall i :: 0 <= i < |f.items| ==> OnDay(f.items[i], d)
  }

  /** Every dayfile in the store is well formed for the day its key names. */
  predicate Archived(objects: Objects)
  {
    forall d: Day :: DayfileKey(d) in objects ==> HoldsDay(objects[DayfileKey(d)], d)
  }

  lemma MergeArchived(objects: Objects, day: Day, readings: seq<Reading>, meta: Json)
    requires Archived(objects) && HoldsDay(Dayfile(meta, readings), day)
    ensures Archived(Merge(objects, day, readings, meta))
  {
    var r := Merge(objects, day, readings, meta);
    forall d: Day | DayfileKey(d) in r ensures HoldsDay(r[DayfileKey(d)], d) {
      if DayfileKey(d) == DayfileKey(day) {
        DayfileKeyInjective(d, day);
      }
    }
  }

  /** Merging non-empty batches of readings on their own days keeps every dayfile well formed. */
  lemma {:induction false} MergeDaysArchived(objects: Objects, days: seq<Day>, byDay: map<Day, seq<Reading>>, meta: Json)
    requires forall i :: 0 <= i < |days| ==> days[i] in byDay && HoldsDay(Dayfile(meta, byDay[days[i]]), days[i])
    requires Archived(objects)
    ensures Archived(MergeDays(objects, days, byDay, meta))
  {
    if |days| > 0 {
      var n := |days|;
      assert forall i :: 0 <= i < n - 1 ==> days[..n - 1][i] == days[i];
      MergeDaysArchived(objects, days[..n - 1], byDay, meta);
      var last := days[n - 1];
      assert HoldsDay(Dayfile(meta, byDay[last]), last);
      MergeArchived(MergeDays(objects, days[..n - 1], byDay, meta), last, byDay[last], meta);
    }
  }

  /** Nothing stored is lost: every dayfile is still there, with its meta, its readings a prefix. */
  predicate Extends(before: Objects, after: Objects)
  {
    forall k :: k in before ==> k in after && after[k].meta == before[k].meta && before[k].items <= after[k].items
  }

  /** Merging only ever appends: the store after a batch merge extends the store before it. */
  lemma {:induction false} MergeDaysExtends(objects: Objects, days: seq<Day>, byDay: map<Day, seq<Reading>>, meta: Json)
    requires forall i :: 0 <= i < |days| ==> days[i] in byDay
    ensures Extends(objects, MergeDays(objects, days, byDay, meta))
  {
    if |days| > 0 {
      var n := |days|;
      assert forall i :: 0 <= i < n - 1 ==> days[..n - 1][i] == days[i];
      MergeDaysExtends(objects, days[..n - 1], byDay, meta);
      var prev := MergeDays(objects, days[..n - 1], byDay, meta);
      MergeExtends(prev, days[n - 1], byDay[days[n - 1]], meta);
      ExtendsTrans(objects, prev, MergeDays(objects, days, byDay, meta));
    }
  }

  /** One merge only appends. */
  lemma MergeExtends(objects: Objects, day: Day, readings: seq<Reading>, meta: Json)
    ensures Extends(objects, Merge(objects, day, readings, meta))
  {
    var key := DayfileKey(day);
    if key in objects {
      assert objects[key].items <= objects[key].items + readings;
    }
  }

  lemma ExtendsTrans(a: Objects, b: Objects, c: Objects)
    requires Extends(a, b) && Extends(b, c)
    ensures Extends(a, c)
  {
    forall k | k in a ensures a[k].items <= c[k].items {
      var x, y, z := a[k].items, b[k].items, c[k].items;
      assert x == y[..|x|] && y == z[..|y|];
      assert x == z[..|x|];
    }
  }

  // The backward search for the most recent dayfile.

  /** The search_limit default of find_most_recent_dayfile. */
  const DefaultSearchLimit: nat := 7

  /** find_most_recent_dayfile as written: the recursive call passes day - 1 and tries + 1 but not
      search_limit, so every call after the first compares tries with the default 7. */
  function FindMostRecentAsWritten(objects: Objects, day: Day, tries: nat, searchLimit: nat): (r: Day)
    requires tries == searchLimit || (tries < DefaultSearchLimit && day - (DefaultSearchLimit - tries) >= MinDay)
    ensures r <= day && (tries < DefaultSearchLimit ==> day - (DefaultSearchLimit - tries) <= r)
    decreases DefaultSearchLimit - tries
  {
    if DayfileKey(day) in objects then day
    else if tries == searchLimit then day
    else FindMostRecentAsWritten(objects, day - 1, tries + 1, DefaultSearchLimit)
  }

  /** find_most_recent_dayfile with search_limit passed on: probes day, day - 1, ... down to
      day - (searchLimit - tries) and returns the latest day whose dayfile exists, or else the
      oldest day probed. */
  function Locate(objects: Objects, day: Day, tries: nat, searchLimit: nat): (r: Day)
    requires tries <= searchLimit && day - (searchLimit - tries) >= MinDay
    ensures day - (searchLimit - tries) <= r <= day
    decreases searchLimit - tries
  {
    if DayfileKey(day) in objects then day
    else if tries == searchLimit then day
    else Locate(objects, day - 1, tries + 1, searchLimit)
  }

  /** No dayfile exists after the day Locate returns, up to where it started, and that day is
      an existing dayfile or else the oldest day of the window. */
  lemma {:induction false} LocateSpec(objects: Objects, day: Day, tries: nat, searchLimit: nat)
    requires tries <= searchLimit && day - (searchLimit - tries) >= MinDay
    ensures var r := Locate(objects, day, tries, searchLimit);
            (forall d: Day :: r < d <= day ==> DayfileKey(d) !in objects)
            && (DayfileKey(r) in objects || r == day - (searchLimit - tries))
    decreases searchLimit - tries
  {
    if DayfileKey(day) !in objects && tries < searchLimit {
      LocateSpec(objects, day - 1, tries + 1, searchLimit);
    }
  }

  /** With the default limit, which is how the cycle calls it, the search as written is Locate. */
  lemma {:induction false} SearchAgreesAtDefault(objects: Objects, day: Day, tries: nat)
    requires tries <= DefaultSearchLimit && day - (DefaultSearchLimit - tries) >= MinDay
    ensures FindMostRecentAsWritten(objects, day, tries, DefaultSearchLimit)
         == Locate(objects, day, tries, DefaultSearchLimit)
    decreases DefaultSearchLimit - tries
  {
    if DayfileKey(day) !in objects && tries < DefaultSearchLimit {
      SearchAgreesAtDefault(objects, day - 1, tries + 1);
    }
  }

  /** Asked for 3 days over an empty store, the search as written still goes back 7 days. */
  lemma SearchLimitNotForwarded(start: Day)
    requires start - DefaultSearchLimit >= MinDay
    ensures FindMostRecentAsWritten(map[], start, 0, 3) == start - 7
    ensures Locate(map[], start, 0, 3) == start - 3
  {
    SearchAgreesAtDefault(map[], start - 1, 1);
  }

  /** If some dayfile exists in the window, the search returns an existing one, no older. */
  lemma LocateFindsExisting(objects: Objects, day: Day, searchLimit: nat, found: Day)
    requires day - searchLimit >= MinDay
    requires day - searchLimit <= found <= day && DayfileKey(found) in objects
    ensures DayfileKey(Locate(objects, day, 0, searchLimit)) in objects
    ensures found <= Locate(objects, day, 0, searchLimit)
  {
    LocateNoOlderThan(objects, day, searchLimit, found);
    LocateSpec(objects, day, 0, searchLimit);
  }

  /** The search stops no earlier than any existing dayfile of its window. */
  lemma LocateNoOlderThan(objects: Objects, day: Day, searchLimit: nat, found: Day)
    requires day - searchLimit >= MinDay
    requires day - searchLimit <= found <= day && DayfileKey(found) in objects
    ensures found <= Locate(objects, day, 0, searchLimit)
  {
    LocateSpec(objects, day, 0, searchLimit);
  }

  /** With no dayfile in the window, the search returns its oldest day. */
  lemma LocateEmptyWindow(objects: Objects, day: Day, searchLimit: nat)
    requires day - searchLimit >= MinDay
    requires forall d: Day :: day - searchLimit <= d <= day ==> DayfileKey(d) !in objects
    ensures Locate(objects, day, 0, searchLimit) == day - searchLimit
  {
    var r := Locate(objects, day, 0, searchLimit);
    LocateSpec(objects, day, 0, searchLimit);
    assert DayfileKey(r) !in objects;
  }

  // The cursor.

  /** The dateTime of the first item after a descending sort by dateTime: the greatest timestamp. */
  function LatestDateTime(items: seq<Reading>): (c: string)
    requires |items| > 0
    ensures exists i :: 0 <= i < |items| && items[i].dateTime == c
    ensures forall i :: 0 <= i < |items| ==> LexLe(items[i].dateTime, c)
  {
    if |items| == 1 then LexLeRefl(items[0].dateTime); items[0].dateTime
    else
      var rest := LatestDateTime(items[1..]);
      assert forall i :: 1 <= i < |items| ==> items[i] == items[1..][i - 1];
      if LexLe(items[0].dateTime, rest) then rest
      else
        LexLeTotal(items[0].dateTime, rest);
        assert forall i :: 0 <= i < |items| ==> LexLe(items[i].dateTime, items[0].dateTime) by {
          LexLeRefl(items[0].dateTime);
          forall i | 1 <= i < |items| ensures LexLe(items[i].dateTime, items[0].dateTime) {
            LexLeTrans(items[i].dateTime, rest, items[0].dateTime);
          }
        }
        items[0].dateTime
  }

  /** The cursor is the only dateTime of the items that is at least all of them. */
  lemma LatestDateTimeUnique(items: seq<Reading>, c: string)
    requires |items| > 0
    requires exists i :: 0 <= i < |items| && items[i].dateTime == c
    requires forall i :: 0 <= i < |items| ==> LexLe(items[i].dateTime, c)
    ensures c == LatestDateTime(items)
  {
    var latest := LatestDateTime(items);
    var i :| 0 <= i < |items| && items[i].dateTime == c;
    var j :| 0 <= j < |items| && items[j].dateTime == latest;
    assert LexLe(c, latest) && LexLe(latest, c);
    LexLeAntisym(c, latest);
  }

  /** Every reading of a well-formed dayfile is on the file's day. */
  lemma ArchivedReading(objects: Objects, d: Day, i: nat)
    requires Archived(objects) && DayfileKey(d) in objects && i < |objects[DayfileKey(d)].items|
    ensures OnDay(objects[DayfileKey(d)].items[i], d)
  {
  }

  /** In a well-formed archive, the latest dateTime of the dayfile the search finds is at least
      every reading stored for any day up to the day the search started from. */
  lemma LocatedCursorIsLatest(objects: Objects, today: Day, searchLimit: nat, d: Day, i: nat)
    requires today - searchLimit >= MinDay && Archived(objects)
    requires DayfileKey(Locate(objects, today, 0, searchLimit)) in objects
    requires |objects[DayfileKey(Locate(objects, today, 0, searchLimit))].items| > 0
    requires d <= today && DayfileKey(d) in objects && i < |objects[DayfileKey(d)].items|
    ensures LexLe(objects[DayfileKey(d)].items[i].dateTime,
                  LatestDateTime(objects[DayfileKey(Locate(objects, today, 0, searchLimit))].items))
  {
    var start := Locate(objects, today, 0, searchLimit);
    LocateSpec(objects, today, 0, searchLimit);
    var items := objects[DayfileKey(start)].items;
    var cursor := LatestDateTime(items);
    var x := objects[DayfileKey(d)].items[i];
    if d < start {
      var j :| 0 <= j < |items| && items[j].dateTime == cursor;
      ArchivedReading(objects, start, j);
      ArchivedReading(objects, d, i);
      EarlierDayFirst(x.dateTime, cursor);
    } else {
      assert d == start;
    }
  }
}
