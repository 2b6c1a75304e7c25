/** The grouping of readings by day that fetch_readings_since builds, and what it guarantees. */
module Partition {
  import opened Calendar
  import opened Lex
  import opened Readings

  /** A Python dict from day to its list of readings: the keys in insertion order, and the lists. */
  datatype DayBatches = DayBatches(days: seq<Day>, byDay: map<Day, seq<Reading>>)
  {
    ghost predicate Valid()
    {
      (forall i, j :: 0 <= i < j < |days| ==> days[i] != days[j]) &&
      (forall d :: d in byDay <==> d in days)
    }
  }

  function ReadingsOf(ks: seq<Keyed>): (r: seq<Reading>)
    ensures |r| == |ks| && forall i :: 0 <= i < |ks| ==> r[i] == ks[i].reading
  {
    if |ks| == 0 then [] else ReadingsOf(ks[..|ks| - 1]) + [ks[|ks| - 1].reading]
  }

  /** The readings of ks that fall on day d, in their order in ks. */
  function ReadingsOn(ks: seq<Keyed>, d: Day): seq<Reading>
  {
    if |ks| == 0 then []
    else
      var k := ks[|ks| - 1];
      ReadingsOn(ks[..|ks| - 1], d) + (if k.day == d then [k.reading] else [])
  }

  /** The days of ks, each once, in order of first appearance. */
  function DaysInOrder(ks: seq<Keyed>): seq<Day>
  {
    if |ks| == 0 then []
    else
      var p := DaysInOrder(ks[..|ks| - 1]);
      if ks[|ks| - 1].day in p then p else p + [ks[|ks| - 1].day]
  }

  /** The dict the partition loop of fetch_readings_since ends with. */
  function Group(ks: seq<Keyed>): (g: DayBatches)
    ensures g.Valid()
  {
    DaysInOrderDistinct(ks);
    DayBatches(DaysInOrder(ks), map d | d in DaysInOrder(ks) :: ReadingsOn(ks, d))
  }

  /** The lists of a dict, concatenated in key order. */
  function Flatten(days: seq<Day>, byDay: map<Day, seq<Reading>>): seq<Reading>
    requires forall i :: 0 <= i < |days| ==> days[i] in byDay
  {
    if |days| == 0 then [] else Flatten(days[..|days| - 1], byDay) + byDay[days[|days| - 1]]
  }

  predicate DayMonotone(ks: seq<Keyed>)
  {
    forall i, j :: 0 <= i < j < |ks| ==> ks[i].day <= ks[j].day
  }

  predicate ReadingsSorted(rs: seq<Reading>)
  {
    forall i, j :: 0 <= i < j < |rs| ==> LexLe(rs[i].dateTime, rs[j].dateTime)
  }

  lemma {:induction false} DaysInOrderDistinct(ks: seq<Keyed>)
    ensures forall i, j :: 0 <= i < j < |DaysInOrder(ks)| ==> DaysInOrder(ks)[i] != DaysInOrder(ks)[j]
  {
    if |ks| > 0 { DaysInOrderDistinct(ks[..|ks| - 1]); }
  }

  /** A day is a key of the dict exactly when some reading falls on it. */
  lemma {:induction false} DaysInOrderMembers(ks: seq<Keyed>, d: Day)
    ensures d in DaysInOrder(ks) <==> |ReadingsOn(ks, d)| > 0
  {
    if |ks| > 0 { DaysInOrderMembers(ks[..|ks| - 1], d); }
  }

  /** The i-th reading of day d's list is the reading of ks at the returned index, which is on day d. */
  lemma {:induction false} ReadingsOnSource(ks: seq<Keyed>, d: Day, i: nat) returns (j: nat)
    requires i < |ReadingsOn(ks, d)|
    ensures j < |ks| && ks[j].day == d && ks[j].reading == ReadingsOn(ks, d)[i]
  {
    var p := ks[..|ks| - 1];
    if i < |ReadingsOn(p, d)| {
      j := ReadingsOnSource(p, d, i);
      assert ks[j] == p[j];
    } else {
      j := |ks| - 1;
    }
  }

  /** Adding one reading at the end touches only its own day. */
  lemma ReadingsOnSnoc(p: seq<Keyed>, k: Keyed)
    ensures forall d :: ReadingsOn(p + [k], d) == ReadingsOn(p, d) + (if k.day == d then [k.reading] else [])
    ensures DaysInOrder(p + [k]) == if k.day in DaysInOrder(p) then DaysInOrder(p) else DaysInOrder(p) + [k.day]
    ensures ReadingsOf(p + [k]) == ReadingsOf(p) + [k.reading]
  {
    assert (p + [k])[..|p|] == p;
  }

  /** Every reading of ks is in the list of its own day. */
  lemma {:induction false} ReadingsOnCovers(ks: seq<Keyed>, i: nat)
    requires i < |ks|
    ensures ks[i].reading in ReadingsOn(ks, ks[i].day)
  {
    var p := ks[..|ks| - 1];
    if i < |ks| - 1 {
      assert ks[i] == p[i];
      ReadingsOnCovers(p, i);
    }
  }

  /** Every keyed reading is in the dict, in the list of its own day. */
  lemma GroupCovers(ks: seq<Keyed>, i: nat)
    requires i < |ks|
    ensures ks[i].day in Group(ks).byDay && ks[i].reading in Group(ks).byDay[ks[i].day]
  {
    ReadingsOnCovers(ks, i);
    DaysInOrderMembers(ks, ks[i].day);
  }

  /** Every reading in day d's list falls on day d. */
  lemma ReadingsOnOnDay(ks: seq<Keyed>, d: Day)
    requires WellKeyed(ks)
    ensures forall i :: 0 <= i < |ReadingsOn(ks, d)| ==> OnDay(ReadingsOn(ks, d)[i], d)
  {
    forall i | 0 <= i < |ReadingsOn(ks, d)| ensures OnDay(ReadingsOn(ks, d)[i], d) {
      var j := ReadingsOnSource(ks, d, i);
    }
  }

  /** A day's list keeps the order of ks: sorted input gives sorted lists. */
  lemma {:induction false} ReadingsOnSorted(ks: seq<Keyed>, d: Day)
    requires ReadingsSorted(ReadingsOf(ks))
    ensures ReadingsSorted(ReadingsOn(ks, d))
  {
    if |ks| > 0 {
      var p := ks[..|ks| - 1];
      var k := ks[|ks| - 1];
      assert ks == p + [k];
      ReadingsOnSnoc(p, k);
      assert ReadingsOf(p) == ReadingsOf(ks)[..|ks| - 1];
      ReadingsOnSorted(p, d);
      if k.day == d {
        var rp := ReadingsOn(p, d);
        var r := rp + [k.reading];
        forall i, j | 0 <= i < j < |r| ensures LexLe(r[i].dateTime, r[j].dateTime) {
          if j == |r| - 1 {
            var m := ReadingsOnSource(p, d, i);
            assert ReadingsOf(ks)[m] == rp[i] && ReadingsOf(ks)[|ks| - 1] == k.reading;
          }
        }
      }
    }
  }

  lemma {:induction false} FlattenFrame(days: seq<Day>, m1: map<Day, seq<Reading>>, m2: map<Day, seq<Reading>>)
    requires forall i :: 0 <= i < |days| ==> days[i] in m1 && days[i] in m2 && m1[days[i]] == m2[days[i]]
    ensures Flatten(days, m1) == Flatten(days, m2)
  {
    if |days| > 0 { FlattenFrame(days[..|days| - 1], m1, m2); }
  }

  /** For day-ordered input the newest day is the last key of the dict. */
  lemma {:induction false} LastDayIsNewest(ks: seq<Keyed>)
    requires |ks| > 0 && DayMonotone(ks)
    ensures |DaysInOrder(ks)| > 0 && DaysInOrder(ks)[|DaysInOrder(ks)| - 1] == ks[|ks| - 1].day
  {
    var p := ks[..|ks| - 1];
    var k := ks[|ks| - 1];
    assert ks == p + [k];
    ReadingsOnSnoc(p, k);
    if |p| > 0 {
      LastDayIsNewest(p);
      if k.day in DaysInOrder(p) {
        DaysInOrderMembers(p, k.day);
        var j := ReadingsOnSource(p, k.day, 0);
        assert ks[j].day <= ks[|ks| - 2].day <= ks[|ks| - 1].day;
      }
    }
  }

  /** Appending x to the list of the last key appends x to the concatenation. */
  lemma FlattenAppendLast(front: seq<Day>, last: Day, m: map<Day, seq<Reading>>, m': map<Day, seq<Reading>>, x: Reading)
    requires forall i :: 0 <= i < |front| ==> front[i] in m && front[i] in m' && m[front[i]] == m'[front[i]]
    requires last in m && last in m' && m'[last] == m[last] + [x]
    ensures Flatten(front + [last], m') == Flatten(front + [last], m) + [x]
  {
    FlattenFrame(front, m, m');
    assert (front + [last])[..|front|] == front;
  }

  /** Adding a new last key whose list is [x] appends x to the concatenation. */
  lemma FlattenAppendNew(days: seq<Day>, last: Day, m: map<Day, seq<Reading>>, m': map<Day, seq<Reading>>, x: Reading)
    requires forall i :: 0 <= i < |days| ==> days[i] in m && days[i] in m' && m[days[i]] == m'[days[i]]
    requires last in m' && m'[last] == [x]
    ensures Flatten(days + [last], m') == Flatten(days, m) + [x]
  {
    FlattenFrame(days, m, m');
    assert (days + [last])[..|days|] == days;
  }

  /** The dict after one more reading: only the reading's own day's list changes. */
  lemma GroupSnoc(p: seq<Keyed>, k: Keyed)
    ensures forall d :: d in Group(p).byDay && d != k.day ==>
              d in Group(p + [k]).byDay && Group(p + [k]).byDay[d] == Group(p).byDay[d]
    ensures k.day in Group(p + [k]).byDay
    ensures k.day in Group(p).byDay ==>
              Group(p + [k]).days == Group(p).days
              && Group(p + [k]).byDay[k.day] == Group(p).byDay[k.day] + [k.reading]
  {
    ReadingsOnSnoc(p, k);
  }

  /** For day-ordered input, a reading on a day already seen is on the dict's last day. */
  lemma SeenDayIsLast(p: seq<Keyed>, k: Keyed)
    requires DayMonotone(p + [k]) && k.day in DaysInOrder(p)
    ensures |DaysInOrder(p)| > 0 && DaysInOrder(p)[|DaysInOrder(p)| - 1] == k.day
  {
    ReadingsOnSnoc(p, k);
    LastDayIsNewest(p + [k]);
  }

  /** Appending to the list of the last of distinct days appends to the concatenation. */
  lemma FlattenExtendLast(days: seq<Day>, m: map<Day, seq<Reading>>, m': map<Day, seq<Reading>>, x: Reading)
    requires |days| > 0 && forall i, j :: 0 <= i < j < |days| ==> days[i] != days[j]
    requires forall i :: 0 <= i < |days| ==> days[i] in m
    requires forall e :: e in m && e != days[|days| - 1] ==> e in m' && m'[e] == m[e]
    requires days[|days| - 1] in m' && m'[days[|days| - 1]] == m[days[|days| - 1]] + [x]
    ensures Flatten(days, m') == Flatten(days, m) + [x]
  {
    var n := |days|;
    var front := days[..n - 1];
    assert days == front + [days[n - 1]];
    assert forall i :: 0 <= i < |front| ==> front[i] == days[i] && front[i] != days[n - 1];
    FlattenAppendLast(front, days[n - 1], m, m', x);
  }

  /** A reading on the dict's last day extends that day's list, and only that list. */
  lemma GroupStepExisting(p: seq<Keyed>, k: Keyed)
    requires |DaysInOrder(p)| > 0 && DaysInOrder(p)[|DaysInOrder(p)| - 1] == k.day
    ensures var g, g' := Group(p), Group(p + [k]);
            var days := g.days;
            g'.days == days && |days| > 0 && days[|days| - 1] == k.day
            && (forall i, j :: 0 <= i < j < |days| ==> days[i] != days[j])
            && (forall i :: 0 <= i < |days| ==> days[i] in g.byDay)
            && (forall e :: e in g.byDay && e != k.day ==> e in g'.byDay && g'.byDay[e] == g.byDay[e])
            && k.day in g'.byDay && g'.byDay[k.day] == g.byDay[k.day] + [k.reading]
  {
    var g := Group(p);
    assert k.day in g.byDay by {
      assert g.days[|g.days| - 1] == k.day;
    }
    GroupSnoc(p, k);
    DaysInOrderDistinct(p);
  }

  /** A reading on a day not yet in the dict adds that day last, with a list of one. */
  lemma GroupStepNew(p: seq<Keyed>, k: Keyed)
    requires k.day !in DaysInOrder(p)
    ensures var g, g' := Group(p), Group(p + [k]);
            g'.days == g.days + [k.day]
            && (forall i :: 0 <= i < |g.days| ==>
                  g.days[i] in g.byDay && g.days[i] in g'.byDay && g.byDay[g.days[i]] == g'.byDay[g.days[i]])
            && k.day in g'.byDay && g'.byDay[k.day] == [k.reading]
  {
    var g, g' := Group(p), Group(p + [k]);
    ReadingsOnSnoc(p, k);
    DaysInOrderMembers(p, k.day);
    assert g'.byDay[k.day] == [k.reading];
    GroupSnoc(p, k);
    forall i | 0 <= i < |g.days| ensures g.days[i] in g.byDay && g.days[i] != k.day {
      var d := g.days[i];
      assert d in DaysInOrder(p);
    }
  }

  /** For day-ordered input, concatenating the per-day lists gives back the input. */
  lemma {:induction false} FlattenGroup(ks: seq<Keyed>)
    requires DayMonotone(ks)
    ensures Flatten(Group(ks).days, Group(ks).byDay) == ReadingsOf(ks)
  {
    if |ks| > 0 {
      var p := ks[..|ks| - 1];
      var k := ks[|ks| - 1];
      assert ks == p + [k];
      FlattenGroup(p);
      var g, g' := Group(p), Group(p + [k]);
      if k.day in DaysInOrder(p) {
        SeenDayIsLast(p, k);
        GroupStepExisting(p, k);
        FlattenExtendLast(g.days, g.byDay, g'.byDay, k.reading);
      } else {
        GroupStepNew(p, k);
        FlattenAppendNew(g.days, k.day, g.byDay, g'.byDay, k.reading);
      }
      ReadingsOnSnoc(p, k);
    }
  }
}
