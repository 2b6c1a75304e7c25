/** Readings as the API sends them and as dayfiles keep them; trimming, keying by day and sorting. */
module Readings {
  import opened Errors
  import opened Calendar
  import opened TimeMath
  import opened Lex

  /** A JSON value the core carries through without interpreting it (a reading's value, the meta). */
  type Json = string

  /** One item of the API response: its fields by name. */
  datatype RawReading = RawReading(fields: map<string, Json>)

  /** A trimmed reading, the form a dayfile stores. */
  datatype Reading = Reading(dateTime: string, value: Json)
  {
    /** The JSON object a dayfile holds for this reading. */
    function Fields(): map<string, Json>
    {
      map["dateTime" := dateTime, "value" := value]
    }
  }

  /** trim_reading: keep exactly dateTime and value; a missing one is a KeyError. */
  function TrimReading(raw: RawReading): (r: Result<Reading>)
    ensures r.Ok? <==> "dateTime" in raw.fields && "value" in raw.fields
    ensures r.Ok? ==> r.value.Fields().Keys == {"dateTime", "value"}
    ensures r.Ok? ==> forall k :: k in r.value.Fields() ==> r.value.Fields()[k] == raw.fields[k]
    ensures r.Err? ==> r.error == MissingField(if "dateTime" in raw.fields then "value" else "dateTime")
  {
    if "dateTime" !in raw.fields then Err(MissingField("dateTime"))
    else if "value" !in raw.fields then Err(MissingField("value"))
    else Ok(Reading(raw.fields["dateTime"], raw.fields["value"]))
  }

  /** The reading's timestamp falls on day d. */
  predicate OnDay(r: Reading, d: Day)
  {
    StrToDatetime(r.dateTime).Ok? && StrToDatetime(r.dateTime).value.day == d
  }

  /** A trimmed reading with the day it belongs to. */
  datatype Keyed = Keyed(day: Day, reading: Reading)

  predicate WellKeyed(ks: seq<Keyed>)
  {
    forall i :: 0 <= i < |ks| ==> OnDay(ks[i].reading, ks[i].day)
  }

  /** One step of the partition loop: the day of the reading by parsing its dateTime, then trim it. */
  function KeyReading(raw: RawReading): (r: Result<Keyed>)
    ensures r.Ok? ==> TrimReading(raw) == Ok(r.value.reading) && OnDay(r.value.reading, r.value.day)
    ensures r.Ok? <==> "dateTime" in raw.fields && StrToDatetime(raw.fields["dateTime"]).Ok?
                       && "value" in raw.fields
  {
    if "dateTime" !in raw.fields then Err(MissingField("dateTime"))
    else
      match StrToDatetime(raw.fields["dateTime"])
      case Err(e) => Err(e)
      case Ok(dt) =>
        match TrimReading(raw)
        case Err(e) => Err(e)
        case Ok(rd) => Ok(Keyed(dt.day, rd))
  }

  /** The partition loop's reading of raws in order, stopping at the first reading that fails. */
  function KeyAll(raws: seq<RawReading>): (r: Result<seq<Keyed>>)
    ensures r.Ok? ==> |r.value| == |raws|
  {
    if |raws| == 0 then Ok([])
    else
      match KeyAll(raws[..|raws| - 1])
      case Err(e) => Err(e)
      case Ok(ks) =>
        match KeyReading(raws[|raws| - 1])
        case Err(e) => Err(e)
        case Ok(k) => Ok(ks + [k])
  }

  /** Keying succeeds iff every reading can be keyed, and then gives them elementwise, in order. */
  lemma {:induction false} KeyAllSpec(raws: seq<RawReading>)
    ensures KeyAll(raws).Ok? <==> forall i :: 0 <= i < |raws| ==> KeyReading(raws[i]).Ok?
    ensures KeyAll(raws).Ok? ==> |KeyAll(raws).value| == |raws| && WellKeyed(KeyAll(raws).value)
    ensures KeyAll(raws).Ok? ==> forall i :: 0 <= i < |raws| ==> KeyReading(raws[i]) == Ok(KeyAll(raws).value[i])
  {
    if |raws| > 0 {
      var n := |raws|;
      var init := raws[..n - 1];
      KeyAllSpec(init);
      if KeyAll(init).Err? {
        var i :| 0 <= i < n - 1 && KeyReading(init[i]).Err?;
        assert raws[i] == init[i];
      } else if KeyReading(raws[n - 1]).Ok? {
        var ks, k := KeyAll(init).value, KeyReading(raws[n - 1]).value;
        assert KeyAll(raws) == Ok(ks + [k]);
        forall i | 0 <= i < n ensures KeyReading(raws[i]) == Ok((ks + [k])[i]) {
          if i < n - 1 { assert raws[i] == init[i]; }
        }
        assert WellKeyed(ks + [k]) by {
          forall i | 0 <= i < n ensures OnDay((ks + [k])[i].reading, (ks + [k])[i].day) {
            if i < n - 1 { assert (ks + [k])[i] == ks[i]; }
          }
        }
      }
    }
  }

  /** Once a prefix fails, the whole sequence fails with the same error. */
  lemma {:induction false} KeyAllErrorPersists(raws: seq<RawReading>, n: nat)
    requires n <= |raws| && KeyAll(raws[..n]).Err?
    ensures KeyAll(raws) == KeyAll(raws[..n])
    decreases |raws| - n
  {
    if n < |raws| {
      KeyAllErrorStep(raws, n);
      KeyAllErrorPersists(raws, n + 1);
    } else {
      assert raws[..n] == raws;
    }
  }

  lemma KeyAllErrorStep(raws: seq<RawReading>, n: nat)
    requires n < |raws| && KeyAll(raws[..n]).Err?
    ensures KeyAll(raws[..n + 1]) == KeyAll(raws[..n])
  {
    assert raws[..n + 1][..n] == raws[..n];
  }

  /** The error of the first failing reading is the error of the whole partition. */
  lemma KeyAllFirstError(raws: seq<RawReading>, n: nat)
    requires n < |raws| && KeyAll(raws[..n]).Ok? && KeyReading(raws[n]).Err?
    ensures KeyAll(raws) == Err(KeyReading(raws[n]).error)
  {
    assert raws[..n + 1][..n] == raws[..n];
    assert KeyAll(raws[..n + 1]) == Err(KeyReading(raws[n]).error);
    KeyAllErrorPersists(raws, n + 1);
  }

  /** One more reading keyed: the partition grows by that reading. */
  lemma KeyAllSnoc(raws: seq<RawReading>, n: nat, ks: seq<Keyed>)
    requires n < |raws| && KeyAll(raws[..n]) == Ok(ks) && KeyReading(raws[n]).Ok?
    ensures KeyAll(raws[..n + 1]) == Ok(ks + [KeyReading(raws[n]).value])
  {
    assert raws[..n + 1][..n] == raws[..n];
  }

  // Sorting the raw items by their dateTime field, in string order.

  predicate HasDateTime(raw: RawReading) { "dateTime" in raw.fields }

  predicate AllHaveDateTime(s: seq<RawReading>) { forall i :: 0 <= i < |s| ==> HasDateTime(s[i]) }

  /** Ascending in the string order of dateTime. */
  predicate SortedByDateTime(s: seq<RawReading>)
    requires AllHaveDateTime(s)
  {
    forall i, j :: 0 <= i < j < |s| ==> LexLe(s[i].fields["dateTime"], s[j].fields["dateTime"])
  }

  /** Put x in front of the first element whose dateTime is not smaller. */
  function Insert(x: RawReading, s: seq<RawReading>): (r: seq<RawReading>)
    requires HasDateTime(x) && AllHaveDateTime(s)
    ensures AllHaveDateTime(r) && |r| == |s| + 1
  {
    if |s| == 0 then [x]
    else if LexLe(x.fields["dateTime"], s[0].fields["dateTime"]) then [x] + s
    else [s[0]] + Insert(x, s[1..])
  }

  /** Inserting adds exactly x. */
  lemma {:induction false} InsertPermutes(x: RawReading, s: seq<RawReading>)
    requires HasDateTime(x) && AllHaveDateTime(s)
    ensures multiset(Insert(x, s)) == multiset(s) + multiset{x}
  {
    if |s| > 0 && !LexLe(x.fields["dateTime"], s[0].fields["dateTime"]) {
      InsertPermutes(x, s[1..]);
      assert s == [s[0]] + s[1..];
    }
  }

  /** Inserting a reading no earlier than a bound into readings no earlier than it keeps the bound. */
  lemma {:induction false} InsertLowerBound(x: RawReading, s: seq<RawReading>, lo: string)
    requires HasDateTime(x) && AllHaveDateTime(s)
    requires LexLe(lo, x.fields["dateTime"]) && forall i :: 0 <= i < |s| ==> LexLe(lo, s[i].fields["dateTime"])
    ensures forall i :: 0 <= i < |Insert(x, s)| ==> LexLe(lo, Insert(x, s)[i].fields["dateTime"])
  {
    if |s| > 0 && !LexLe(x.fields["dateTime"], s[0].fields["dateTime"]) {
      InsertLowerBound(x, s[1..], lo);
      var t := Insert(x, s[1..]);
      assert Insert(x, s) == [s[0]] + t;
      forall i | 0 <= i < |Insert(x, s)| ensures LexLe(lo, Insert(x, s)[i].fields["dateTime"]) {
        if i > 0 { assert Insert(x, s)[i] == t[i - 1]; }
      }
    }
  }

  lemma {:induction false} InsertSorted(x: RawReading, s: seq<RawReading>)
    requires HasDateTime(x) && AllHaveDateTime(s) && SortedByDateTime(s)
    ensures SortedByDateTime(Insert(x, s))
  {
    var kx := x.fields["dateTime"];
    if |s| == 0 {
    } else if LexLe(kx, s[0].fields["dateTime"]) {
      var r := [x] + s;
      forall j | 0 < j < |r| ensures LexLe(kx, r[j].fields["dateTime"]) {
        if j > 1 { LexLeTrans(kx, s[0].fields["dateTime"], s[j - 1].fields["dateTime"]); }
      }
    } else {
      var k0 := s[0].fields["dateTime"];
      LexLeTotal(kx, k0);
      var rest := s[1..];
      assert forall i :: 0 <= i < |rest| ==> rest[i] == s[i + 1];
      InsertSorted(x, rest);
      InsertLowerBound(x, rest, k0);
      var t := Insert(x, rest);
      var r := [s[0]] + t;
      forall i, j | 0 <= i < j < |r| ensures LexLe(r[i].fields["dateTime"], r[j].fields["dateTime"]) {
        assert r[j] == t[j - 1];
        if i > 0 { assert r[i] == t[i - 1]; }
      }
    }
  }

  function InsertionSort(s: seq<RawReading>): (r: seq<RawReading>)
    requires AllHaveDateTime(s)
    ensures AllHaveDateTime(r) && SortedByDateTime(r) && multiset(r) == multiset(s)
  {
    if |s| == 0 then []
    else
      assert s == [s[0]] + s[1..];
      var rest := InsertionSort(s[1..]);
      InsertSorted(s[0], rest);
      InsertPermutes(s[0], rest);
      Insert(s[0], rest)
  }

  /** The sort of the API's items by dateTime: an item without a dateTime is a KeyError. */
  function SortByDateTime(items: seq<RawReading>): (r: Result<seq<RawReading>>)
    ensures r.Ok? <==> AllHaveDateTime(items)
    ensures r.Err? ==> r.error == MissingField("dateTime")
    ensures r.Ok? ==> AllHaveDateTime(r.value) && SortedByDateTime(r.value)
    ensures r.Ok? ==> multiset(r.value) == multiset(items)
  {
    if AllHaveDateTime(items) then Ok(InsertionSort(items)) else Err(MissingField("dateTime"))
  }
}
