/**
 Date overrides of two hosts merged by date (TimeUtilService.intersectOverridedAvailableTimes).

 A date is the number of its instant; an override with no ranges closes its date.
 */
module DateOverrides {
  import opened Wrappers
  import opened TimeRanges

  datatype DateOverride = DateOverride(targetDate: int, timeRanges: seq<TimeRange>)

  type Overrides = seq<DateOverride>

  /** The ranges of every entry for a date, in list order. */
  function RangesFor(overrides: Overrides, date: int): seq<seq<TimeRange>> {
    if overrides == [] then []
    else (if overrides[0].targetDate == date then [overrides[0].timeRanges] else []) + RangesFor(overrides[1..], date)
  }

  /** The ranges of the first entry for a date. */
  function OverrideOn(overrides: Overrides, date: int): Option<seq<TimeRange>> {
    var found := RangesFor(overrides, date);
    if found == [] then None else Some(found[0])
  }

  ghost predicate DistinctDates(overrides: Overrides) {
    forall i, j | 0 <= i < j < |overrides| :: overrides[i].targetDate != overrides[j].targetDate
  }

  ghost predicate StrictlyDescending(overrides: Overrides) {
    forall i, j | 0 <= i < j < |overrides| :: overrides[i].targetDate > overrides[j].targetDate
  }

  /** One date of the merge: the sole list, closed if either list is, else the overlap of the two. */
  function SharedOverride(a: Option<seq<TimeRange>>, b: Option<seq<TimeRange>>): Option<seq<TimeRange>> {
    if a.None? then b
    else if b.None? then a
    else if a.value == [] || b.value == [] then Some([])
    else Some(Sweep(a.value, b.value))
  }

  // ---------------------------------------------------------------- lookups

  lemma {:induction false} RangesForConcat(a: Overrides, b: Overrides, date: int)
    ensures RangesFor(a + b, date) == RangesFor(a, date) + RangesFor(b, date)
  {
    if a == [] {
      assert a + b == b;
    } else {
      var head := if a[0].targetDate == date then [a[0].timeRanges] else [];
      RangesForConcat(a[1..], b, date);
      assert (a + b)[0] == a[0] && (a + b)[1..] == a[1..] + b;
      Associate(head, RangesFor(a[1..], date), RangesFor(b, date));
    }
  }

  lemma {:induction false} DateAbsent(overrides: Overrides, date: int)
    ensures RangesFor(overrides, date) == [] <==> forall o | o in overrides :: o.targetDate != date
  {
    if overrides != [] {
      DateAbsent(overrides[1..], date);
    }
  }

  lemma {:induction false} DistinctDatesOnce(overrides: Overrides, date: int)
    requires DistinctDates(overrides)
    ensures |RangesFor(overrides, date)| <= 1
  {
    if overrides != [] {
      DistinctDatesOnce(overrides[1..], date);
      DateAbsent(overrides[1..], date);
    }
  }

  /** An entry is what its date looks up when dates do not repeat. */
  lemma {:induction false} OverrideOnEntry(overrides: Overrides, o: DateOverride)
    requires DistinctDates(overrides) && o in overrides
    ensures OverrideOn(overrides, o.targetDate) == Some(o.timeRanges)
  {
    if overrides[0] != o {
      OverrideOnEntry(overrides[1..], o);
      assert o in overrides[1..];
    }
  }

  /** A descending list is determined by its lookups. */
  lemma {:induction false} DescendingUnique(a: Overrides, b: Overrides)
    requires StrictlyDescending(a) && StrictlyDescending(b)
    requires forall date :: OverrideOn(a, date) == OverrideOn(b, date)
    ensures a == b
  {
    if a != [] || b != [] {
      assert a != [] ==> OverrideOn(a, a[0].targetDate) == Some(a[0].timeRanges);
      assert b != [] ==> OverrideOn(b, b[0].targetDate) == Some(b[0].timeRanges);
      FirstDate(a, b);
      FirstDate(b, a);
      forall date
        ensures OverrideOn(a[1..], date) == OverrideOn(b[1..], date)
      {
        TailLookup(a, date);
        TailLookup(b, date);
      }
      DescendingUnique(a[1..], b[1..]);
    }
  }

  lemma FirstDate(a: Overrides, b: Overrides)
    requires StrictlyDescending(b) && a != []
    requires OverrideOn(b, a[0].targetDate).Some?
    ensures b != [] && a[0].targetDate <= b[0].targetDate
  {
    DateAbsent(b, a[0].targetDate);
  }

  lemma TailLookup(a: Overrides, date: int)
    requires StrictlyDescending(a) && a != []
    ensures OverrideOn(a[1..], date) == if date == a[0].targetDate then None else OverrideOn(a, date)
  {
    if date == a[0].targetDate {
      DateAbsent(a[1..], date);
    }
  }

  // ---------------------------------------------------------------- the merge

  /** Insertion by descending date, after entries of the same date. */
  function Insert(o: DateOverride, sorted: Overrides): Overrides {
    if sorted == [] then [o]
    else if sorted[0].targetDate < o.targetDate then [o] + sorted
    else [sorted[0]] + Insert(o, sorted[1..])
  }

  /** Array.prototype.sort by descending date. */
  function SortDescending(overrides: Overrides): Overrides {
    if overrides == [] then []
    else
      var last := |overrides| - 1;
      Insert(overrides[last], SortDescending(overrides[..last]))
  }

  lemma {:induction false} InsertHolds(o: DateOverride, sorted: Overrides)
    requires StrictlyDescending(sorted) && forall x | x in sorted :: x.targetDate != o.targetDate
    ensures StrictlyDescending(Insert(o, sorted))
    ensures forall x :: x in Insert(o, sorted) <==> x == o || x in sorted
  {
    if sorted != [] && sorted[0].targetDate > o.targetDate {
      InsertHolds(o, sorted[1..]);
      var rest := Insert(o, sorted[1..]);
      assert forall x | x in rest :: x.targetDate < sorted[0].targetDate;
    }
  }

  lemma {:induction false} SortHolds(overrides: Overrides)
    requires DistinctDates(overrides)
    ensures StrictlyDescending(SortDescending(overrides))
    ensures forall x :: x in SortDescending(overrides) <==> x in overrides
  {
    if overrides != [] {
      var last := |overrides| - 1;
      SortHolds(overrides[..last]);
      InsertHolds(overrides[last], SortDescending(overrides[..last]));
      assert overrides == overrides[..last] + [overrides[last]];
    }
  }

  lemma SortLookup(overrides: Overrides, date: int)
    requires DistinctDates(overrides)
    ensures OverrideOn(SortDescending(overrides), date) == OverrideOn(overrides, date)
  {
    var sorted := SortDescending(overrides);
    SortHolds(overrides);
    DateAbsent(overrides, date);
    DateAbsent(sorted, date);
    if exists o :: o in overrides && o.targetDate == date {
      var o :| o in overrides && o.targetDate == date;
      OverrideOnEntry(overrides, o);
      OverrideOnEntry(sorted, o);
    }
  }

  /** The dates of a list in first-seen order, the order a Map keeps its keys in. */
  function FirstSeen(overrides: Overrides): seq<int> {
    if overrides == [] then []
    else
      var last := |overrides| - 1;
      var date := overrides[last].targetDate;
      FirstSeen(overrides[..last]) + if RangesFor(overrides[..last], date) == [] then [date] else []
  }

  /** The ranges of one date, of which only the first two lists count. */
  function Combine(found: seq<seq<TimeRange>>): seq<TimeRange>
    requires found != []
  {
    if |found| == 1 then found[0]
    else if found[0] == [] || found[1] == [] then []
    else Sweep(found[0], found[1])
  }

  function Combined(overrides: Overrides, date: int): DateOverride {
    var found := RangesFor(overrides, date);
    DateOverride(date, if found == [] then [] else Combine(found))
  }

  function CombinedAll(overrides: Overrides, dates: seq<int>): Overrides {
    seq(|dates|, i requires 0 <= i < |dates| => Combined(overrides, dates[i]))
  }

  function MergeOverrides(a: Overrides, b: Overrides): Overrides {
    SortDescending(CombinedAll(a + b, FirstSeen(a + b)))
  }

  ghost predicate Distinct(dates: seq<int>) {
    forall i, j | 0 <= i < j < |dates| :: dates[i] != dates[j]
  }

  lemma {:induction false} FirstSeenHolds(overrides: Overrides)
    ensures Distinct(FirstSeen(overrides))
    ensures forall date :: date in FirstSeen(overrides) <==> RangesFor(overrides, date) != []
  {
    if overrides != [] {
      var last := |overrides| - 1;
      var front := overrides[..last];
      FirstSeenHolds(front);
      assert overrides == front + [overrides[last]];
      forall date
        ensures RangesFor(overrides, date) ==
                RangesFor(front, date) + if overrides[last].targetDate == date then [overrides[last].timeRanges] else []
      {
        RangesForConcat(front, [overrides[last]], date);
      }
    }
  }

  /** A map with exactly the non-empty values of f. */
  ghost predicate Tabulates(m: map<int, seq<seq<TimeRange>>>, f: int -> seq<seq<TimeRange>>) {
    && (forall date :: date in m <==> f(date) != [])
    && (forall date | date in m :: m[date] == f(date))
  }

  /** What the Map holds once a list of overrides is read. */
  ghost predicate MapHolds(keys: seq<int>, rangesOf: map<int, seq<seq<TimeRange>>>, read: Overrides) {
    keys == FirstSeen(read) && Tabulates(rangesOf, date => RangesFor(read, date))
  }

  lemma TabulatesUpdate(m: map<int, seq<seq<TimeRange>>>, f: int -> seq<seq<TimeRange>>,
                        g: int -> seq<seq<TimeRange>>, key: int, ranges: seq<TimeRange>)
    requires Tabulates(m, f)
    requires g(key) == f(key) + [ranges] && forall date | date != key :: g(date) == f(date)
    ensures key in m ==> Tabulates(m[key := m[key] + [ranges]], g)
    ensures key !in m ==> Tabulates(m[key := [ranges]], g)
  {
    assert key !in m ==> f(key) + [ranges] == [ranges];
  }

  /** Reading one more entry adds its ranges to its date and nothing else. */
  lemma ReadOne(keys: seq<int>, rangesOf: map<int, seq<seq<TimeRange>>>, all: Overrides, i: nat)
    requires i < |all| && MapHolds(keys, rangesOf, all[..i])
    ensures var DateOverride(date, ranges) := all[i];
            if date in rangesOf
            then MapHolds(keys, rangesOf[date := rangesOf[date] + [ranges]], all[..i + 1])
            else MapHolds(keys + [date], rangesOf[date := [ranges]], all[..i + 1])
  {
    FirstSeenStep(all, i);
    var f := date => RangesFor(all[..i], date);
    var g := date => RangesFor(all[..i + 1], date);
    var DateOverride(key, ranges) := all[i];
    forall date ensures g(date) == RangesForStep(all, i, date) {
      RangesForOneMore(all, i, date);
    }
    TabulatesUpdate(rangesOf, f, g, key, ranges);
  }

  function RangesForStep(all: Overrides, i: nat, date: int): seq<seq<TimeRange>>
    requires i < |all|
  {
    if all[i].targetDate == date then RangesFor(all[..i], date) + [all[i].timeRanges] else RangesFor(all[..i], date)
  }

  lemma RangesForOneMore(all: Overrides, i: nat, date: int)
    requires i < |all|
    ensures RangesFor(all[..i + 1], date) == RangesForStep(all, i, date)
  {
    assert all[..i + 1] == all[..i] + [all[i]];
    RangesForConcat(all[..i], [all[i]], date);
  }

  lemma FirstSeenStep(all: Overrides, i: nat)
    requires i < |all|
    ensures FirstSeen(all[..i + 1]) ==
            if RangesFor(all[..i], all[i].targetDate) == [] then FirstSeen(all[..i]) + [all[i].targetDate]
            else FirstSeen(all[..i])
  {
    assert all[..i + 1][..i] == all[..i];
  }

  method ReadOverrides(allOverrides: Overrides) returns (keys: seq<int>, rangesOf: map<int, seq<seq<TimeRange>>>)
    ensures MapHolds(keys, rangesOf, allOverrides)
  {
    keys, rangesOf := [], map[];
    for i := 0 to |allOverrides|
      invariant MapHolds(keys, rangesOf, allOverrides[..i])
    {
      ReadOne(keys, rangesOf, allOverrides, i);
      var DateOverride(targetDate, timeRanges) := allOverrides[i];
      if targetDate in rangesOf {
        rangesOf := rangesOf[targetDate := rangesOf[targetDate] + [timeRanges]];
      } else {
        rangesOf := rangesOf[targetDate := [timeRanges]];
        keys := keys + [targetDate];
      }
    }
    assert allOverrides[..|allOverrides|] == allOverrides;
  }

  /** The body of the do-while loop: the source throws when no case applies, and one always does. */
  method CombineTimeRanges(timeRangesArray: seq<seq<TimeRange>>) returns (timeRanges: seq<TimeRange>)
    requires timeRangesArray != []
    ensures timeRanges == Combine(timeRangesArray)
  {
    var isUniqueOverride := |timeRangesArray| == 1;
    if isUniqueOverride {
      timeRanges := timeRangesArray[0];
    } else if timeRangesArray[0] == [] || timeRangesArray[1] == [] {
      timeRanges := [];
    } else if timeRangesArray[0] != [] && timeRangesArray[1] != [] {
      timeRanges := IntersectTimeRanges(timeRangesArray[0], timeRangesArray[1]);
    } else {
      assert false;
    }
  }

  lemma CombinedAllStep(overrides: Overrides, dates: seq<int>, k: nat)
    requires k < |dates|
    ensures CombinedAll(overrides, dates[..k + 1]) ==
            CombinedAll(overrides, dates[..k]) + [Combined(overrides, dates[k])]
  {
  }

  method IntersectOverridedAvailableTimes(overridesA: Overrides, overridesB: Overrides) returns (merged: Overrides)
    ensures merged == MergeOverrides(overridesA, overridesB)
  {
    var allOverrides := overridesA + overridesB;
    var keys, intersectOverrideMap := ReadOverrides(allOverrides);
    FirstSeenHolds(allOverrides);
    merged := [];
    for k := 0 to |keys|
      invariant merged == CombinedAll(allOverrides, keys[..k])
    {
      CombinedAllStep(allOverrides, keys, k);
      assert keys[k] in keys;
      assert RangesFor(allOverrides, keys[k]) != [];
      var timeRanges := CombineTimeRanges(intersectOverrideMap[keys[k]]);
      merged := merged + [DateOverride(keys[k], timeRanges)];
    }
    assert keys[..|keys|] == keys;
    merged := SortDescending(merged);
  }

  /** The merge always comes out in strictly descending order, each date once. */
  lemma MergeDescending(a: Overrides, b: Overrides)
    ensures StrictlyDescending(MergeOverrides(a, b))
    ensures forall date :: OverrideOn(MergeOverrides(a, b), date).Some? <==> RangesFor(a + b, date) != []
    ensures forall date | RangesFor(a + b, date) != [] ::
              OverrideOn(MergeOverrides(a, b), date) == Some(Combine(RangesFor(a + b, date)))
  {
    var dates := FirstSeen(a + b);
    var entries := CombinedAll(a + b, dates);
    FirstSeenHolds(a + b);
    assert DistinctDates(entries);
    SortHolds(entries);
    forall date
      ensures OverrideOn(MergeOverrides(a, b), date) ==
              if RangesFor(a + b, date) != [] then Some(Combine(RangesFor(a + b, date))) else None
    {
      SortLookup(entries, date);
      if RangesFor(a + b, date) != [] {
        var i :| 0 <= i < |dates| && dates[i] == date;
        OverrideOnEntry(entries, entries[i]);
      } else {
        DateAbsent(entries, date);
      }
    }
  }

  /** With distinct dates on each side, every date of either host is kept and means what both say. */
  lemma MergeMeaning(a: Overrides, b: Overrides, date: int)
    requires DistinctDates(a) && DistinctDates(b)
    ensures OverrideOn(MergeOverrides(a, b), date) == SharedOverride(OverrideOn(a, date), OverrideOn(b, date))
  {
    MergeDescending(a, b);
    RangesForConcat(a, b, date);
    DistinctDatesOnce(a, date);
    DistinctDatesOnce(b, date);
  }

  /** What is said of a date is what its first entry says. */
  lemma {:induction false} OverrideOnFirst(overrides: Overrides, date: int, i: nat)
    requires i < |overrides| && overrides[i].targetDate == date
    requires forall j | 0 <= j < i :: overrides[j].targetDate != date
    ensures OverrideOn(overrides, date) == Some(overrides[i].timeRanges)
    decreases i
  {
    if i > 0 {
      assert overrides[0].targetDate != date;
      assert forall j | 0 <= j < i - 1 :: overrides[1..][j] == overrides[j + 1];
      OverrideOnFirst(overrides[1..], date, i - 1);
    }
  }
}
