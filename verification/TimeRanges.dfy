/**
 The two-pointer intersection of time ranges (TimeUtilService.intersectTimeRanges).

 A time slot is the text "HH:MM".  All texts have this one zero-padded format, so two
 texts are equal exactly when their hours and minutes are.
 */
module TimeRanges {

  datatype HourMinute = TimeSlot(hour: nat, minute: nat) {
    /** Minutes after midnight. */
    function Minutes(): int {
      60 * hour + minute
    }
  }

  type TimeSlot = s: HourMinute | s.minute < 60 witness TimeSlot(0, 0)

  datatype TimeSlotCompare = MIN | MAX

  /** compareTimeSlot: hours decide, then minutes; on a tie MIN is the first text and MAX the second. */
  function CompareTimeSlot(a: TimeSlot, b: TimeSlot, which: TimeSlotCompare): (r: TimeSlot)
    ensures which.MIN? ==> r.Minutes() == if a.Minutes() <= b.Minutes() then a.Minutes() else b.Minutes()
    ensures which.MAX? ==> r.Minutes() == if a.Minutes() <= b.Minutes() then b.Minutes() else a.Minutes()
    ensures r == a || r == b
  {
    if a.hour < b.hour then
      if which.MIN? then a else b
    else if a.hour == b.hour then
      var minTime := if a.minute > b.minute then b else a;
      var maxTime := if a.minute > b.minute then a else b;
      if which.MIN? then minTime else maxTime
    else
      if which.MIN? then b else a
  }

  datatype TimeRange = TimeRange(startTime: TimeSlot, endTime: TimeSlot) {
    function Start(): int { startTime.Minutes() }

    function End(): int { endTime.Minutes() }

    predicate NonEmpty() { Start() < End() }

    /** The minute that begins at m belongs to the range. */
    predicate Covers(m: int) { Start() <= m < End() }

    /** Every instant of this range, ends included, is one of that range. */
    predicate Within(that: TimeRange) { that.Start() <= Start() && End() <= that.End() }
  }

  /** Non-empty ranges in time order that do not overlap (they may touch). */
  ghost predicate Ordered(rs: seq<TimeRange>) {
    && (forall i | 0 <= i < |rs| :: rs[i].NonEmpty())
    && (forall i, j | 0 <= i < j < |rs| :: rs[i].End() <= rs[j].Start())
  }

  ghost predicate Free(rs: seq<TimeRange>, m: int) {
    exists r | r in rs :: r.Covers(m)
  }

  function Meet(a: TimeRange, b: TimeRange): TimeRange {
    TimeRange(
      CompareTimeSlot(a.startTime, b.startTime, MAX),
      CompareTimeSlot(a.endTime, b.endTime, MIN))
  }

  /** The test before the push: start and end differ, and the start is the lesser of the two. */
  predicate Pushed(r: TimeRange) {
    r.startTime != r.endTime && CompareTimeSlot(r.startTime, r.endTime, MIN) == r.startTime
  }

  /** What the sweep over the rest of both lists adds to its result. */
  function Sweep(a: seq<TimeRange>, b: seq<TimeRange>): (r: seq<TimeRange>)
    ensures |r| <= |a| + |b|
    decreases |a| + |b|
  {
    if a == [] || b == [] then []
    else
      var meet := Meet(a[0], b[0]);
      (if Pushed(meet) then [meet] else []) +
      (if meet.endTime == a[0].endTime then Sweep(a[1..], b) else Sweep(a, b[1..]))
  }

  method IntersectTimeRanges(timeRangesA: seq<TimeRange>, timeRangesB: seq<TimeRange>)
    returns (intersected: seq<TimeRange>)
    ensures intersected == Sweep(timeRangesA, timeRangesB)
    ensures Ordered(timeRangesA) && Ordered(timeRangesB) ==>
              && Ordered(intersected)
              && forall m :: Free(intersected, m) <==> Free(timeRangesA, m) && Free(timeRangesB, m)
  {
    var pingA, pingB := 0, 0;
    intersected := [];
    while pingA < |timeRangesA| && pingB < |timeRangesB|
      invariant 0 <= pingA <= |timeRangesA| && 0 <= pingB <= |timeRangesB|
      invariant intersected + Sweep(timeRangesA[pingA..], timeRangesB[pingB..]) == Sweep(timeRangesA, timeRangesB)
      decreases |timeRangesA| - pingA + |timeRangesB| - pingB
    {
      var timeRangeA, timeRangeB := timeRangesA[pingA], timeRangesB[pingB];
      var maximizedStartTime := CompareTimeSlot(timeRangeA.startTime, timeRangeB.startTime, MAX);
      var minimizedEndTime := CompareTimeSlot(timeRangeA.endTime, timeRangeB.endTime, MIN);

      var isDifferentTime := maximizedStartTime != minimizedEndTime;
      var isLinearDeployment := CompareTimeSlot(maximizedStartTime, minimizedEndTime, MIN) == maximizedStartTime;
      SweepStep(timeRangesA, timeRangesB, pingA, pingB, intersected);
      if isDifferentTime && isLinearDeployment {
        intersected := intersected + [TimeRange(maximizedStartTime, minimizedEndTime)];
      }
      if minimizedEndTime == timeRangeA.endTime {
        pingA := pingA + 1;
      } else {
        pingB := pingB + 1;
      }
    }
    assert intersected + [] == intersected;
    SweepMeaning(timeRangesA, timeRangesB);
  }

  /** One turn of the loop takes the first step of the sweep over what is left. */
  lemma SweepStep(a: seq<TimeRange>, b: seq<TimeRange>, i: nat, j: nat, done: seq<TimeRange>)
    requires i < |a| && j < |b|
    ensures var meet := Meet(a[i], b[j]);
            var done' := if Pushed(meet) then done + [meet] else done;
            done + Sweep(a[i..], b[j..]) ==
            done' + if meet.endTime == a[i].endTime then Sweep(a[i + 1..], b[j..]) else Sweep(a[i..], b[j + 1..])
  {
    var meet := Meet(a[i], b[j]);
    var step := if Pushed(meet) then [meet] else [];
    var rest := if meet.endTime == a[i].endTime then Sweep(a[i + 1..], b[j..]) else Sweep(a[i..], b[j + 1..]);
    assert Sweep(a[i..], b[j..]) == step + rest by {
      assert a[i..][1..] == a[i + 1..] && b[j..][1..] == b[j + 1..];
    }
    Associate(done, step, rest);
  }

  lemma Associate<T>(a: seq<T>, b: seq<T>, c: seq<T>)
    ensures a + (b + c) == (a + b) + c
    ensures b == [] ==> a + b == a
  {
  }

  // ---------------------------------------------------------------- single ranges

  lemma MinutesInjective(a: TimeSlot, b: TimeSlot)
    ensures a.Minutes() == b.Minutes() <==> a == b
  {
  }

  lemma PushedIsNonEmpty(r: TimeRange)
    ensures Pushed(r) <==> r.NonEmpty()
  {
    MinutesInjective(r.startTime, r.endTime);
  }

  lemma SameRange(a: TimeRange, b: TimeRange)
    requires a.Start() == b.Start() && a.End() == b.End()
    ensures a == b
  {
    MinutesInjective(a.startTime, b.startTime);
    MinutesInjective(a.endTime, b.endTime);
  }

  // ---------------------------------------------------------------- the ranges of a sweep

  /** r is the non-empty overlap of a range of each list. */
  ghost predicate IsOverlap(r: TimeRange, a: seq<TimeRange>, b: seq<TimeRange>) {
    r.NonEmpty() && exists x, y | x in a && y in b :: r == Meet(x, y)
  }

  /** Whatever the lists look like, every range pushed lies in one range of each. */
  lemma {:induction false} SweepWithin(a: seq<TimeRange>, b: seq<TimeRange>)
    ensures forall r | r in Sweep(a, b) :: IsOverlap(r, a, b)
    decreases |a| + |b|
  {
    if a != [] && b != [] {
      var meet := Meet(a[0], b[0]);
      PushedIsNonEmpty(meet);
      if meet.endTime == a[0].endTime {
        SweepWithin(a[1..], b);
      } else {
        SweepWithin(a, b[1..]);
      }
    }
  }

  lemma MeetNonEmpty(x: TimeRange, y: TimeRange)
    requires Meet(x, y).NonEmpty()
    ensures x.NonEmpty() && y.NonEmpty()
  {
  }

  lemma MeetOfDisjoint(x: TimeRange, y: TimeRange)
    requires x.End() <= y.Start() || y.End() <= x.Start()
    ensures !Meet(x, y).NonEmpty()
  {
  }

  /** For ordered lists no overlap of two ranges is missed. */
  lemma {:induction false} SweepComplete(a: seq<TimeRange>, b: seq<TimeRange>, x: TimeRange, y: TimeRange)
    requires Ordered(a) && Ordered(b)
    requires x in a && y in b && Meet(x, y).NonEmpty()
    ensures Meet(x, y) in Sweep(a, b)
    decreases |a| + |b|
  {
    var meet := Meet(a[0], b[0]);
    PushedIsNonEmpty(meet);
    if meet.endTime == a[0].endTime {
      if x in a[1..] {
        SweepComplete(a[1..], b, x, y);
      } else if y != b[0] {
        LaterIsDisjoint(a[0], b, y);
      }
    } else {
      if y in b[1..] {
        SweepComplete(a, b[1..], x, y);
      } else if x != a[0] {
        LaterIsDisjoint(b[0], a, x);
      }
    }
  }

  /** A range that ends no later than the first of an ordered list misses all the others. */
  lemma LaterIsDisjoint(x: TimeRange, b: seq<TimeRange>, y: TimeRange)
    requires Ordered(b) && y in b && y != b[0] && x.End() <= b[0].End()
    ensures !Meet(x, y).NonEmpty() && !Meet(y, x).NonEmpty()
  {
    assert b[0].End() <= y.Start();
    MeetOfDisjoint(x, y);
    MeetOfDisjoint(y, x);
  }

  lemma SweepElements(a: seq<TimeRange>, b: seq<TimeRange>)
    requires Ordered(a) && Ordered(b)
    ensures forall r :: r in Sweep(a, b) <==> IsOverlap(r, a, b)
  {
    SweepWithin(a, b);
    forall r | IsOverlap(r, a, b)
      ensures r in Sweep(a, b)
    {
      var x, y :| x in a && y in b && r == Meet(x, y);
      SweepComplete(a, b, x, y);
    }
  }

  lemma {:induction false} SweepAfter(a: seq<TimeRange>, b: seq<TimeRange>, t: int)
    requires (forall x | x in a :: t <= x.Start()) || (forall y | y in b :: t <= y.Start())
    ensures forall r | r in Sweep(a, b) :: t <= r.Start()
    decreases |a| + |b|
  {
    if a != [] && b != [] {
      assert a[0] in a && b[0] in b;
      if Meet(a[0], b[0]).endTime == a[0].endTime {
        SweepAfter(a[1..], b, t);
      } else {
        SweepAfter(a, b[1..], t);
      }
    }
  }

  lemma OrderedTail(rs: seq<TimeRange>)
    requires Ordered(rs) && rs != []
    ensures Ordered(rs[1..])
    ensures forall x | x in rs[1..] :: rs[0].End() <= x.Start()
  {
  }

  lemma OrderedCons(r: TimeRange, rs: seq<TimeRange>)
    requires r.NonEmpty() && Ordered(rs) && forall x | x in rs :: r.End() <= x.Start()
    ensures Ordered([r] + rs)
  {
  }

  lemma {:induction false} SweepOrdered(a: seq<TimeRange>, b: seq<TimeRange>)
    requires Ordered(a) && Ordered(b)
    ensures Ordered(Sweep(a, b))
    decreases |a| + |b|
  {
    if a != [] && b != [] {
      var meet := Meet(a[0], b[0]);
      PushedIsNonEmpty(meet);
      OrderedTail(a);
      OrderedTail(b);
      if meet.endTime == a[0].endTime {
        SweepOrdered(a[1..], b);
        SweepAfter(a[1..], b, meet.End());
        if meet.NonEmpty() {
          OrderedCons(meet, Sweep(a[1..], b));
        }
      } else {
        SweepOrdered(a, b[1..]);
        SweepAfter(a, b[1..], meet.End());
        if meet.NonEmpty() {
          OrderedCons(meet, Sweep(a, b[1..]));
        }
      }
    }
  }

  lemma SweepFree(a: seq<TimeRange>, b: seq<TimeRange>, m: int)
    requires Ordered(a) && Ordered(b)
    ensures Free(Sweep(a, b), m) <==> Free(a, m) && Free(b, m)
  {
    if Free(Sweep(a, b), m) {
      SweepOnlyFree(a, b, m);
    }
    if Free(a, m) && Free(b, m) {
      SweepAllFree(a, b, m);
    }
  }

  lemma SweepOnlyFree(a: seq<TimeRange>, b: seq<TimeRange>, m: int)
    requires Free(Sweep(a, b), m)
    ensures Free(a, m) && Free(b, m)
  {
    var r :| r in Sweep(a, b) && r.Covers(m);
    SweepWithin(a, b);
    var x, y :| x in a && y in b && r == Meet(x, y);
    assert x.Covers(m) && y.Covers(m);
  }

  lemma SweepAllFree(a: seq<TimeRange>, b: seq<TimeRange>, m: int)
    requires Ordered(a) && Ordered(b)
    requires Free(a, m) && Free(b, m)
    ensures Free(Sweep(a, b), m)
  {
    var x :| x in a && x.Covers(m);
    var y :| y in b && y.Covers(m);
    var r := Meet(x, y);
    assert r.Covers(m) && r.NonEmpty();
    SweepComplete(a, b, x, y);
  }

  lemma SweepMeaning(a: seq<TimeRange>, b: seq<TimeRange>)
    ensures Ordered(a) && Ordered(b) ==>
              && Ordered(Sweep(a, b))
              && forall m :: Free(Sweep(a, b), m) <==> Free(a, m) && Free(b, m)
  {
    if Ordered(a) && Ordered(b) {
      SweepOrdered(a, b);
      forall m
        ensures Free(Sweep(a, b), m) <==> Free(a, m) && Free(b, m)
      {
        SweepFree(a, b, m);
      }
    }
  }

  // ---------------------------------------------------------------- algebra on lists

  /** Ordered lists are determined by the ranges they hold. */
  lemma {:induction false} OrderedUnique(a: seq<TimeRange>, b: seq<TimeRange>)
    requires Ordered(a) && Ordered(b)
    requires forall r :: r in a <==> r in b
    ensures a == b
  {
    assert a != [] ==> a[0] in b;
    assert b != [] ==> b[0] in a;
    if a != [] {
      assert a[0] == b[0];
      forall r
        ensures r in a[1..] <==> r in b[1..]
      {
        assert r in a[1..] <==> r in a && r != a[0];
        assert r in b[1..] <==> r in b && r != b[0];
      }
      OrderedUnique(a[1..], b[1..]);
    }
  }

  lemma MeetCommutes(x: TimeRange, y: TimeRange)
    ensures Meet(x, y) == Meet(y, x)
  {
    SameRange(Meet(x, y), Meet(y, x));
  }

  lemma MeetAssociates(x: TimeRange, y: TimeRange, z: TimeRange)
    ensures Meet(Meet(x, y), z) == Meet(x, Meet(y, z))
  {
    SameRange(Meet(Meet(x, y), z), Meet(x, Meet(y, z)));
  }

  lemma SweepCommutes(a: seq<TimeRange>, b: seq<TimeRange>)
    requires Ordered(a) && Ordered(b)
    ensures Sweep(a, b) == Sweep(b, a)
  {
    SweepElements(a, b);
    SweepElements(b, a);
    forall r
      ensures IsOverlap(r, a, b) <==> IsOverlap(r, b, a)
    {
      forall x, y ensures Meet(x, y) == Meet(y, x) { MeetCommutes(x, y); }
    }
    SweepOrdered(a, b);
    SweepOrdered(b, a);
    OrderedUnique(Sweep(a, b), Sweep(b, a));
  }

  /** r is the non-empty overlap of a range of each of three lists. */
  ghost predicate IsOverlap3(r: TimeRange, a: seq<TimeRange>, b: seq<TimeRange>, c: seq<TimeRange>) {
    r.NonEmpty() && exists x, y, z | x in a && y in b && z in c :: r == Meet(Meet(x, y), z)
  }

  lemma SweepTwiceWithin(a: seq<TimeRange>, b: seq<TimeRange>, c: seq<TimeRange>, r: TimeRange)
    requires r in Sweep(Sweep(a, b), c)
    ensures IsOverlap3(r, a, b, c)
  {
    SweepWithin(Sweep(a, b), c);
    var w, z :| w in Sweep(a, b) && z in c && r == Meet(w, z);
    SweepWithin(a, b);
    var x, y :| x in a && y in b && w == Meet(x, y);
    assert r == Meet(Meet(x, y), z);
  }

  lemma SweepTwiceComplete(a: seq<TimeRange>, b: seq<TimeRange>, c: seq<TimeRange>, r: TimeRange)
    requires Ordered(a) && Ordered(b) && Ordered(c)
    requires IsOverlap3(r, a, b, c)
    ensures r in Sweep(Sweep(a, b), c)
  {
    var x, y, z :| x in a && y in b && z in c && r == Meet(Meet(x, y), z);
    MeetNonEmpty(Meet(x, y), z);
    SweepComplete(a, b, x, y);
    SweepOrdered(a, b);
    SweepComplete(Sweep(a, b), c, Meet(x, y), z);
  }

  lemma Rotate(r: TimeRange, a: seq<TimeRange>, b: seq<TimeRange>, c: seq<TimeRange>)
    requires IsOverlap3(r, a, b, c)
    ensures IsOverlap3(r, b, c, a)
  {
    var x, y, z :| x in a && y in b && z in c && r == Meet(Meet(x, y), z);
    MeetAssociates(x, y, z);
    MeetCommutes(x, Meet(y, z));
    assert r == Meet(Meet(y, z), x);
  }

  lemma SweepAssociates(a: seq<TimeRange>, b: seq<TimeRange>, c: seq<TimeRange>)
    requires Ordered(a) && Ordered(b) && Ordered(c)
    ensures Sweep(Sweep(a, b), c) == Sweep(a, Sweep(b, c))
  {
    var left, right := Sweep(Sweep(a, b), c), Sweep(Sweep(b, c), a);
    SweepOrdered(a, b);
    SweepOrdered(Sweep(a, b), c);
    SweepOrdered(b, c);
    SweepOrdered(Sweep(b, c), a);
    forall r
      ensures r in left <==> r in right
    {
      if r in left {
        SweepTwiceWithin(a, b, c, r);
        Rotate(r, a, b, c);
        SweepTwiceComplete(b, c, a, r);
      }
      if r in right {
        SweepTwiceWithin(b, c, a, r);
        Rotate(r, b, c, a);
        Rotate(r, c, a, b);
        SweepTwiceComplete(a, b, c, r);
      }
    }
    OrderedUnique(left, right);
    SweepCommutes(a, Sweep(b, c));
  }

  lemma MeetOfElements(a: seq<TimeRange>, x: TimeRange, y: TimeRange)
    requires Ordered(a) && x in a && y in a && Meet(x, y).NonEmpty()
    ensures x == y == Meet(x, y)
  {
    if x != y {
      MeetOfDisjoint(x, y);
      assert false;
    }
    SameRange(x, Meet(x, x));
  }

  lemma SweepSelf(a: seq<TimeRange>, r: TimeRange)
    requires Ordered(a)
    ensures r in Sweep(a, a) <==> r in a
  {
    if r in a {
      SameRange(r, Meet(r, r));
      SweepComplete(a, a, r, r);
    }
    if r in Sweep(a, a) {
      SweepWithin(a, a);
      var x, y :| x in a && y in a && r == Meet(x, y);
      MeetOfElements(a, x, y);
    }
  }

  lemma SweepIdempotent(a: seq<TimeRange>)
    requires Ordered(a)
    ensures Sweep(a, a) == a
  {
    forall r ensures r in Sweep(a, a) <==> r in a { SweepSelf(a, r); }
    SweepOrdered(a, a);
    OrderedUnique(Sweep(a, a), a);
  }
}
