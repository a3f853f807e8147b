/** The curator's schedule: each round asks for the news of [yesterday, today], publishes, and
    sleeps until the next midnight. Times are seconds; a day has 86400 of them. */
module Schedule {

  const DAY := 86400

  // Round i takes `today` at first(i), `yesterday` at second(i) and goes to sleep at sleep(i).
  datatype Rounds = Rounds(first: nat -> nat, second: nat -> nat, sleep: nat -> nat)

  function DayOf(time: nat): nat { time / DAY }

  function NextMidnight(time: nat): nat { (DayOf(time) + 1) * DAY }

  /** The sleep ends at the first midnight that is still to come. */
  lemma MidnightIsNext(time: nat)
    ensures time < NextMidnight(time) <= time + 86400 && NextMidnight(time) % 86400 == 0
    ensures 86400 * DayOf(time) <= time < 86400 * (DayOf(time) + 1)
  {
    assert time == DAY * DayOf(time) + time % DAY;
  }

  // The clock does not go back, and a round starts when the sleep of the one before is over.
  ghost predicate IsSchedule(r: Rounds) {
    forall i: nat :: r.first(i) <= r.second(i) <= r.sleep(i) && NextMidnight(r.sleep(i)) <= r.first(i + 1)
  }

  function Today(r: Rounds, i: nat): int { DayOf(r.first(i)) }

  function Yesterday(r: Rounds, i: nat): int { DayOf(r.second(i)) - 1 }

  lemma DayMonotone(a: nat, b: nat)
    requires a <= b
    ensures DayOf(a) <= DayOf(b)
  {
  }

  lemma NextRound(r: Rounds, i: nat)
    requires IsSchedule(r)
    ensures Today(r, i) <= DayOf(r.second(i)) < Today(r, i + 1)
  {
    assert r.first(i) <= r.second(i) <= r.sleep(i) && NextMidnight(r.sleep(i)) <= r.first(i + 1);
    DayMonotone(r.first(i), r.second(i));
    DayMonotone(r.second(i), r.sleep(i));
    DayMonotone(NextMidnight(r.sleep(i)), r.first(i + 1));
    assert DayOf(NextMidnight(r.sleep(i))) == DayOf(r.sleep(i)) + 1;
  }

  /** Over infinite runs the days of the rounds strictly increase, and so do their yesterdays: there
      is at most one discovery per calendar day. */
  lemma {:induction false} DaysIncrease(r: Rounds, i: nat, j: nat)
    requires IsSchedule(r) && i < j
    ensures Today(r, i) < Today(r, j) && Yesterday(r, i) < Yesterday(r, j)
    ensures Today(r, i) <= Yesterday(r, j)
    decreases j
  {
    NextRound(r, j - 1);
    NextRound(r, j);
    if i < j - 1 {
      DaysIncrease(r, i, j - 1);
    }
  }

  // Some round asks for the news of this day.
  ghost predicate Covered(r: Rounds, day: int) {
    exists i: nat :: InWindow(r, i, day)
  }

  ghost predicate InWindow(r: Rounds, i: nat, day: int) {
    Yesterday(r, i) <= day <= Today(r, i)
  }

  ghost predicate NoGap(r: Rounds, i: nat) {
    Yesterday(r, i + 1) <= Today(r, i) + 1
  }

  lemma {:induction false} RoundFor(r: Rounds, day: int, n: nat) returns (i: nat)
    requires IsSchedule(r) && forall k: nat :: NoGap(r, k)
    requires Yesterday(r, 0) <= day <= Today(r, n)
    ensures InWindow(r, i, day)
    decreases n
  {
    if n == 0 {
      i := 0;
    } else if day <= Today(r, n - 1) {
      i := RoundFor(r, day, n - 1);
    } else {
      assert NoGap(r, n - 1);
      i := n;
    }
  }

  lemma {:induction false} TodayIsLate(r: Rounds, n: nat)
    requires IsSchedule(r)
    ensures Today(r, n) >= n
  {
    if n > 0 {
      TodayIsLate(r, n - 1);
      NextRound(r, n - 1);
    }
  }

  /** No day from the first window on is left out if and only if each round's yesterday is at most
      one day after the today of the round before. When both dates of a round fall on one day that
      says that successive discovery days are at most two apart. */
  lemma CoverageIff(r: Rounds)
    requires IsSchedule(r)
    ensures (forall day :: Yesterday(r, 0) <= day ==> Covered(r, day)) <==> forall i: nat :: NoGap(r, i)
  {
    if forall i: nat :: NoGap(r, i) {
      forall day | Yesterday(r, 0) <= day ensures Covered(r, day) {
        var n: nat := if day < 0 then 0 else day;
        TodayIsLate(r, n);
        var i := RoundFor(r, day, n);
      }
    } else {
      // A day no window reaches: the first one if the first window is empty, else one after a gap.
      var i: nat :| !NoGap(r, i);
      var day := if Yesterday(r, 0) > Today(r, 0) then Yesterday(r, 0) else Today(r, i) + 1;
      if i > 0 { DaysIncrease(r, 0, i); }
      forall k: nat ensures !InWindow(r, k, day) {
        if k > 0 { DaysIncrease(r, 0, k); }
        if k < i { DaysIncrease(r, k, i); }
        if k > i + 1 { DaysIncrease(r, i + 1, k); }
      }
      assert Yesterday(r, 0) <= day && !Covered(r, day);
    }
  }

  /** With both dates of every round taken on one day, the condition is that each discovery day is
      at most two days after the one before. */
  lemma TwoDaysApart(r: Rounds)
    requires IsSchedule(r) && forall i: nat :: DayOf(r.first(i)) == DayOf(r.second(i))
    ensures (forall day :: Yesterday(r, 0) <= day ==> Covered(r, day)) <==>
      forall i: nat :: Today(r, i + 1) <= Today(r, i) + 2
  {
    CoverageIff(r);
    forall i: nat ensures NoGap(r, i) <==> Today(r, i + 1) <= Today(r, i) + 2 {
      assert DayOf(r.first(i + 1)) == DayOf(r.second(i + 1));
    }
    if forall i: nat :: Today(r, i + 1) <= Today(r, i) + 2 {
      forall i: nat ensures NoGap(r, i) { assert Today(r, i + 1) <= Today(r, i) + 2; }
    }
  }
}
