/**
 * The daily reset of the join tracker over a run of joins on given days,
 * with the tracking message always fetchable and editable.
 *
 * `_check_and_reset_if_needed` decides "new day" from the date of the stored
 * tracking message, and that date is the date the message was CREATED. Since
 * every later join edits that same message instead of sending a new one, the
 * date never moves: from the second day on, every join resets the counter,
 * which then always reads 1. `CountAsWritten` runs the tracker with the date
 * check as written; `CountIntended` feeds it the date of the last update of
 * the message instead, and then the counter is the number of joins of the
 * latest day.
 */
module DailyReset {
  import opened Wrappers
  import opened JoinTracker

  predicate NonDecreasing(days: seq<int>) {
    forall i, j :: 0 <= i < j < |days| ==> days[i] <= days[j]
  }

  /** How many entries of `days` are `d`. */
  function CountOf(days: seq<int>, d: int): nat {
    if days == [] then 0
    else CountOf(days[..|days| - 1], d) + (if days[|days| - 1] == d then 1 else 0)
  }

  lemma {:induction false} CountOfAbsent(days: seq<int>, d: int)
    requires forall i :: 0 <= i < |days| ==> days[i] != d
    ensures CountOf(days, d) == 0
  {
    if days != [] {
      CountOfAbsent(days[..|days| - 1], d);
    }
  }

  /**
   * Joins on `days`, with the stored message's date read from its creation
   * day, as the source does. The count is right only while every join falls
   * on the first day; after that it is 1.
   */
  method CountAsWritten(days: seq<int>) returns (count: int)
    requires |days| > 0 && NonDecreasing(days)
    ensures count == if days[|days| - 1] == days[0] then |days| else 1
  {
    var t := new Tracker();
    t.SetChannel(1);
    var created := 0;
    var i := 0;
    while i < |days|
      invariant 0 <= i <= |days|
      invariant t.Valid() && t.Configured()
      invariant i == 0 ==> t.lastJoinMessage == 0 && t.joinCount == 0
      invariant i > 0 ==> t.lastJoinMessage == 1 && created == days[0]
      invariant i > 0 ==> t.joinCount == if days[i - 1] == days[0] then i else 1
    {
      var before := t.lastJoinMessage;
      t.OnMemberJoin(100 + i, true, Fetched(created < days[i]), true, Sent(1));
      if t.lastJoinMessage != before {
        // a new tracking message was sent today
        created := days[i];
      }
      i := i + 1;
    }
    count := t.joinCount;
  }

  /**
   * Joins on `days`, with the date check reading the day the tracking
   * message was last written: the count is the number of joins on the
   * latest day.
   */
  method CountIntended(days: seq<int>) returns (count: int)
    requires |days| > 0 && NonDecreasing(days)
    ensures count == CountOf(days, days[|days| - 1])
  {
    var t := new Tracker();
    t.SetChannel(1);
    var updated := 0;
    var i := 0;
    while i < |days|
      invariant 0 <= i <= |days|
      invariant t.Valid() && t.Configured()
      invariant i == 0 ==> t.lastJoinMessage == 0 && t.joinCount == 0
      invariant i > 0 ==> t.lastJoinMessage == 1 && updated == days[i - 1]
      invariant i > 0 ==> t.joinCount == CountOf(days[..i], days[i - 1])
    {
      t.OnMemberJoin(100 + i, true, Fetched(updated < days[i]), true, Sent(1));
      assert days[..i + 1][..i] == days[..i];
      if i > 0 && days[i - 1] != days[i] {
        CountOfAbsent(days[..i], days[i]);
      }
      updated := days[i];
      i := i + 1;
    }
    assert days[..i] == days;
    count := t.joinCount;
  }

  /** One join on day 1 and two on day 2: the source reports 1 for day 2, the intended count is 2. */
  method SecondDayCounterexample() returns (asWritten: int, intended: int)
    ensures asWritten == 1 && intended == 2
  {
    var days := [1, 2, 2];
    asWritten := CountAsWritten(days);
    intended := CountIntended(days);
    assert days[..2] == [1, 2] && days[..2][..1] == [1] && [1][..0] == [];
  }
}
