/** The waits between key recoveries, as a matter of times alone: each one soon after the last
    doubles the gap before the next, up to an hour (registration.py,
    `_hold_back_repeated_recovery`). */
module Backoff {
  import opened Results
  import opened Recovery

  /** The gap the recoveries so far have set. */
  function GapAfter(times: seq<real>): real {
    if |times| <= 1 then 0.0
    else NextGap(GapAfter(times[..|times| - 1]), times[|times| - 1] - times[|times| - 2] < REPEAT_WINDOW)
  }

  /** Each recovery came no sooner than the gap after the one before it. */
  predicate Spaced(times: seq<real>) {
    |times| <= 1 || (Spaced(times[..|times| - 1])
                     && times[|times| - 1] >= times[|times| - 2] + GapAfter(times[..|times| - 1]))
  }

  lemma {:induction false} SpacedAt(times: seq<real>, i: nat)
    requires Spaced(times) && 0 < i < |times|
    ensures times[i] >= times[i - 1] + GapAfter(times[..i])
  {
    if i < |times| - 1 {
      SpacedAt(times[..|times| - 1], i);
      assert times[..|times| - 1][..i] == times[..i];
    }
  }

  lemma GapOneMore(times: seq<real>, at: real)
    ensures GapAfter(times + [at])
         == if times == [] then 0.0 else NextGap(GapAfter(times), at - times[|times| - 1] < REPEAT_WINDOW)
  {
    var more := times + [at];
    assert more[..|more| - 1] == times;
  }

  lemma SpacedOneMore(times: seq<real>, at: real)
    ensures Spaced(times + [at])
       <==> Spaced(times) && (times != [] ==> at >= times[|times| - 1] + GapAfter(times))
  {
    var more := times + [at];
    assert more[..|more| - 1] == times && more[|more| - 1] == at;
  }

  // ---- The gap, from how many recoveries in a row came soon ----

  /** How many recoveries at the end each came soon after the one before. */
  function Streak(times: seq<real>): (n: nat)
    ensures n < |times| || n == 0
  {
    if |times| <= 1 || times[|times| - 1] - times[|times| - 2] >= REPEAT_WINDOW then 0
    else 1 + Streak(times[..|times| - 1])
  }

  /** 60, 120, 240 and so on. */
  function Doubled(n: nat): real {
    if n == 0 then 60.0 else 2.0 * Doubled(n - 1)
  }

  lemma Doublings()
    ensures Doubled(0) == 60.0 && Doubled(1) == 120.0 && Doubled(2) == 240.0
    ensures Doubled(3) == 480.0 && Doubled(4) == 960.0 && Doubled(5) == 1920.0
  {
  }

  /** The gap a streak sets: a minute doubled with each recovery of it, an hour at most. */
  function GapOf(streak: nat): real {
    if streak == 0 then 0.0 else if streak <= 6 then Doubled(streak - 1) else REPEAT_WINDOW
  }

  lemma NextGapOf(streak: nat)
    ensures NextGap(GapOf(streak), true) == GapOf(streak + 1) && 0.0 <= GapOf(streak) <= REPEAT_WINDOW
  {
    Doublings();
  }

  lemma {:induction false} GapIsOfStreak(times: seq<real>)
    ensures GapAfter(times) == GapOf(Streak(times))
  {
    if |times| > 1 {
      GapIsOfStreak(times[..|times| - 1]);
      NextGapOf(Streak(times[..|times| - 1]));
    }
  }

  lemma GapBounds(times: seq<real>)
    ensures 0.0 <= GapAfter(times) <= REPEAT_WINDOW
  {
    GapIsOfStreak(times);
    NextGapOf(Streak(times));
  }

  lemma {:induction false} StreakMeans(times: seq<real>, n: nat)
    ensures Streak(times) >= n <==>
              n == 0 || (n < |times|
                  && forall i :: |times| - n <= i < |times| ==> times[i] - times[i - 1] < REPEAT_WINDOW)
  {
    if n > 0 && |times| > 1 {
      var init := times[..|times| - 1];
      StreakMeans(init, n - 1);
      assert forall i :: 0 <= i < |init| ==> init[i] == times[i];
    }
  }

  /** The next recovery is held back a full hour exactly when each of the last seven came within
      an hour of the one before it: the first wait doubles six times before it is cut to one. */
  lemma HeldBackAnHour(times: seq<real>)
    ensures GapAfter(times) == 3600.0 <==>
              |times| >= 8 && forall i :: |times| - 7 <= i < |times| ==> times[i] - times[i - 1] < 3600.0
  {
    GapIsOfStreak(times);
    StreakMeans(times, 7);
    Doublings();
  }

  // ---- How close recoveries can be ----

  lemma SpacedSorted(times: seq<real>, i: nat, j: nat)
    requires Spaced(times) && i <= j < |times|
    ensures times[i] <= times[j]
    decreases j - i
  {
    if i < j {
      SpacedSorted(times, i, j - 1);
      GapBounds(times[..j]);
      SpacedAt(times, j);
    }
  }

  /** The first gaps of a streak together. */
  function Waits(k: nat): real {
    if k == 0 then 0.0 else Waits(k - 1) + GapOf(k)
  }

  lemma SixWaits()
    ensures Waits(2) == 180.0 && Waits(6) == 3780.0
  {
    Doublings();
    assert Waits(3) == 420.0;
  }

  /** A streak of at least k is waited for at least as long as one of k. */
  lemma GapGrows(n: nat, k: nat)
    requires k <= n && k <= 6
    ensures GapOf(k) <= GapOf(n)
    decreases n
  {
    Doublings();
    if k < n && n > 1 {
      if k <= n - 1 { GapGrows(n - 1, k); }
      NextGapOf(n - 1);
    }
  }

  /** The wait after a streak of k. */
  lemma WaitAfter(times: seq<real>, i: nat, k: nat)
    requires Spaced(times) && i + k + 1 < |times| && 0 < k <= 6
    requires forall j :: i < j <= i + k ==> times[j] - times[j - 1] < REPEAT_WINDOW
    ensures times[i + k + 1] >= times[i + k] + GapOf(k)
  {
    var upTo := times[..i + k + 1];
    assert forall j :: 0 <= j < |upTo| ==> upTo[j] == times[j];
    StreakMeans(upTo, k);
    GapIsOfStreak(upTo);
    GapGrows(Streak(upTo), k);
    SpacedAt(times, i + k + 1);
  }

  lemma {:induction false} WaitsAddUp(times: seq<real>, i: nat, k: nat)
    requires Spaced(times) && i + k + 1 < |times| && k <= 6
    requires forall j :: i < j <= i + k ==> times[j] - times[j - 1] < REPEAT_WINDOW
    ensures times[i + k + 1] >= times[i + 1] + Waits(k)
  {
    if k > 0 {
      WaitsAddUp(times, i, k - 1);
      WaitAfter(times, i, k);
    }
  }

  /** Each recovery of the stretch comes at least so long after the one before it. */
  predicate Apart(times: seq<real>, from: int, to: int, eps: real)
    requires 0 <= from <= to < |times|
  {
    forall j :: from < j <= to ==> times[j] - times[j - 1] >= eps
  }

  /** Three steps, the first two of them soon, are waited for three minutes. */
  lemma ThreeSteps(times: seq<real>, i: nat, eps: real)
    requires Spaced(times) && i + 3 < |times| && times[i + 1] - times[i] >= eps
    requires times[i + 1] - times[i] < REPEAT_WINDOW && times[i + 2] - times[i + 1] < REPEAT_WINDOW
    ensures times[i + 3] - times[i] >= 180.0 + eps
  {
    WaitsAddUp(times, i, 2);
    SixWaits();
  }

  /** A step of an hour after three steps, the first two of them soon. */
  lemma HourAfterThree(times: seq<real>, i: nat, k: nat, eps: real)
    requires Spaced(times) && i + 7 < |times| && i + 4 <= k <= i + 7 && times[k] - times[k - 1] >= REPEAT_WINDOW
    requires times[i + 1] - times[i] >= eps
    requires times[i + 1] - times[i] < REPEAT_WINDOW && times[i + 2] - times[i + 1] < REPEAT_WINDOW
    ensures times[i + 7] - times[i] >= 3780.0 + eps
  {
    ThreeSteps(times, i, eps);
    SpacedSorted(times, i + 3, k - 1);
    SpacedSorted(times, k, i + 7);
  }

  /** A step of an hour before three steps, the first two of them soon. */
  lemma HourBeforeThree(times: seq<real>, i: nat, k: nat, eps: real)
    requires Spaced(times) && i + 7 < |times| && i < k <= i + 4 && times[k] - times[k - 1] >= REPEAT_WINDOW
    requires times[k + 1] - times[k] >= eps
    requires times[k + 1] - times[k] < REPEAT_WINDOW && times[k + 2] - times[k + 1] < REPEAT_WINDOW
    ensures times[i + 7] - times[i] >= 3780.0 + eps
  {
    SpacedSorted(times, i, k - 1);
    ThreeSteps(times, k, eps);
    SpacedSorted(times, k + 3, i + 7);
  }

  /** One of the seven steps is an hour, and the other six are soon: three in a row of them are
      on one side of it. */
  lemma OneHourApart(times: seq<real>, i: nat, k: nat, eps: real)
    requires Spaced(times) && i + 7 < |times| && i < k <= i + 7 && times[k] - times[k - 1] >= REPEAT_WINDOW
    requires Apart(times, i, i + 7, eps)
    requires forall j :: i < j <= i + 7 && j != k ==> times[j] - times[j - 1] < REPEAT_WINDOW
    ensures times[i + 7] - times[i] >= 3780.0 + eps
  {
    var m := if k >= i + 4 then i else k;
    assert times[m + 1] - times[m] >= eps;
    assert times[m + 1] - times[m] < REPEAT_WINDOW;
    assert times[m + 2] - times[m + 1] < REPEAT_WINDOW;
    if k >= i + 4 { HourAfterThree(times, i, k, eps); } else { HourBeforeThree(times, i, k, eps); }
  }

  /** Two of the seven steps are an hour each. */
  lemma TwoHoursApart(times: seq<real>, i: nat, k: nat, l: nat)
    requires Spaced(times) && i + 7 < |times| && i < k < l <= i + 7
    requires times[k] - times[k - 1] >= REPEAT_WINDOW && times[l] - times[l - 1] >= REPEAT_WINDOW
    ensures times[i + 7] - times[i] >= 7200.0
  {
    SpacedSorted(times, i, k - 1);
    SpacedSorted(times, k, l - 1);
    SpacedSorted(times, l, i + 7);
  }

  /** Any eight recoveries in a row, each at least so long after the last, span at least 63
      minutes and that long. */
  lemma EightSpan(times: seq<real>, i: nat, eps: real)
    requires Spaced(times) && i + 7 < |times| && Apart(times, i, i + 7, eps) && eps <= 60.0
    ensures times[i + 7] - times[i] >= 3780.0 + eps
  {
    if k :| i < k <= i + 7 && times[k] - times[k - 1] >= REPEAT_WINDOW {
      if l :| i < l <= i + 7 && l != k && times[l] - times[l - 1] >= REPEAT_WINDOW {
        if k < l { TwoHoursApart(times, i, k, l); } else { TwoHoursApart(times, i, l, k); }
      } else {
        OneHourApart(times, i, k, eps);
      }
    } else {
      WaitsAddUp(times, i, 6);
      SixWaits();
    }
  }

  lemma SpacedIsApart(times: seq<real>, i: nat, k: nat)
    requires Spaced(times) && i <= k < |times|
    ensures Apart(times, i, k, 0.0)
  {
    forall j: nat | i < j <= k ensures times[j] - times[j - 1] >= 0.0 {
      SpacedSorted(times, j - 1, j);
    }
  }

  /** Eight recoveries as close together as they can be, when each comes at least so long after
      the last. */
  function Eight(eps: real): seq<real> {
    var e := eps + eps;
    [eps, e, e + 60.0, e + 180.0, e + 420.0, e + 900.0, e + 1860.0, e + 3780.0]
  }

  lemma {:induction false} EightSpaced(eps: real, n: nat)
    requires 0.0 <= eps <= 60.0 && n <= 8
    ensures Spaced(Eight(eps)[..n])
    ensures n >= 1 ==> GapAfter(Eight(eps)[..n]) == GapOf(n - 1)
  {
    if n >= 1 {
      EightSpaced(eps, n - 1);
      Doublings();
      assert Eight(eps)[..n][..n - 1] == Eight(eps)[..n - 1];
      if n >= 2 { NextGapOf(n - 2); }
    }
  }
}
