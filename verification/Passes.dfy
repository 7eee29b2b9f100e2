/** Replay of one stored row against a server that limits the request size: how many
    passes it takes until every result the limit lets through is delivered
    (reporter.py, `_replay_group` on one row, and `_send_in_parts`). */
module Passes {
  import opened Results
  import opened Splitting

  /** Which request bodies the limit lets through. */
  type Limit = seq<CheckResult> -> bool

  function SizeLimit(fits: Limit): Server {
    (n: nat, part: seq<CheckResult>) => if fits(part) then Sent else TooLarge
  }

  /** A result the limit refuses even when it is sent alone. */
  predicate Oversized(r: CheckResult, fits: Limit) {
    !fits([r])
  }

  function CountOversized(row: seq<CheckResult>, fits: Limit): nat {
    if row == [] then 0 else (if Oversized(row[0], fits) then 1 else 0) + CountOversized(row[1..], fits)
  }

  /** One pass over a stored row: what reached the server and what the row holds next. */
  datatype Pass = Pass(delivered: seq<CheckResult>, left: seq<CheckResult>, stopped: bool)

  function PassOver(row: seq<CheckResult>, fits: Limit): Pass {
    if fits(row) then Pass(row, [], false)
    else if |row| <= 1 then Pass([], row, false)
    else
      var end := Run(Start(row), SizeLimit(fits));
      Pass(SettledAs(end.posted, Sent), Unsent(end), end.stop.Some?)
  }

  /** Everything `passes` passes over the row deliver. */
  function DeliveredIn(row: seq<CheckResult>, fits: Limit, passes: nat): seq<CheckResult>
    decreases passes
  {
    if passes == 0 || row == [] then []
    else PassOver(row, fits).delivered + DeliveredIn(PassOver(row, fits).left, fits, passes - 1)
  }

  // ---- One pass ----

  /** Every POST had the outcome the limit gives it. */
  ghost predicate Heeds(posted: seq<Post>, fits: Limit) {
    forall i :: 0 <= i < |posted| ==> posted[i].outcome == if fits(posted[i].part) then Sent else TooLarge
  }

  lemma {:induction false} RunHeedsLimit(s: Split, fits: Limit)
    requires Heeds(s.posted, fits)
    ensures Heeds(Run(s, SizeLimit(fits)).posted, fits)
    decreases Cost(s.work)
  {
    if s.work == [] {
    } else if s.stop.Some? {
      RunHeedsLimit(SetAside(s), fits);
    } else {
      var outcome := SizeLimit(fits)(|s.posted|, s.work[0]);
      AnsweredCost(s, outcome);
      RunHeedsLimit(Answered(s, outcome), fits);
    }
  }

  lemma {:induction false} NothingSentAllRefused(posted: seq<Post>)
    requires forall i :: 0 <= i < |posted| ==> posted[i].outcome != Permanent
    requires SettledAs(posted, Sent) == []
    ensures Settled(posted) == SettledAs(posted, TooLarge)
  {
    if posted != [] {
      NothingSentAllRefused(posted[..|posted| - 1]);
    }
  }

  lemma {:induction false} RefusedAlone(posted: seq<Post>, r: CheckResult)
    requires r in SettledAs(posted, TooLarge)
    ensures Post([r], TooLarge) in posted
  {
    var last := posted[|posted| - 1];
    if Settles(last) && last.outcome == TooLarge && r in last.part {
      assert last.part == [r];
    } else {
      RefusedAlone(posted[..|posted| - 1], r);
    }
  }

  /** A split that did not stop has settled every result, and sent what fits alone. */
  lemma FinishedSplitSends(row: seq<CheckResult>, fits: Limit, end: Split, r: CheckResult)
    requires Tiles(row, end) && Tells(end) && end.work == [] && end.stop.None? && Heeds(end.posted, fits)
    requires r in row && !Oversized(r, fits)
    ensures r in SettledAs(end.posted, Sent)
  {
    Nothing(Settled(end.posted));
    SettledIsSentOrRefused(end.posted, r);
    assert forall i :: 0 <= i < |end.posted| ==> end.posted[i] != Post([r], TooLarge);
  }

  /** A pass that does not stop delivers every result the limit lets through alone. */
  lemma UnstoppedPassDelivers(row: seq<CheckResult>, fits: Limit, r: CheckResult)
    requires r in row && !Oversized(r, fits)
    requires !PassOver(row, fits).stopped
    ensures r in PassOver(row, fits).delivered
  {
    if |row| == 1 {
      assert row == [r];
    } else if !fits(row) {
      StartTracks(row);
      RunTracks(row, Start(row), SizeLimit(fits));
      RunHeedsLimit(Start(row), fits);
      FinishedSplitSends(row, fits, Run(Start(row), SizeLimit(fits)), r);
    }
  }

  /** A split a size limit stopped has sent nothing and refused the first two results. */
  lemma StoppedSplit(row: seq<CheckResult>, fits: Limit, end: Split)
    requires |row| >= 2 && Tiles(row, end) && Tells(end) && end.work == [] && end.stop.Some?
    requires Heeds(end.posted, fits)
    ensures SettledAs(end.posted, Sent) == [] && |end.refused| == 2
    ensures row == end.refused + end.untried
    ensures Oversized(end.refused[0], fits) && Oversized(end.refused[1], fits)
  {
    assert end.stop == Some(TooLarge);
    NothingSentAllRefused(end.posted);
    RefusedAlone(end.posted, end.refused[0]);
    RefusedAlone(end.posted, end.refused[1]);
  }

  lemma Cut(a: seq<CheckResult>, b: seq<CheckResult>)
    ensures (a + b)[..|a|] == a && (a + b)[|a|..] == b
  {
  }

  /** A stopped pass delivers nothing and turns the row by two: the two results it
      refused, both over the limit alone, go behind the rest. */
  lemma StoppedPassTurnsByTwo(row: seq<CheckResult>, fits: Limit)
    requires PassOver(row, fits).stopped
    ensures |row| >= 2 && Oversized(row[0], fits) && Oversized(row[1], fits)
    ensures PassOver(row, fits).delivered == []
    ensures PassOver(row, fits).left == row[2..] + row[..2]
  {
    var end := Run(Start(row), SizeLimit(fits));
    assert Tracks(row, end) by {
      StartTracks(row);
      RunTracks(row, Start(row), SizeLimit(fits));
    }
    RunHeedsLimit(Start(row), fits);
    StoppedSplit(row, fits, end);
    Cut(end.refused, end.untried);
    assert end.untried + [] == end.untried;
  }

  // ---- Many passes ----

  lemma FrontTwo(front: seq<CheckResult>, back: seq<CheckResult>, row: seq<CheckResult>)
    requires |front| >= 2 && row == front + back
    ensures row[0] == front[0] && row[1] == front[1]
    ensures row[2..] + row[..2] == front[2..] + (back + front[..2])
  {
  }

  lemma FrontOfOne(front: seq<CheckResult>, back: seq<CheckResult>, row: seq<CheckResult>, r: CheckResult)
    requires row == front + back && r in front && row[0] != r
    ensures |front| >= 2
  {
    var i :| 0 <= i < |front| && front[i] == r;
    assert row[i] == r;
  }

  lemma CountOfTwo(row: seq<CheckResult>, fits: Limit)
    requires |row| >= 2 && Oversized(row[0], fits) && Oversized(row[1], fits)
    ensures CountOversized(row, fits) == 2 + CountOversized(row[2..], fits)
  {
    assert row[1..][1..] == row[2..];
  }

  lemma PastTwo(front: seq<CheckResult>, r: CheckResult)
    requires |front| >= 2 && r in front && r != front[0] && r != front[1]
    ensures r in front[2..]
  {
    var i :| 0 <= i < |front| && front[i] == r;
    assert front[2..][i - 2] == r;
  }

  /** A stopped pass takes its two refused results from the front, where `r` stays. */
  lemma StoppedTakesFromFront(front: seq<CheckResult>, back: seq<CheckResult>, row: seq<CheckResult>, fits: Limit,
                              r: CheckResult)
    requires row == front + back && r in front && !Oversized(r, fits)
    requires PassOver(row, fits).stopped
    ensures |front| >= 2 && r in front[2..]
    ensures CountOversized(front, fits) == 2 + CountOversized(front[2..], fits)
    ensures PassOver(row, fits).left == front[2..] + (back + front[..2])
  {
    StoppedPassTurnsByTwo(row, fits);
    FrontOfOne(front, back, row, r);
    FrontTwo(front, back, row);
    CountOfTwo(front, fits);
    PastTwo(front, r);
  }

  lemma NextPass(row: seq<CheckResult>, fits: Limit, passes: nat, r: CheckResult)
    requires passes > 0 && row != []
    requires r in PassOver(row, fits).delivered || r in DeliveredIn(PassOver(row, fits).left, fits, passes - 1)
    ensures r in DeliveredIn(row, fits, passes)
  {
  }

  /** The row as stopped passes leave it: `back` holds what they turned behind. */
  lemma {:induction false} DeliveredBehind(front: seq<CheckResult>, back: seq<CheckResult>, row: seq<CheckResult>,
                                           fits: Limit, r: CheckResult, passes: nat)
    requires row == front + back && r in front && !Oversized(r, fits)
    requires passes > CountOversized(front, fits) / 2
    ensures r in DeliveredIn(row, fits, passes)
    decreases |front|
  {
    var pass := PassOver(row, fits);
    if pass.stopped {
      StoppedTakesFromFront(front, back, row, fits, r);
      DeliveredBehind(front[2..], back + front[..2], pass.left, fits, r, passes - 1);
    } else {
      assert r in row;
      UnstoppedPassDelivers(row, fits, r);
    }
    NextPass(row, fits, passes, r);
  }

  /** Whatever the limit, a stored row with b results over it alone has every other
      result delivered within b/2 + 1 passes. */
  lemma DeliveredWithin(row: seq<CheckResult>, fits: Limit, r: CheckResult)
    requires r in row && !Oversized(r, fits)
    ensures r in DeliveredIn(row, fits, CountOversized(row, fits) / 2 + 1)
  {
    assert row + [] == row;
    DeliveredBehind(row, [], row, fits, r, CountOversized(row, fits) / 2 + 1);
  }

  // ---- The bound is met: b results over the limit at the head cost b/2 passes ----

  /** No body that holds a result over the limit fits it. */
  ghost predicate Monotone(fits: Limit) {
    forall part, r :: fits(part) && r in part ==> fits([r])
  }

  lemma HeadIsOversized(row: seq<CheckResult>, s: Split, fits: Limit)
    requires |row| >= 2 && Monotone(fits) && Oversized(row[0], fits) && Oversized(row[1], fits)
    requires Tracks(row, s) && s.work != [] && s.stop.None? && |Settled(s.posted)| <= 1
    ensures !fits(s.work[0])
  {
    var part := s.work[0];
    HeadOut(row, s);
    assert part[0] == row[|Settled(s.posted)|] && part[0] in part;
  }

  lemma NothingSentYet(row: seq<CheckResult>, s: Split, fits: Limit)
    requires Tells(s) && s.work != [] && s.stop.None? && s.sent == 0
    requires Heeds(s.posted, fits) && !fits(s.work[0])
    ensures var s' := Answered(s, TooLarge);
            s'.stop.None? ==> s'.sent == 0 && |Settled(s'.posted)| <= 1
  {
    var s' := Answered(s, TooLarge);
    PostedOneMore(s.posted, Post(s.work[0], TooLarge));
    assert SettledAs(s'.posted, Sent) == [];
    NothingSentAllRefused(s'.posted);
    AnsweredTells(s, TooLarge);
  }

  /** What holds of a row led by two oversized results until its split stops. */
  ghost predicate Stopping(row: seq<CheckResult>, s: Split, fits: Limit) {
    && Tracks(row, s) && Heeds(s.posted, fits)
    && (s.stop.None? ==> s.sent == 0 && |Settled(s.posted)| <= 1)
  }

  lemma AnswerKeepsStopping(row: seq<CheckResult>, s: Split, fits: Limit)
    requires |row| >= 2 && Monotone(fits) && Oversized(row[0], fits) && Oversized(row[1], fits)
    requires Stopping(row, s, fits) && s.work != [] && s.stop.None?
    ensures !fits(s.work[0]) && Stopping(row, Answered(s, TooLarge), fits)
  {
    HeadIsOversized(row, s, fits);
    NothingSentYet(row, s, fits);
    AnsweredTracks(row, s, TooLarge);
  }

  lemma StoppingEnds(row: seq<CheckResult>, s: Split, fits: Limit)
    requires |row| >= 2 && Stopping(row, s, fits) && s.work == []
    ensures s.stop.Some?
  {
    Nothing(Settled(s.posted));
  }

  /** While the first two results are over the limit, nothing is sent before they are refused. */
  lemma {:induction false} TwoOversizedStop(row: seq<CheckResult>, s: Split, fits: Limit)
    requires |row| >= 2 && Monotone(fits) && Oversized(row[0], fits) && Oversized(row[1], fits)
    requires Stopping(row, s, fits)
    ensures Run(s, SizeLimit(fits)).stop.Some?
    decreases Cost(s.work)
  {
    if s.work == [] {
      StoppingEnds(row, s, fits);
    } else {
      RunOn(s, SizeLimit(fits));
      if s.stop.Some? {
        SetAsideTracks(row, s);
        TwoOversizedStop(row, SetAside(s), fits);
      } else {
        AnswerKeepsStopping(row, s, fits);
        TwoOversizedStop(row, Answered(s, TooLarge), fits);
      }
    }
  }

  /** A pass over a row led by two oversized results turns it by two, and delivers nothing. */
  lemma LeadingTwoTurned(row: seq<CheckResult>, fits: Limit)
    requires Monotone(fits) && |row| >= 2 && Oversized(row[0], fits) && Oversized(row[1], fits)
    ensures PassOver(row, fits).delivered == [] && PassOver(row, fits).left == row[2..] + row[..2]
  {
    assert !fits(row) by {
      assert row[0] in row;
    }
    StartTracks(row);
    TwoOversizedStop(row, Start(row), fits);
    StoppedPassTurnsByTwo(row, fits);
  }

  /** Whether the row is led by so many oversized results. */
  ghost predicate Led(row: seq<CheckResult>, fits: Limit, n: nat) {
    n <= |row| && forall i :: 0 <= i < n ==> Oversized(row[i], fits)
  }

  lemma LedByTwoFewer(row: seq<CheckResult>, fits: Limit, n: nat)
    requires n >= 2 && Led(row, fits, n)
    ensures Led(row[2..] + row[..2], fits, n - 2) && Oversized(row[0], fits) && Oversized(row[1], fits)
  {
    var left := row[2..] + row[..2];
    forall i | 0 <= i < n - 2 ensures Oversized(left[i], fits) {
      assert left[i] == row[i + 2];
    }
  }

  /** So many oversized results at the head cost half as many passes that deliver nothing. */
  lemma {:induction false} LeadingOversizedWait(row: seq<CheckResult>, fits: Limit, passes: nat)
    requires Monotone(fits) && Led(row, fits, 2 * passes)
    ensures DeliveredIn(row, fits, passes) == []
    decreases passes
  {
    if passes > 0 {
      LedByTwoFewer(row, fits, 2 * passes);
      LeadingTwoTurned(row, fits);
      LeadingOversizedWait(row[2..] + row[..2], fits, passes - 1);
    }
  }
}
