/** Replay against a server that limits the request size, in the middle of everything else the
    reporter does: each time a pass settles a stored row brings every result the limit lets
    through alone nearer to the server (reporter.py). */
module LimitedReplay {
  import opened Results
  import opened Splitting
  import opened Passes
  import opened Store
  import opened Protocol
  import opened Conservation

  /** The body of the POST the replay is waiting for. */
  function Asked(replay: Replay): seq<CheckResult> {
    match replay
    case AskingGroup(group, _) => Combined(group)
    case SplittingRow(_, split, _) => if split.work != [] then split.work[0] else []
    case _ => []
  }

  /** The replay's POSTs are taken exactly when the limit lets them through. */
  predicate ByLimit(g: Agent, e: Event, fits: Limit) {
    e.ReplayAnswer? ==> e.outcome == if fits(Asked(g.replay)) then Sent else TooLarge
  }

  /** The cap does not take the row. */
  ghost predicate Spares(g: Agent, e: Event, id: nat)
    requires Enabled(g, e)
  {
    e.FlightWrite? && id in g.pending ==> id in Step(g, e).pending
  }

  /** Whether the event is the one by which a pass writes back what it has left of the row. */
  predicate Settles(g: Agent, e: Event, id: nat) {
    e.ReplayWrite? && g.replay.Rewriting? && g.replay.batch.id == id
  }

  // ---- A split under way ----

  ghost predicate Splits(row: seq<CheckResult>, split: Split, fits: Limit) {
    && !fits(row) && |row| > 1 && split.work != [] && split.stop.None?
    && Run(split, SizeLimit(fits)) == Run(Start(row), SizeLimit(fits))
  }

  /** What a pass has made of the row so far is what `PassOver` makes of it. */
  ghost predicate OnCourse(replay: Replay, id: nat, fits: Limit, accepted: set<CheckResult>) {
    match replay
    case SplittingRow(b, split, _) =>
      b.id == id ==> Splits(b.checks, split, fits) && AsSet(SettledAs(split.posted, Sent)) <= accepted
    case CondemningRowPart(b, _, _, _) => b.id != id
    case Moving(b, _) => b.id != id
    case Rewriting(b, unsent, _, _) =>
      b.id == id ==> unsent == PassOver(b.checks, fits).left && AsSet(PassOver(b.checks, fits).delivered) <= accepted
    case _ => true
  }

  lemma AsideUnsent(s: Split)
    requires s.work != []
    ensures Unsent(SetAside(s)) == Unsent(s)
  {
    assert s.untried + (s.work[0] + Flatten(s.work[1..])) == (s.untried + s.work[0]) + Flatten(s.work[1..]);
  }

  /** Once it has stopped or run out of work, a split only sets aside. */
  lemma {:induction false} StoppedEnd(s: Split, server: Server)
    requires s.work == [] || s.stop.Some?
    ensures var end := Run(s, server); end.posted == s.posted && Unsent(end) == Unsent(s)
    decreases Cost(s.work)
  {
    if s.work != [] {
      RunOn(s, server);
      AsideUnsent(s);
      StoppedEnd(SetAside(s), server);
    }
  }

  lemma OnePostSent(posted: seq<Post>, p: Post, accepted: set<CheckResult>)
    requires AsSet(SettledAs(posted, Sent)) <= accepted
    ensures AsSet(SettledAs(posted + [p], Sent)) <= accepted + if p.outcome == Sent then AsSet(p.part) else {}
  {
    PostedOneMore(posted, p);
  }

  /** The answer to a part, as the limit gives it. */
  lemma PartAnswered(b: StoredBatch, split: Split, turn: Turn, id: nat, fits: Limit, accepted: set<CheckResult>)
    requires Splits(b.checks, split, fits) && AsSet(SettledAs(split.posted, Sent)) <= accepted
    ensures var outcome := if fits(split.work[0]) then Sent else TooLarge;
            OnCourse(AfterSplit(b, Answered(split, outcome), turn), id, fits,
                     accepted + if outcome == Sent then AsSet(split.work[0]) else {})
  {
    var outcome := if fits(split.work[0]) then Sent else TooLarge;
    var next := Answered(split, outcome);
    RunOn(split, SizeLimit(fits));
    assert SizeLimit(fits)(|split.posted|, split.work[0]) == outcome;
    OnePostSent(split.posted, Post(split.work[0], outcome), accepted);
    if !(next.work != [] && next.stop.None?) {
      StoppedEnd(next, SizeLimit(fits));
    }
  }

  // ---- How near a result is ----

  /** The result is behind so few oversized ones in the row that this many passes are enough. */
  ghost predicate Behind(row: seq<CheckResult>, fits: Limit, r: CheckResult, passes: int) {
    exists n: nat :: n <= |row| && r in row[..n] && CountOversized(row[..n], fits) / 2 <= passes
  }

  /** The server has the result, or it is on its way there. */
  ghost predicate Coming(g: Agent, id: nat, fits: Limit, r: CheckResult, passes: int) {
    r in g.accepted
    || (id in g.pending && Behind(g.pending[id].checks, fits, r, passes) && OnCourse(g.replay, id, fits, g.accepted))
  }

  lemma MoreAccepted(replay: Replay, id: nat, fits: Limit, accepted: set<CheckResult>, more: set<CheckResult>)
    requires OnCourse(replay, id, fits, accepted) && accepted <= more
    ensures OnCourse(replay, id, fits, more)
  {
  }

  lemma OthersFrame(g: Agent, e: Event, id: nat)
    requires Enabled(g, e) && Spares(g, e, id) && id in g.pending && IdsUsed(g)
    requires e.Add? || e.Flush? || e.FlightAnswer? || e.FlightWrite?
    ensures Step(g, e).replay == g.replay && g.accepted <= Step(g, e).accepted
    ensures id in Step(g, e).pending && Step(g, e).pending[id] == g.pending[id]
  {
    if e.FlightWrite? { RowsKept(g, e); }
  }

  lemma AcceptedGrows(g: Agent, e: Event)
    requires Enabled(g, e)
    ensures g.accepted <= Step(g, e).accepted
  {
  }

  /** The events of the other tasks leave the row and its replay alone. */
  lemma OthersKeepComing(g: Agent, e: Event, id: nat, fits: Limit, r: CheckResult, passes: int)
    requires Enabled(g, e) && Coming(g, id, fits, r, passes) && Spares(g, e, id) && IdsUsed(g)
    requires e.Add? || e.Flush? || e.FlightAnswer? || e.FlightWrite?
    ensures Coming(Step(g, e), id, fits, r, passes)
  {
    if r in g.accepted {
      AcceptedGrows(g, e);
    } else {
      OthersFrame(g, e, id);
      MoreAccepted(g.replay, id, fits, g.accepted, Step(g, e).accepted);
    }
  }

  /** A row read for the pass, asked alone or with others. */
  lemma GroupAnswered(g: Agent, outcome: Delivery, id: nat, fits: Limit, r: CheckResult, passes: int)
    requires Coming(g, id, fits, r, passes) && g.replay.AskingGroup? && CopiesCurrent(g)
    requires ByLimit(g, ReplayAnswer(outcome), fits)
    ensures Coming(StepReplayAnswer(g, outcome), id, fits, r, passes)
  {
    var group := g.replay.group;
    if outcome == TooLarge && |group| == 1 && group[0].id == id && r !in g.accepted {
      var row := group[0].checks;
      assert group[0] in InHand(g.replay);
      assert Current(g.pending, group[0]);
      assert Combined(group) == row by { assert group[1..] == []; assert row + [] == row; }
      assert row != [] by { var n: nat :| n <= |row| && r in row[..n]; }
      assert AsSet(SettledAs([], Sent)) == {};
      assert AsSet(PassOver(row, fits).delivered) <= g.accepted || |row| > 1;
    }
  }

  lemma RowAnswered(g: Agent, outcome: Delivery, id: nat, fits: Limit, r: CheckResult, passes: int)
    requires Coming(g, id, fits, r, passes) && g.replay.SplittingRow?
    requires ByLimit(g, ReplayAnswer(outcome), fits)
    ensures Coming(StepReplayAnswer(g, outcome), id, fits, r, passes)
  {
    if g.replay.batch.id == id && r !in g.accepted {
      PartAnswered(g.replay.batch, g.replay.split, g.replay.turn, id, fits, g.accepted);
    }
  }

  /** A stopped pass has two oversized results fewer before the result. */
  lemma TurnedNearer(row: seq<CheckResult>, fits: Limit, r: CheckResult, passes: int)
    requires Behind(row, fits, r, passes) && !Oversized(r, fits) && PassOver(row, fits).stopped
    ensures Behind(PassOver(row, fits).left, fits, r, passes - 1)
  {
    var n: nat :| n <= |row| && r in row[..n] && CountOversized(row[..n], fits) / 2 <= passes;
    StoppedTakesFromFront(row[..n], row[n..], row, fits, r);
    assert PassOver(row, fits).left[..n - 2] == row[..n][2..];
  }

  /** What a pass writes back of the row: with nothing sent it has turned by two, and with
      something sent all that fits alone was. */
  lemma RowSettled(g: Agent, now: int, cap: int, id: nat, fits: Limit, r: CheckResult, passes: int)
    requires Coming(g, id, fits, r, passes) && g.replay.Rewriting? && g.replay.batch.id == id && CopiesCurrent(g)
    requires !Oversized(r, fits)
    ensures Coming(StepReplayWrite(g, now, cap), id, fits, r, passes - 1)
  {
    if r !in g.accepted {
      var row := g.replay.batch.checks;
      assert g.replay.batch in InHand(g.replay);
      assert Current(g.pending, g.replay.batch);
      if PassOver(row, fits).stopped {
        TurnedNearer(row, fits, r, passes);
        StoppedPassTurnsByTwo(row, fits);
      } else {
        UnstoppedPassDelivers(row, fits, r);
      }
    }
  }

  /** A row another event writes to is another row, or all of it is with the server. */
  lemma OtherWrites(g: Agent, now: int, cap: int, id: nat, fits: Limit, r: CheckResult, passes: int)
    requires Coming(g, id, fits, r, passes) && Inv(g) && Enabled(g, ReplayWrite(now, cap))
    requires !Settles(g, ReplayWrite(now, cap), id)
    ensures Coming(StepReplayWrite(g, now, cap), id, fits, r, passes)
  {
    if g.replay.Draining? && g.replay.group != [] && g.replay.group[0].id == id && r !in g.accepted {
      var b := g.replay.group[0];
      assert b in InHand(g.replay);
      assert Current(g.pending, b) && r in b.checks;
    }
  }

  lemma StepKeepsComing(g: Agent, e: Event, id: nat, fits: Limit, r: CheckResult, passes: int)
    requires Inv(g) && Enabled(g, e) && ByLimit(g, e, fits) && Spares(g, e, id) && !Oversized(r, fits)
    requires Coming(g, id, fits, r, passes)
    ensures Coming(Step(g, e), id, fits, r, passes - if Settles(g, e, id) then 1 else 0)
  {
    match e
    case ReplayRead(_) =>
    case ReplayGroup(_) =>
    case ReplayDone =>
    case ReplayStop =>
    case ReplayAnswer(outcome) =>
      if g.replay.AskingGroup? { GroupAnswered(g, outcome, id, fits, r, passes); }
      else { RowAnswered(g, outcome, id, fits, r, passes); }
    case ReplayWrite(now, cap) =>
      if Settles(g, e, id) { RowSettled(g, now, cap, id, fits, r, passes); }
      else { OtherWrites(g, now, cap, id, fits, r, passes); }
    case _ => OthersKeepComing(g, e, id, fits, r, passes);
  }

  // ---- Over runs ----

  /** How often passes have settled the row in a run. */
  ghost function TimesSettled(g: Agent, events: seq<Event>, id: nat): nat
    requires Legal(g, events)
    decreases |events|
  {
    if events == [] then 0
    else (if Settles(g, events[0], id) then 1 else 0) + TimesSettled(Step(g, events[0]), events[1..], id)
  }

  ghost predicate Limited(g: Agent, events: seq<Event>, id: nat, fits: Limit)
    requires Legal(g, events)
    decreases |events|
  {
    events == [] || (ByLimit(g, events[0], fits) && Spares(g, events[0], id)
                     && Limited(Step(g, events[0]), events[1..], id, fits))
  }

  lemma {:induction false} RunKeepsComing(g: Agent, events: seq<Event>, id: nat, fits: Limit, r: CheckResult,
                                          passes: int)
    requires Inv(g) && Legal(g, events) && Limited(g, events, id, fits) && !Oversized(r, fits)
    requires Coming(g, id, fits, r, passes)
    ensures Coming(Exec(g, events), id, fits, r, passes - TimesSettled(g, events, id))
    decreases |events|
  {
    if events != [] {
      StepKeepsInv(g, events[0]);
      StepKeepsComing(g, events[0], id, fits, r, passes);
      RunKeepsComing(Step(g, events[0]), events[1..], id, fits, r, passes - if Settles(g, events[0], id) then 1 else 0);
    }
  }

  /** However the replay interleaves with flushes, other rows and other passes: once passes have
      settled a stored row with b results over the limit b/2 + 1 times, the server has every
      other result of it, unless the cap took the row. */
  lemma SettledOftenIsDelivered(g: Agent, events: seq<Event>, id: nat, fits: Limit, r: CheckResult)
    requires Inv(g) && g.replay.Idle? && id in g.pending && r in g.pending[id].checks && !Oversized(r, fits)
    requires Legal(g, events) && Limited(g, events, id, fits)
    requires TimesSettled(g, events, id) > CountOversized(g.pending[id].checks, fits) / 2
    ensures r in Exec(g, events).accepted
  {
    var row := g.pending[id].checks;
    assert row[..|row|] == row;
    var passes := CountOversized(row, fits) / 2;
    assert Behind(row, fits, r, passes);
    RunKeepsComing(g, events, id, fits, r, passes);
  }
}
