/** No result is lost: whatever the interleaving of results, flushes, replay and prunes,
    each result ever added is still in the reporter's hands, dead-lettered, accepted by
    the server, or taken by one of the three caps (reporter.py). */
module Conservation {
  import opened Results
  import opened Splitting
  import opened Store
  import opened Protocol

  // ---- Where a result is ----

  function Carried(f: Flight): seq<CheckResult> {
    match f
    case Asking(batch) => batch
    case Condemning(batch) => batch
    case InParts(split) => Unsent(split)
    case CondemningPart(split, part) => part + Unsent(split)
    case Storing(unsent) => unsent
  }

  ghost predicate InFlights(flights: map<nat, Flight>, r: CheckResult) {
    exists t :: t in flights && r in Carried(flights[t])
  }

  /** Delivered, dead-lettered or evicted: no longer the reporter's to send. */
  ghost predicate Done(g: Agent, r: CheckResult) {
    r in g.accepted || InLetters(g.letters, r) || r in g.evicted
  }

  ghost predicate Accounted(g: Agent, r: CheckResult) {
    r in g.current || InFlights(g.flights, r) || InPending(g.pending, r) || Done(g, r)
  }

  // ---- What the replay task holds ----

  function InHand(replay: Replay): seq<StoredBatch> {
    match replay
    case Idle => []
    case Looping(turn) => turn.singles + turn.rest
    case AskingGroup(group, turn) => group + turn.singles + turn.rest
    case Draining(group, turn) => group + turn.singles + turn.rest
    case SplittingRow(batch, _, turn) => [batch] + turn.singles + turn.rest
    case CondemningRowPart(batch, _, _, turn) => [batch] + turn.singles + turn.rest
    case Rewriting(batch, _, _, turn) => [batch] + turn.singles + turn.rest
    case Moving(batch, turn) => [batch] + turn.singles + turn.rest
  }

  /** What the row being replayed still waits for. */
  function Waiting(replay: Replay): seq<CheckResult> {
    match replay
    case SplittingRow(_, split, _) => Unsent(split)
    case CondemningRowPart(_, split, part, _) => part + Unsent(split)
    case Rewriting(_, unsent, _, _) => unsent
    case _ => []
  }

  ghost predicate Distinct(batches: seq<StoredBatch>) {
    forall i, j :: 0 <= i < j < |batches| ==> batches[i].id != batches[j].id
  }

  ghost predicate AllAdded(g: Agent) {
    forall r :: r in g.added <==> Accounted(g, r)
  }

  ghost predicate IdsUsed(g: Agent) {
    && (forall id :: id in g.pending ==> id < g.nextId)
    && (forall b :: b in InHand(g.replay) ==> b.id < g.nextId)
  }

  /** A batch in the replay's hands is still what its row holds, unless the row is gone. */
  ghost predicate CopiesCurrent(g: Agent) {
    && Distinct(InHand(g.replay))
    && (forall b :: b in InHand(g.replay) ==> Current(g.pending, b))
    && (forall b, r :: b in InHand(g.replay) && r in b.checks ==> r in g.added)
  }

  /** A row is only shortened by what is done with, and only deleted once it all is. */
  ghost predicate RowCovered(g: Agent) {
    match g.replay
    case SplittingRow(b, _, _) => Covers(g, b.checks)
    case CondemningRowPart(b, _, _, _) => Covers(g, b.checks)
    case Rewriting(b, _, _, _) => Covers(g, b.checks)
    case Draining(group, _) => forall b, r :: b in group && r in b.checks ==> r in g.accepted
    case _ => true
  }

  ghost predicate Covers(g: Agent, checks: seq<CheckResult>) {
    && (forall r :: r in checks ==> r in Waiting(g.replay) || Done(g, r))
    && (forall r :: r in Waiting(g.replay) ==> r in checks)
  }

  ghost predicate Inv(g: Agent) {
    AllAdded(g) && IdsUsed(g) && CopiesCurrent(g) && RowCovered(g)
  }

  // ---- Splitting keeps what it has not settled ----

  lemma FlattenSplit(parts: seq<seq<CheckResult>>, r: CheckResult)
    requires parts != []
    ensures r in Flatten(parts) <==> r in parts[0] || r in Flatten(parts[1..])
  {
  }

  lemma AnsweredKeeps(s: Split, outcome: Delivery, r: CheckResult)
    requires s.work != []
    ensures r in Unsent(s)
        ==> r in Unsent(Answered(s, outcome)) || (r in s.work[0] && (outcome == Sent || outcome == Permanent))
    ensures r in Unsent(Answered(s, outcome)) || r in s.work[0] ==> r in Unsent(s)
  {
    var part := s.work[0];
    FlattenSplit(s.work, r);
    if outcome == TooLarge && |part| > 1 {
      FlattenHalves(part, s.work[1..]);
      assert r in part + Flatten(s.work[1..]) <==> r in part || r in Flatten(s.work[1..]);
    }
  }

  lemma StartHolds(batch: seq<CheckResult>)
    ensures Unsent(Start(batch)) == batch
  {
    assert Halves(batch) + [] == Halves(batch);
    FlattenHalves(batch, []);
    assert [] + (batch + []) + [] == batch;
  }

  // ---- Flights ----

  lemma FlightsWithout(flights: map<nat, Flight>, task: nat, r: CheckResult)
    requires task in flights
    ensures InFlights(flights, r) <==> InFlights(flights - {task}, r) || r in Carried(flights[task])
  {
    if t :| t in flights && r in Carried(flights[t]) {
      assert t == task || t in flights - {task};
    }
    if t :| t in flights - {task} && r in Carried((flights - {task})[t]) {
      assert t in flights && flights[t] == (flights - {task})[t];
    }
  }

  lemma FlightsSet(flights: map<nat, Flight>, task: nat, next: Flight, r: CheckResult)
    ensures InFlights(flights[task := next], r) <==> InFlights(flights - {task}, r) || r in Carried(next)
  {
    FlightsWithout(flights[task := next], task, r);
    assert flights[task := next] - {task} == flights - {task};
  }

  lemma FlightsAfterSplit(flights: map<nat, Flight>, task: nat, split: Split, r: CheckResult)
    ensures InFlights(SetFlight(flights, task, NextOfSplit(split)), r)
       <==> InFlights(flights - {task}, r) || r in Unsent(split)
  {
    if NextOfSplit(split).Some? {
      FlightsSet(flights, task, NextOfSplit(split).value, r);
    }
  }

  // ---- Each step keeps every result accounted for ----

  lemma AddAccounts(g: Agent, result: CheckResult, maxQueue: int)
    requires AllAdded(g)
    ensures AllAdded(StepAdd(g, result, maxQueue))
  {
    var g' := StepAdd(g, result, maxQueue);
    assert forall r :: r in Thinned(g.current, maxQueue) ==> r in g.current;
    forall r ensures r in g'.added <==> Accounted(g', r) {
      assert r in g'.current <==> r in Thinned(g.current, maxQueue) || r == result;
      assert Accounted(g, r) ==> Accounted(g', r);
    }
  }

  lemma FlushAccounts(g: Agent, task: nat)
    requires AllAdded(g) && Enabled(g, Flush(task))
    ensures AllAdded(StepFlush(g, task))
  {
    var g' := StepFlush(g, task);
    forall r ensures r in g'.added <==> Accounted(g', r) {
      FlightsSet(g.flights, task, Asking(g.current), r);
      assert g.flights - {task} == g.flights;
    }
  }

  lemma FlightAnswerAccounts(g: Agent, task: nat, outcome: Delivery)
    requires AllAdded(g) && Enabled(g, FlightAnswer(task, outcome))
    ensures AllAdded(StepFlightAnswer(g, task, outcome))
  {
    var g' := StepFlightAnswer(g, task, outcome);
    forall r ensures r in g'.added <==> Accounted(g', r) {
      FlightsWithout(g.flights, task, r);
      match g.flights[task]
      case Asking(batch) =>
        StartHolds(batch);
        if outcome != Sent { FlightsSet(g.flights, task, g'.flights[task], r); }
      case InParts(split) =>
        if split.work != [] {
          var next := Answered(split, outcome);
          AnsweredKeeps(split, outcome, r);
          if outcome == Permanent {
            FlightsSet(g.flights, task, CondemningPart(next, split.work[0]), r);
          } else {
            FlightsAfterSplit(g.flights, task, next, r);
          }
        }
      case _ =>
    }
  }

  lemma FlightWriteAccounts(g: Agent, task: nat, now: int, cap: int)
    requires AllAdded(g) && IdsUsed(g) && Enabled(g, FlightWrite(task, now, cap))
    ensures AllAdded(StepFlightWrite(g, task, now, cap))
  {
    var g' := StepFlightWrite(g, task, now, cap);
    forall r ensures r in g'.added <==> Accounted(g', r) {
      FlightsWithout(g.flights, task, r);
      match g.flights[task]
      case Condemning(batch) =>
        LetterConserves(g.letters, Letter(now, batch), cap, r);
      case CondemningPart(split, part) =>
        LetterConserves(g.letters, Letter(now, part), cap, r);
        FlightsAfterSplit(g.flights, task, split, r);
      case Storing(unsent) =>
        StoreConserves(g.pending, g.nextId, now, unsent, cap, r);
      case _ =>
    }
  }

  /** A letter from a pending row moves no result the row's table did not hold. */
  lemma DeleteAccounts(rows: Pending, id: nat, r: CheckResult)
    ensures InPending(rows, r) <==> InPending(rows - {id}, r) || (id in rows && r in rows[id].checks)
  {
    if i :| i in rows && r in rows[i].checks {
      assert i == id || (i in rows - {id} && (rows - {id})[i] == rows[i]);
    }
    if i :| i in rows - {id} && r in (rows - {id})[i].checks {
      assert i in rows && rows[i] == (rows - {id})[i];
    }
  }

  lemma RewriteAccounts(rows: Pending, id: nat, checks: seq<CheckResult>, r: CheckResult)
    requires id in rows
    ensures InPending(AfterRewrite(rows, id, checks), r) <==> InPending(rows - {id}, r) || r in checks
  {
    var rows' := AfterRewrite(rows, id, checks);
    DeleteAccounts(rows', id, r);
    assert rows' - {id} == rows - {id};
  }

  lemma CombinedHolds(group: seq<StoredBatch>, r: CheckResult)
    ensures r in Combined(group) <==> exists b :: b in group && r in b.checks
  {
    if group != [] {
      CombinedHolds(group[1..], r);
      assert group == [group[0]] + group[1..];
    }
  }

  lemma ReplayAnswerAccounts(g: Agent, outcome: Delivery)
    requires Inv(g) && Enabled(g, ReplayAnswer(outcome))
    ensures AllAdded(StepReplayAnswer(g, outcome))
  {
    var g' := StepReplayAnswer(g, outcome);
    forall r ensures r in g'.added <==> Accounted(g', r) {
      match g.replay
      case AskingGroup(group, turn) =>
        CombinedHolds(group, r);
        assert forall b :: b in group ==> b in InHand(g.replay);
      case SplittingRow(batch, split, turn) =>
        if split.work != [] {
          AnsweredKeeps(split, outcome, r);
          assert r in split.work[0] ==> r in batch.checks && batch in InHand(g.replay);
        }
      case _ =>
    }
  }

  lemma ReplayWriteAccounts(g: Agent, now: int, cap: int)
    requires Inv(g) && Enabled(g, ReplayWrite(now, cap))
    ensures AllAdded(StepReplayWrite(g, now, cap))
  {
    var g' := StepReplayWrite(g, now, cap);
    forall r ensures r in g'.added <==> Accounted(g', r) {
      match g.replay
      case Draining(group, turn) =>
        if group != [] {
          assert group[0] in group && group[0] in InHand(g.replay);
          DeleteAccounts(g.pending, group[0].id, r);
        }
      case CondemningRowPart(batch, split, part, turn) =>
        assert batch in InHand(g.replay);
        LetterConserves(g.letters, Letter(batch.created, part), cap, r);
      case Rewriting(batch, unsent, got, turn) =>
        assert batch in InHand(g.replay);
        DeleteAccounts(g.pending, batch.id, r);
        if batch.id in g.pending { RewriteAccounts(g.pending, batch.id, unsent, r); }
      case Moving(batch, turn) =>
        DeleteAccounts(g.pending, batch.id, r);
        if batch.id in g.pending {
          var row := g.pending[batch.id];
          LetterConserves(g.letters, Letter(row.created, row.checks), cap, r);
        }
      case _ =>
    }
  }

  // ---- The replay task's copies stay true to their rows ----

  /** A step only takes batches from the front of the replay's hands. */
  ghost predicate TakenFromFront(before: seq<StoredBatch>, after: seq<StoredBatch>) {
    exists k :: 0 <= k <= |before| && after == before[k..]
  }

  lemma TakeNone(before: seq<StoredBatch>, after: seq<StoredBatch>)
    requires after == before
    ensures TakenFromFront(before, after)
  {
    assert after == before[0..];
  }

  lemma TakeOne(batch: StoredBatch, after: seq<StoredBatch>)
    ensures TakenFromFront([batch] + after, after)
  {
    assert after == ([batch] + after)[1..];
  }

  lemma TakeAll(before: seq<StoredBatch>)
    ensures TakenFromFront(before, [])
  {
    assert before[|before|..] == [];
  }

  lemma GroupHands(g: Agent, batchSize: int)
    requires Enabled(g, ReplayGroup(batchSize))
    ensures InHand(StepReplayGroup(g, batchSize).replay) == InHand(g.replay)
  {
    var turn := g.replay.turn;
    if turn.singles != [] {
      assert [turn.singles[0]] + turn.singles[1..] == turn.singles;
    } else {
      var n := GroupLength(turn.rest, batchSize);
      assert turn.rest[..n] + [] + turn.rest[n..] == turn.rest;
    }
  }

  lemma GroupAnswerHands(g: Agent, group: seq<StoredBatch>, turn: Turn, outcome: Delivery)
    requires g.replay == AskingGroup(group, turn)
    ensures var after := StepReplayAnswer(g, outcome).replay;
            after == Idle || InHand(after) == group + turn.singles + turn.rest
  {
    if |group| == 1 { assert group == [group[0]]; }
  }

  lemma AnswerHands(g: Agent, outcome: Delivery)
    requires Enabled(g, ReplayAnswer(outcome))
    ensures var after := StepReplayAnswer(g, outcome).replay;
            after == Idle || InHand(after) == InHand(g.replay)
  {
    if g.replay.AskingGroup? { GroupAnswerHands(g, g.replay.group, g.replay.turn, outcome); }
  }

  lemma WriteHands(g: Agent, now: int, cap: int)
    requires Enabled(g, ReplayWrite(now, cap))
    ensures TakenFromFront(InHand(g.replay), InHand(StepReplayWrite(g, now, cap).replay))
  {
    var before, after := InHand(g.replay), InHand(StepReplayWrite(g, now, cap).replay);
    match g.replay
    case Draining(group, turn) =>
      if group == [] { assert after == before; TakeNone(before, after); }
      else {
        assert before == [group[0]] + after;
        TakeOne(group[0], after);
      }
    case Rewriting(batch, unsent, got, turn) =>
      if got == Transient { TakeAll(before); }
      else {
        assert before == [batch] + after;
        TakeOne(batch, after);
      }
    case Moving(batch, turn) =>
      assert before == [batch] + after;
      TakeOne(batch, after);
    case _ => TakeNone(before, after);
  }

  /** The replay's hands after a step hold nothing they did not hold before. */
  lemma ReplayHandsShrink(g: Agent, e: Event)
    requires Enabled(g, e) && !e.ReplayRead?
    ensures TakenFromFront(InHand(g.replay), InHand(Step(g, e).replay))
  {
    if e.ReplayGroup? { GroupHands(g, e.batchSize); TakeNone(InHand(g.replay), InHand(Step(g, e).replay)); }
    else if e.ReplayAnswer? {
      AnswerHands(g, e.outcome);
      var after := Step(g, e).replay;
      if after == Idle { TakeAll(InHand(g.replay)); } else { TakeNone(InHand(g.replay), InHand(after)); }
    }
    else if e.ReplayWrite? { WriteHands(g, e.now, e.cap); }
    else if e.ReplayDone? || e.ReplayStop? { TakeAll(InHand(g.replay)); }
    else { TakeNone(InHand(g.replay), InHand(Step(g, e).replay)); }
  }

  lemma FrontLeavesOthers(batch: StoredBatch, rest: seq<StoredBatch>, b: StoredBatch)
    requires Distinct([batch] + rest) && b in rest
    ensures b.id != batch.id
  {
    var all := [batch] + rest;
    var i :| 0 <= i < |rest| && rest[i] == b;
    assert all[0].id != all[i + 1].id;
  }

  /** Rows only join under a new id and otherwise leave as they are. */
  ghost predicate RowsOnlyLeave(before: Pending, after: Pending, nextId: nat) {
    forall id :: id in after ==> id == nextId || (id in before && after[id] == before[id])
  }

  lemma RowsKept(g: Agent, e: Event)
    requires Enabled(g, e) && !(e.ReplayWrite? && g.replay.Rewriting?)
    ensures RowsOnlyLeave(g.pending, Step(g, e).pending, g.nextId)
  {
  }

  /** Only the replay changes a row, and then only one it is letting go of. */
  lemma RewriteCopies(g: Agent, now: int, cap: int, b: StoredBatch)
    requires CopiesCurrent(g) && Enabled(g, ReplayWrite(now, cap)) && g.replay.Rewriting?
    requires b in InHand(StepReplayWrite(g, now, cap).replay)
    ensures b in InHand(g.replay) && Current(StepReplayWrite(g, now, cap).pending, b)
  {
    var after := InHand(StepReplayWrite(g, now, cap).replay);
    assert InHand(g.replay) == [g.replay.batch] + after;
    FrontLeavesOthers(g.replay.batch, after, b);
  }

  lemma OtherCopies(g: Agent, e: Event, b: StoredBatch)
    requires IdsUsed(g) && CopiesCurrent(g) && Enabled(g, e) && !(e.ReplayWrite? && g.replay.Rewriting?)
    requires b in InHand(g.replay)
    ensures Current(Step(g, e).pending, b)
  {
    RowsKept(g, e);
  }

  lemma FrontTaken(before: seq<StoredBatch>, after: seq<StoredBatch>)
    requires Distinct(before) && TakenFromFront(before, after)
    ensures Distinct(after)
    ensures forall b :: b in after ==> b in before
  {
  }

  lemma CopyStays(g: Agent, e: Event, b: StoredBatch)
    requires IdsUsed(g) && CopiesCurrent(g) && Enabled(g, e) && !e.ReplayRead?
    requires b in InHand(Step(g, e).replay) && b in InHand(g.replay)
    ensures Current(Step(g, e).pending, b)
  {
    if e.ReplayWrite? && g.replay.Rewriting? {
      RewriteCopies(g, e.now, e.cap, b);
    } else {
      OtherCopies(g, e, b);
    }
  }

  lemma AddedGrows(g: Agent, e: Event)
    requires Enabled(g, e)
    ensures g.added <= Step(g, e).added
  {
  }

  lemma ReplayCopies(g: Agent, e: Event)
    requires IdsUsed(g) && CopiesCurrent(g) && Enabled(g, e) && !e.ReplayRead?
    ensures CopiesCurrent(Step(g, e))
  {
    ReplayHandsShrink(g, e);
    AddedGrows(g, e);
    var g' := Step(g, e);
    FrontTaken(InHand(g.replay), InHand(g'.replay));
    forall b | b in InHand(g'.replay) ensures Current(g'.pending, b) {
      CopyStays(g, e, b);
    }
  }

  lemma ReadCopies(g: Agent, limit: int)
    requires Inv(g) && Enabled(g, ReplayRead(limit))
    ensures Inv(StepReplayRead(g, limit))
  {
    var g' := StepReplayRead(g, limit);
    var batches := g'.replay.turn.rest;
    assert InHand(g'.replay) == batches;
    forall b, r | b in batches && r in b.checks ensures r in g.added {
      assert g.pending[b.id].checks == b.checks;
      assert InPending(g.pending, r);
    }
    forall r ensures r in g'.added <==> Accounted(g', r) {
      assert Accounted(g', r) <==> Accounted(g, r);
    }
  }

  lemma RowIds(g: Agent, e: Event)
    requires Enabled(g, e) && forall id :: id in g.pending ==> id < g.nextId
    ensures g.nextId <= Step(g, e).nextId
    ensures forall id :: id in Step(g, e).pending ==> id < Step(g, e).nextId
  {
    if e.ReplayWrite? && g.replay.Rewriting? {
      assert Step(g, e).pending.Keys <= g.pending.Keys;
    } else {
      RowsKept(g, e);
    }
  }

  lemma StepIds(g: Agent, e: Event)
    requires Inv(g) && Enabled(g, e) && !e.ReplayRead?
    ensures IdsUsed(Step(g, e))
  {
    RowIds(g, e);
    ReplayHandsShrink(g, e);
    var before, after := InHand(g.replay), InHand(Step(g, e).replay);
    assert forall b :: b in after ==> b in before;
  }

  // ---- The row being replayed stays covered ----

  lemma DoneStaysDone(g: Agent, e: Event, r: CheckResult)
    requires Enabled(g, e) && Done(g, r)
    ensures Done(Step(g, e), r)
  {
    if InLetters(g.letters, r) {
      match e
      case FlightWrite(task, now, cap) =>
        match g.flights[task] {
          case Condemning(batch) => LetterConserves(g.letters, Letter(now, batch), cap, r);
          case CondemningPart(split, part) => LetterConserves(g.letters, Letter(now, part), cap, r);
          case _ =>
        }
      case ReplayWrite(now, cap) =>
        match g.replay {
          case CondemningRowPart(batch, split, part, turn) =>
            LetterConserves(g.letters, Letter(batch.created, part), cap, r);
          case Moving(batch, turn) =>
            if batch.id in g.pending {
              LetterConserves(g.letters, Letter(g.pending[batch.id].created, g.pending[batch.id].checks), cap, r);
            }
          case _ =>
        }
      case _ =>
    }
  }

  lemma SplitStaysCovered(g: Agent, outcome: Delivery)
    requires Inv(g) && Enabled(g, ReplayAnswer(outcome)) && g.replay.SplittingRow?
    ensures RowCovered(StepReplayAnswer(g, outcome))
  {
    var g' := StepReplayAnswer(g, outcome);
    var split, checks := g.replay.split, g.replay.batch.checks;
    if split.work != [] {
      forall r ensures r in checks ==> r in Waiting(g'.replay) || Done(g', r)
               ensures r in Waiting(g'.replay) ==> r in checks
      {
        AnsweredKeeps(split, outcome, r);
        if Done(g, r) { DoneStaysDone(g, ReplayAnswer(outcome), r); }
      }
    }
  }

  lemma CombinedAccepted(group: seq<StoredBatch>)
    ensures forall b, r :: b in group && r in b.checks ==> r in AsSet(Combined(group))
  {
    forall b, r | b in group && r in b.checks ensures r in AsSet(Combined(group)) {
      CombinedHolds(group, r);
    }
  }

  lemma AnswerCovers(g: Agent, outcome: Delivery)
    requires Inv(g) && Enabled(g, ReplayAnswer(outcome))
    ensures RowCovered(StepReplayAnswer(g, outcome))
  {
    if g.replay.AskingGroup? {
      CombinedAccepted(g.replay.group);
      if |g.replay.group| == 1 { StartHolds(g.replay.group[0].checks); }
    } else {
      SplitStaysCovered(g, outcome);
    }
  }

  lemma LetterCovers(g: Agent, now: int, cap: int)
    requires Inv(g) && Enabled(g, ReplayWrite(now, cap)) && g.replay.CondemningRowPart?
    ensures RowCovered(StepReplayWrite(g, now, cap))
  {
    var g' := StepReplayWrite(g, now, cap);
    var batch, split, part := g.replay.batch, g.replay.split, g.replay.part;
    forall r ensures r in batch.checks ==> r in Waiting(g'.replay) || Done(g', r)
             ensures r in Waiting(g'.replay) ==> r in batch.checks
    {
      LetterConserves(g.letters, Letter(batch.created, part), cap, r);
    }
  }

  lemma OthersKeepCovered(g: Agent, e: Event)
    requires Inv(g) && Enabled(g, e)
    requires e.Add? || e.Flush? || e.FlightAnswer? || e.FlightWrite?
    ensures RowCovered(Step(g, e))
  {
    forall r | Done(g, r) ensures Done(Step(g, e), r) {
      DoneStaysDone(g, e, r);
    }
    assert Step(g, e).replay == g.replay;
  }

  lemma StepCovers(g: Agent, e: Event)
    requires Inv(g) && Enabled(g, e) && !e.ReplayRead?
    ensures RowCovered(Step(g, e))
  {
    match e
    case ReplayAnswer(outcome) => AnswerCovers(g, outcome);
    case ReplayWrite(now, cap) => if g.replay.CondemningRowPart? { LetterCovers(g, now, cap); }
    case ReplayGroup(_) =>
    case ReplayDone =>
    case ReplayStop =>
    case _ => OthersKeepCovered(g, e);
  }

  // ---- Every step, every run ----

  lemma OnlyReplayMoved(g: Agent, replay: Replay)
    requires AllAdded(g)
    ensures AllAdded(g.(replay := replay))
  {
    forall r ensures Accounted(g.(replay := replay), r) <==> Accounted(g, r) {}
  }

  lemma StepAccounts(g: Agent, e: Event)
    requires Inv(g) && Enabled(g, e) && !e.ReplayRead?
    ensures AllAdded(Step(g, e))
  {
    if e.Add? { AddAccounts(g, e.result, e.maxQueue); }
    else if e.Flush? { FlushAccounts(g, e.task); }
    else if e.FlightAnswer? { FlightAnswerAccounts(g, e.task, e.outcome); }
    else if e.FlightWrite? { FlightWriteAccounts(g, e.task, e.now, e.cap); }
    else if e.ReplayAnswer? { ReplayAnswerAccounts(g, e.outcome); }
    else if e.ReplayWrite? { ReplayWriteAccounts(g, e.now, e.cap); }
    else { OnlyReplayMoved(g, Step(g, e).replay); }
  }

  lemma StepKeepsInv(g: Agent, e: Event)
    requires Inv(g) && Enabled(g, e)
    ensures Inv(Step(g, e))
  {
    if e.ReplayRead? {
      ReadCopies(g, e.limit);
    } else {
      StepAccounts(g, e);
      StepIds(g, e);
      ReplayCopies(g, e);
      StepCovers(g, e);
    }
  }

  lemma {:induction false} RunKeepsInv(g: Agent, events: seq<Event>)
    requires Inv(g) && Legal(g, events)
    ensures Inv(Exec(g, events))
    decreases |events|
  {
    if events != [] {
      StepKeepsInv(g, events[0]);
      RunKeepsInv(Step(g, events[0]), events[1..]);
    }
  }

  /** After any run of a reporter that started empty, the results added are exactly those
      still in its hands, dead-lettered, accepted by the server or evicted by a cap. */
  lemma NoResultLost(events: seq<Event>, r: CheckResult)
    requires Legal(INITIAL, events)
    ensures r in Exec(INITIAL, events).added <==> Accounted(Exec(INITIAL, events), r)
  {
    assert Inv(INITIAL);
    RunKeepsInv(INITIAL, events);
  }

  // ---- Only the three caps evict ----

  /** Whether an event meets one of the caps: the queue of results, the pending rows or
      the dead letters. */
  ghost predicate Overflows(g: Agent, e: Event)
    requires Enabled(g, e)
  {
    match e
    case Add(_, maxQueue) => |g.current| >= maxQueue
    case FlightWrite(task, _, cap) =>
      if g.flights[task].Storing? then |g.pending| + 1 > cap else |g.letters| + 1 > cap
    case ReplayWrite(_, cap) => (g.replay.CondemningRowPart? || g.replay.Moving?) && |g.letters| + 1 > cap
    case _ => false
  }

  ghost predicate NeverOverflows(g: Agent, events: seq<Event>)
    requires Legal(g, events)
    decreases |events|
  {
    events == [] || (!Overflows(g, events[0]) && NeverOverflows(Step(g, events[0]), events[1..]))
  }

  lemma StoreEvictsNothing(rows: Pending, id: nat, now: int, checks: seq<CheckResult>, cap: int)
    requires id !in rows && |rows| + 1 <= cap
    ensures Pruned(rows[id := Stored(now, checks)], cap) == {}
  {
    assert rows[id := Stored(now, checks)].Keys == rows.Keys + {id};
  }

  lemma StepEvictsOnlyOnOverflow(g: Agent, e: Event)
    requires Inv(g) && Enabled(g, e) && !Overflows(g, e)
    ensures Step(g, e).evicted == g.evicted
  {
    if e.Add? {
      assert AsSet(g.current) - AsSet(g.current + [e.result]) == {};
    } else if e.FlightWrite? && g.flights[e.task].Storing? {
      assert g.nextId !in g.pending;
      StoreEvictsNothing(g.pending, g.nextId, e.now, g.flights[e.task].unsent, e.cap);
    }
  }

  lemma {:induction false} EvictedOnlyByCaps(g: Agent, events: seq<Event>)
    requires Inv(g) && Legal(g, events) && NeverOverflows(g, events)
    ensures Exec(g, events).evicted == g.evicted
    decreases |events|
  {
    if events != [] {
      StepEvictsOnlyOnOverflow(g, events[0]);
      StepKeepsInv(g, events[0]);
      EvictedOnlyByCaps(Step(g, events[0]), events[1..]);
    }
  }

  /** A run that meets no cap loses nothing at all. */
  lemma NothingEvictedWithoutOverflow(events: seq<Event>, r: CheckResult)
    requires Legal(INITIAL, events) && NeverOverflows(INITIAL, events)
    requires r in Exec(INITIAL, events).added
    ensures var g := Exec(INITIAL, events);
            r in g.current || InFlights(g.flights, r) || InPending(g.pending, r) || InLetters(g.letters, r)
                || r in g.accepted
  {
    assert Inv(INITIAL);
    EvictedOnlyByCaps(INITIAL, events);
    NoResultLost(events, r);
  }

  // ---- The queue bound ----

  /** A limit of 2 or more holds every queue to it, one that was longer before the limit was
      lowered too; a smaller one does not: at 1 the slice that should thin the queue keeps all
      of it. */
  lemma QueueBound(maxQueue: nat, result: CheckResult)
    ensures (forall current: seq<CheckResult> :: |AfterAdd(current, result, maxQueue)| <= maxQueue) <==> maxQueue >= 2
  {
    if maxQueue == 0 {
      assert |AfterAdd([], result, 0)| == 1;
    } else if maxQueue == 1 {
      assert |AfterAdd([result], result, 1)| == 2;
    }
  }

  /** With a limit of 1 the queue only grows. */
  lemma LimitOfOneNeverThins(current: seq<CheckResult>, result: CheckResult)
    ensures AfterAdd(current, result, 1) == current + [result]
  {
  }
}
