/** Replay never stops at the head of the queue: however flushes, prunes and failed passes
    interleave with it, a waiting row leaves the queue or is held within as many complete
    passes as the read window needs to reach it (reporter.py). */
module Progress {
  import opened Results
  import opened Splitting
  import opened Store
  import opened Protocol
  import opened Conservation

  // ---- What a pass has read is dealt with when it ends ----

  ghost function HandIds(replay: Replay): set<nat> {
    set b | b in InHand(replay) :: b.id
  }

  function ReadBy(replay: Replay): set<nat> {
    if replay.Idle? then {} else replay.turn.read
  }

  /** Everything the pass read is still in its hands, gone from the table, or held. */
  ghost predicate PassTracks(g: Agent) {
    && (forall id :: id in ReadBy(g.replay) ==> id < g.nextId)
    && (forall id :: id in ReadBy(g.replay) ==> id in HandIds(g.replay) || id !in g.pending || id in g.held)
    && (g.replay.Rewriting? ==> g.replay.unsent == [] || g.replay.got == TooLarge || g.replay.got == Transient)
  }

  lemma HandsWithout(batch: StoredBatch, rest: seq<StoredBatch>, before: seq<StoredBatch>)
    requires before == [batch] + rest
    ensures (set b | b in before :: b.id) == {batch.id} + (set b | b in rest :: b.id)
  {
  }

  lemma FreshReadTracks(g: Agent, held: set<nat>, limit: int)
    requires forall id :: id in g.pending ==> id < g.nextId
    ensures var batches := ReadPending(g.pending, held, limit);
            PassTracks(g.(held := held, replay := Looping(Turn([], batches, set b | b in batches :: b.id))))
  {
    var batches := ReadPending(g.pending, held, limit);
    assert [] + batches == batches;
    forall b | b in batches ensures b.id < g.nextId {
      assert b.id in g.pending;
    }
  }

  lemma ReadTracks(g: Agent, limit: int)
    requires Inv(g) && Enabled(g, ReplayRead(limit))
    ensures PassTracks(StepReplayRead(g, limit))
  {
    assert IdsUsed(g);
    FreshReadTracks(g, StepReplayRead(g, limit).held, limit);
  }

  /** What an answer leaves of a pass. */
  ghost predicate KeepsPass(g: Agent, g': Agent) {
    && g'.pending == g.pending && g'.held == g.held && g'.nextId == g.nextId
    && (g'.replay.Idle? || ReadBy(g'.replay) == ReadBy(g.replay))
    && (g'.replay.Rewriting? ==> g'.replay.unsent == [] || g'.replay.got == TooLarge || g'.replay.got == Transient)
  }

  lemma SplitKeepsPass(g: Agent, batch: StoredBatch, split: Split, turn: Turn)
    requires !g.replay.Idle? && ReadBy(g.replay) == turn.read
    ensures KeepsPass(g, g.(replay := AfterSplit(batch, split, turn)))
  {
  }

  lemma GroupAnswerKeepsPass(g: Agent, outcome: Delivery)
    requires g.replay.AskingGroup?
    ensures KeepsPass(g, StepReplayAnswer(g, outcome))
  {
    var group, turn := g.replay.group, g.replay.turn;
    if outcome == Sent {
      assert StepReplayAnswer(g, outcome).replay == Draining(group, turn);
    } else if outcome == Transient {
      assert StepReplayAnswer(g, outcome).replay == Idle;
    } else if |group| != 1 {
      assert StepReplayAnswer(g, outcome).replay == Looping(turn.(singles := group + turn.singles));
    } else if outcome == Permanent {
      assert StepReplayAnswer(g, outcome).replay == Moving(group[0], turn);
    } else if |group[0].checks| == 1 {
      assert StepReplayAnswer(g, outcome).replay == Rewriting(group[0], group[0].checks, TooLarge, turn);
    } else {
      assert StepReplayAnswer(g, outcome).replay == SplittingRow(group[0], Start(group[0].checks), turn);
    }
  }

  lemma AnswerKeepsPass(g: Agent, outcome: Delivery)
    requires Enabled(g, ReplayAnswer(outcome))
    ensures KeepsPass(g, StepReplayAnswer(g, outcome))
  {
    if g.replay.AskingGroup? {
      GroupAnswerKeepsPass(g, outcome);
    } else if g.replay.split.work != [] {
      SplitKeepsPass(g, g.replay.batch, Answered(g.replay.split, outcome), g.replay.turn);
    }
  }

  lemma AnswerTracks(g: Agent, outcome: Delivery)
    requires PassTracks(g) && Enabled(g, ReplayAnswer(outcome))
    ensures PassTracks(StepReplayAnswer(g, outcome))
  {
    AnswerHands(g, outcome);
    AnswerKeepsPass(g, outcome);
  }

  /** A batch leaves the hands once its row is gone or held. */
  lemma BatchOut(g: Agent, g': Agent, batch: StoredBatch)
    requires PassTracks(g) && InHand(g.replay) == [batch] + InHand(g'.replay)
    requires g'.replay.Looping? || g'.replay.Draining?
    requires !g.replay.Idle? && ReadBy(g'.replay) == ReadBy(g.replay) && g'.nextId == g.nextId
    requires g'.pending.Keys <= g.pending.Keys && g.held <= g'.held && (batch.id !in g'.pending || batch.id in g'.held)
    ensures PassTracks(g')
  {
    HandsWithout(batch, InHand(g'.replay), InHand(g.replay));
  }

  /** The hands stay as they are, and so does the table. */
  lemma SameHands(g: Agent, g': Agent)
    requires PassTracks(g) && InHand(g'.replay) == InHand(g.replay) && ReadBy(g'.replay) == ReadBy(g.replay)
    requires g'.nextId == g.nextId && g'.pending == g.pending && g'.held == g.held
    requires g'.replay.Rewriting? ==> g'.replay.unsent == [] || g'.replay.got == TooLarge || g'.replay.got == Transient
    ensures PassTracks(g')
  {
  }

  lemma SettleTracks(g: Agent, now: int, cap: int)
    requires PassTracks(g) && g.replay.Rewriting?
    ensures PassTracks(StepReplayWrite(g, now, cap))
  {
    var g' := StepReplayWrite(g, now, cap);
    assert g'.pending.Keys <= g.pending.Keys;
    if !g'.replay.Idle? { BatchOut(g, g', g.replay.batch); }
  }

  lemma DrainTracks(g: Agent, now: int, cap: int)
    requires PassTracks(g) && g.replay.Draining?
    ensures PassTracks(StepReplayWrite(g, now, cap))
  {
    var g', group, turn := StepReplayWrite(g, now, cap), g.replay.group, g.replay.turn;
    if group == [] {
      assert g'.replay == Looping(turn);
      SameHands(g, g');
    } else {
      assert g'.replay == Draining(group[1..], turn);
      assert group + turn.singles + turn.rest == [group[0]] + (group[1..] + turn.singles + turn.rest);
      BatchOut(g, g', group[0]);
    }
  }

  lemma MoveTracks(g: Agent, now: int, cap: int)
    requires PassTracks(g) && g.replay.Moving?
    ensures PassTracks(StepReplayWrite(g, now, cap))
  {
    var g' := StepReplayWrite(g, now, cap);
    assert InHand(g.replay) == [g.replay.batch] + InHand(g'.replay);
    BatchOut(g, g', g.replay.batch);
  }

  lemma LetterTracks(g: Agent, now: int, cap: int)
    requires PassTracks(g) && g.replay.CondemningRowPart?
    ensures PassTracks(StepReplayWrite(g, now, cap))
  {
    var g' := StepReplayWrite(g, now, cap);
    assert InHand(g'.replay) == InHand(g.replay);
    SameHands(g, g');
  }

  lemma WriteTracks(g: Agent, now: int, cap: int)
    requires PassTracks(g) && Enabled(g, ReplayWrite(now, cap))
    ensures PassTracks(StepReplayWrite(g, now, cap))
  {
    match g.replay
    case Draining(_, _) => DrainTracks(g, now, cap);
    case CondemningRowPart(_, _, _, _) => LetterTracks(g, now, cap);
    case Rewriting(_, _, _, _) => SettleTracks(g, now, cap);
    case Moving(_, _) => MoveTracks(g, now, cap);
    case _ =>
  }

  lemma GroupTracks(g: Agent, batchSize: int)
    requires PassTracks(g) && Enabled(g, ReplayGroup(batchSize))
    ensures PassTracks(StepReplayGroup(g, batchSize))
  {
    GroupHands(g, batchSize);
    SameHands(g, StepReplayGroup(g, batchSize));
  }

  /** Another task's step: rows leave or come under a new id. */
  lemma OthersTrack(g: Agent, g': Agent)
    requires PassTracks(g) && g'.replay == g.replay && g'.held == g.held && g'.nextId >= g.nextId
    requires RowsOnlyLeave(g.pending, g'.pending, g.nextId)
    ensures PassTracks(g')
  {
  }

  lemma StepTracks(g: Agent, e: Event)
    requires Inv(g) && PassTracks(g) && Enabled(g, e)
    ensures PassTracks(Step(g, e))
  {
    match e
    case ReplayRead(limit) => ReadTracks(g, limit);
    case ReplayAnswer(outcome) => AnswerTracks(g, outcome);
    case ReplayWrite(now, cap) => WriteTracks(g, now, cap);
    case ReplayGroup(batchSize) => GroupTracks(g, batchSize);
    case ReplayDone =>
    case ReplayStop =>
    case _ =>
      RowsKept(g, e);
      OthersTrack(g, Step(g, e));
  }

  /** A pass that ends on its own leaves every row it read deleted, dead-lettered or held. */
  lemma CompletePassDealsWithAll(g: Agent, id: nat)
    requires PassTracks(g) && Enabled(g, ReplayDone) && id in ReadBy(g.replay)
    ensures id !in g.pending || id in g.held
  {
    assert InHand(g.replay) == [];
  }

  // ---- Held rows ----

  lemma NothingUnheld(rows: Pending, held: set<nat>)
    ensures Unheld(rows, held) == map[] <==> rows.Keys <= held
    ensures rows == map[] <==> |rows| == 0
    ensures Unheld(rows, {}) == rows
  {
    if rows.Keys <= held {
      assert Unheld(rows, held).Keys == {};
    } else {
      var id :| id in rows && id !in held;
      assert id in Unheld(rows, held);
    }
  }

  /** With a read window that is not zero, a read returns held rows exactly when the table
      holds no other, and then none is held any more. */
  lemma HeldReadOnlyAlone(g: Agent, limit: int)
    requires g.replay.Idle? && limit != 0
    ensures var g' := StepReplayRead(g, limit);
            && ((exists id :: id in ReadBy(g'.replay) && id in g.held)
                <==> g.pending != map[] && g.pending.Keys <= g.held)
            && g'.held == if g.pending.Keys <= g.held then {} else g.held
  {
    var g' := StepReplayRead(g, limit);
    var free := Unheld(g.pending, g.held);
    var first := ReadPending(g.pending, g.held, limit);
    NothingUnheld(g.pending, g.held);
    NothingUnheld(free, {});
    assert first == [] <==> free == map[];
    var batches := g'.replay.turn.rest;
    if free == map[] && g.pending != map[] {
      assert |batches| > 0;
      assert batches[0] in batches && batches[0].id in ReadBy(g'.replay) && batches[0].id in g.held;
    }
  }

  // ---- How many rows are ahead ----

  ghost predicate Waits(g: Agent, id: nat) {
    id in g.pending && id !in g.held
  }

  /** The waiting rows a read takes no later than this one, itself among them. */
  ghost function Ahead(g: Agent, id: nat): set<nat>
    requires id in g.pending
  {
    set x | x in g.pending && x !in g.held && NotAfter(g.pending, x, id)
  }

  /** The clock never runs back behind the time the row was stored at. */
  ghost predicate ClockPast(e: Event, created: int) {
    e.FlightWrite? ==> e.now >= created
  }

  /** Nothing but a read puts a row ahead of a waiting one. */
  lemma NoneGetsAhead(g: Agent, e: Event, id: nat)
    requires Inv(g) && Enabled(g, e) && !e.ReplayRead?
    requires Waits(g, id) && Waits(Step(g, e), id) && ClockPast(e, g.pending[id].created)
    ensures Ahead(Step(g, e), id) <= Ahead(g, id)
    ensures Step(g, e).pending[id].created == g.pending[id].created
  {
    assert id != g.nextId;
    if !(e.ReplayWrite? && g.replay.Rewriting?) { RowsKept(g, e); }
  }

  /** How far the row still is from being read, during a pass and between passes. */
  ghost predicate Near(g: Agent, id: nat, window: nat, bound: int)
    requires id in g.pending
  {
    && |Ahead(g, id)| <= bound
    && (!g.replay.Idle? && id !in ReadBy(g.replay) ==> |Ahead(g, id) - ReadBy(g.replay)| <= bound - window)
  }

  ghost predicate ReadsAtLeast(e: Event, window: nat) {
    e.ReplayRead? ==> e.limit < 0 || e.limit >= window
  }

  lemma ReadIds(g: Agent, limit: int)
    requires g.replay.Idle? && ReadPending(g.pending, g.held, limit) != []
    ensures var free := Unheld(g.pending, g.held);
            ReadBy(StepReplayRead(g, limit).replay) == AsSet(OldestIds(free, Window(free, limit)))
  {
    var free := Unheld(g.pending, g.held);
    var ids := OldestIds(free, Window(free, limit));
    var batches := ReadPending(g.pending, g.held, limit);
    forall i | 0 <= i < |ids| ensures ids[i] in (set b | b in batches :: b.id) {
      assert batches[i] in batches && batches[i].id == ids[i];
    }
  }

  /** A read that leaves the row out returned a whole window of rows ahead of it. */
  lemma WindowAhead(g: Agent, limit: int, id: nat)
    requires Waits(g, id)
    ensures var free := Unheld(g.pending, g.held);
            var ids := OldestIds(free, Window(free, limit));
            id !in ids ==> limit >= 0 && |AsSet(ids)| == limit && AsSet(ids) <= Ahead(g, id)
  {
    var free := Unheld(g.pending, g.held);
    var ids := OldestIds(free, Window(free, limit));
    SeqSetSize(ids);
    if id !in ids {
      assert id in free && AsSet(ids) <= free.Keys - {id};
      SubsetSize(AsSet(ids), free.Keys - {id});
      forall x | x in AsSet(ids) ensures x in Ahead(g, id) {
        OldestFirst(free, Window(free, limit), x, id);
      }
    }
  }

  lemma ReadNears(g: Agent, limit: int, id: nat, window: nat, bound: int)
    requires Inv(g) && g.replay.Idle? && window >= 1 && (limit < 0 || limit >= window)
    requires Waits(g, id) && Near(g, id, window, bound)
    ensures Near(StepReplayRead(g, limit), id, window, bound)
  {
    var g' := StepReplayRead(g, limit);
    assert g'.held == g.held && ReadPending(g.pending, g.held, limit) != [] by {
      var free := Unheld(g.pending, g.held);
      assert id in free;
      NothingUnheld(free, {});
    }
    assert Ahead(g', id) == Ahead(g, id);
    ReadIds(g, limit);
    WindowAhead(g, limit, id);
    var read := ReadBy(g'.replay);
    if id !in read {
      assert Ahead(g, id) == read + (Ahead(g, id) - read);
    }
  }

  lemma ReadStays(g: Agent, e: Event)
    requires Enabled(g, e) && !e.ReplayRead? && !Step(g, e).replay.Idle?
    ensures ReadBy(Step(g, e).replay) == ReadBy(g.replay) && !g.replay.Idle?
  {
  }

  lemma PassNears(g: Agent, g': Agent, id: nat, window: nat, bound: int)
    requires Waits(g, id) && Waits(g', id) && Near(g, id, window, bound)
    requires Ahead(g', id) <= Ahead(g, id) && g'.replay.Idle? && !g.replay.Idle?
    requires forall x :: x in ReadBy(g.replay) ==> x !in g'.pending || x in g'.held
    ensures Near(g', id, window, bound - window)
  {
    assert id in Ahead(g', id) && id !in ReadBy(g.replay);
    SubsetSize(Ahead(g', id), Ahead(g, id) - ReadBy(g.replay));
  }

  lemma OtherNears(g: Agent, g': Agent, id: nat, window: nat, bound: int)
    requires Waits(g, id) && Waits(g', id) && Near(g, id, window, bound)
    requires Ahead(g', id) <= Ahead(g, id)
    requires !g'.replay.Idle? ==> ReadBy(g'.replay) == ReadBy(g.replay) && !g.replay.Idle?
    ensures Near(g', id, window, bound)
  {
    SubsetSize(Ahead(g', id), Ahead(g, id));
    if !g'.replay.Idle? {
      SubsetSize(Ahead(g', id) - ReadBy(g.replay), Ahead(g, id) - ReadBy(g.replay));
    }
  }

  lemma DoneNears(g: Agent, id: nat, window: nat, bound: int)
    requires PassTracks(g) && Enabled(g, ReplayDone) && Waits(g, id) && Near(g, id, window, bound)
    ensures Near(Step(g, ReplayDone), id, window, bound - window)
  {
    var g' := Step(g, ReplayDone);
    forall x | x in ReadBy(g.replay) ensures x !in g'.pending || x in g'.held {
      CompletePassDealsWithAll(g, x);
    }
    assert Ahead(g', id) == Ahead(g, id);
    PassNears(g, g', id, window, bound);
  }

  /** A complete pass brings the row nearer by its window, and no other step takes it further. */
  lemma StepNears(g: Agent, e: Event, id: nat, window: nat, bound: int)
    requires Inv(g) && PassTracks(g) && Enabled(g, e)
    requires Waits(g, id) && Waits(Step(g, e), id) && Near(g, id, window, bound)
    requires window >= 1 && ReadsAtLeast(e, window) && ClockPast(e, g.pending[id].created)
    ensures Near(Step(g, e), id, window, bound - if e.ReplayDone? then window else 0)
    ensures Step(g, e).pending[id].created == g.pending[id].created
  {
    if e.ReplayRead? {
      ReadNears(g, e.limit, id, window, bound);
    } else if e.ReplayDone? {
      DoneNears(g, id, window, bound);
    } else {
      NoneGetsAhead(g, e, id);
      if !Step(g, e).replay.Idle? { ReadStays(g, e); }
      OtherNears(g, Step(g, e), id, window, bound);
    }
  }

  function CompletePasses(events: seq<Event>): nat {
    if events == [] then 0 else (if events[0].ReplayDone? then 1 else 0) + CompletePasses(events[1..])
  }

  /** The row waits, unheld, in every state of the run. */
  ghost predicate WaitsThrough(g: Agent, events: seq<Event>, id: nat)
    requires Legal(g, events)
    decreases |events|
  {
    Waits(g, id) && (events == [] || WaitsThrough(Step(g, events[0]), events[1..], id))
  }

  /** What the run's induction carries from state to state. */
  ghost predicate OnTheWay(g: Agent, id: nat, window: nat, bound: int, created: int) {
    Inv(g) && PassTracks(g) && Waits(g, id) && Near(g, id, window, bound) && g.pending[id].created == created
  }

  lemma StepOnTheWay(g: Agent, e: Event, id: nat, window: nat, bound: int, created: int)
    requires OnTheWay(g, id, window, bound, created) && Enabled(g, e) && Waits(Step(g, e), id)
    requires window >= 1 && ReadsAtLeast(e, window) && ClockPast(e, created)
    ensures OnTheWay(Step(g, e), id, window, bound - if e.ReplayDone? then window else 0, created)
  {
    StepNears(g, e, id, window, bound);
    StepKeepsInv(g, e);
    StepTracks(g, e);
  }

  /** The rows the complete passes of a run had room for. */
  function RowsPassed(events: seq<Event>, window: nat): nat {
    if events == [] then 0 else (if events[0].ReplayDone? then window else 0) + RowsPassed(events[1..], window)
  }

  lemma {:induction false} RowsPassedIsProduct(events: seq<Event>, window: nat)
    ensures RowsPassed(events, window) == window * CompletePasses(events)
  {
    if events != [] {
      RowsPassedIsProduct(events[1..], window);
    }
  }

  lemma {:induction false} NearsThrough(g: Agent, events: seq<Event>, id: nat, window: nat, bound: int, created: int)
    requires OnTheWay(g, id, window, bound, created) && Legal(g, events) && WaitsThrough(g, events, id)
    requires window >= 1
    requires forall e :: e in events ==> ReadsAtLeast(e, window) && ClockPast(e, created)
    ensures RowsPassed(events, window) < bound
    decreases |events|
  {
    if events == [] {
      assert id in Ahead(g, id);
    } else {
      var g', later := Step(g, events[0]), events[1..];
      StepOnTheWay(g, events[0], id, window, bound, created);
      var bound' := bound - if events[0].ReplayDone? then window else 0;
      NearsThrough(g', later, id, window, bound', created);
    }
  }

  /** A row with n rows up to and including it waits through fewer than n / window complete
      passes: by then it was delivered, dead-lettered, pruned or held. */
  lemma NoRowWaitsLong(g: Agent, events: seq<Event>, id: nat, window: nat)
    requires Inv(g) && g.replay.Idle? && Legal(g, events) && WaitsThrough(g, events, id)
    requires window >= 1
    requires forall e :: e in events ==> ReadsAtLeast(e, window) && ClockPast(e, g.pending[id].created)
    ensures window * CompletePasses(events) < |Ahead(g, id)|
  {
    NearsThrough(g, events, id, window, |Ahead(g, id)|, g.pending[id].created);
    RowsPassedIsProduct(events, window);
  }
}
