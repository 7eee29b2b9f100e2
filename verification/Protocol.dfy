/** The reporter as its tasks interleave: results arriving, any number of flushes, the
    replay of stored rows, and the prunes that can take a row in the middle of its
    replay (reporter.py). A step is what one task does between two awaits. Local
    storage is on and every database write succeeds. */
module Protocol {
  import opened Results
  import opened Splitting
  import opened Store

  /** A delivery in progress, at the await it is suspended in. */
  datatype Flight =
    | Asking(batch: seq<CheckResult>)                        // the POST of the whole batch
    | Condemning(batch: seq<CheckResult>)                    // the dead letter of the whole batch
    | InParts(split: Split)                                  // the POST of the first part of the work
    | CondemningPart(split: Split, part: seq<CheckResult>)   // the dead letter of a part
    | Storing(unsent: seq<CheckResult>)                      // the pending row of what is left

  /** What is left of a replay pass: batches to retry one by one, batches not yet
      grouped, and the ids of everything the pass read. */
  datatype Turn = Turn(singles: seq<StoredBatch>, rest: seq<StoredBatch>, read: set<nat>)

  /** The replay task, at the await it is suspended in. */
  datatype Replay =
    | Idle
    | Looping(turn: Turn)                                                       // between two groups
    | AskingGroup(group: seq<StoredBatch>, turn: Turn)                          // the combined POST
    | Draining(group: seq<StoredBatch>, turn: Turn)                             // deleting what it took
    | SplittingRow(batch: StoredBatch, split: Split, turn: Turn)                // the POST of a part
    | CondemningRowPart(batch: StoredBatch, split: Split, part: seq<CheckResult>, turn: Turn)
    | Rewriting(batch: StoredBatch, unsent: seq<CheckResult>, got: Delivery, turn: Turn)
    | Moving(batch: StoredBatch, turn: Turn)                                    // to the dead letters

  /** The reporter, and what the outside world has seen of its results. */
  datatype Agent = Agent(
    current: seq<CheckResult>,
    flights: map<nat, Flight>,
    replay: Replay,
    held: set<nat>,
    pending: Pending,
    nextId: nat,
    letters: seq<Letter>,
    added: set<CheckResult>,
    accepted: set<CheckResult>,
    evicted: set<CheckResult>)

  const INITIAL := Agent([], map[], Idle, {}, map[], 0, [], {}, {}, {})

  datatype Event =
    | Add(result: CheckResult, maxQueue: int)
    | Flush(task: nat)
    | FlightAnswer(task: nat, outcome: Delivery)
    | FlightWrite(task: nat, now: int, cap: int)
    | ReplayRead(limit: int)
    | ReplayGroup(batchSize: int)
    | ReplayAnswer(outcome: Delivery)
    | ReplayWrite(now: int, cap: int)
    | ReplayDone
    | ReplayStop

  // ---- Adding ----

  /** Python's `s[from:]`. */
  function SliceFrom<T>(s: seq<T>, from: int): seq<T> {
    if from >= |s| then []
    else if from >= 0 then s[from..]
    else if -from >= |s| then s
    else s[|s| + from..]
  }

  /** The queue a new result joins: at the limit, only its newest results stay. */
  function Thinned(current: seq<CheckResult>, maxQueue: int): seq<CheckResult> {
    if |current| >= maxQueue then SliceFrom(current, -(maxQueue - 1)) else current
  }

  function AfterAdd(current: seq<CheckResult>, result: CheckResult, maxQueue: int): seq<CheckResult> {
    Thinned(current, maxQueue) + [result]
  }

  // ---- Grouping ----

  /** How many of the batches the next combined POST takes. */
  function GroupLength(rest: seq<StoredBatch>, batchSize: int): (n: nat)
    requires rest != []
    ensures 1 <= n <= |rest|
  {
    Grown(rest, batchSize, 1, |rest[0].checks|)
  }

  function Grown(rest: seq<StoredBatch>, batchSize: int, n: nat, size: nat): (m: nat)
    requires 1 <= n <= |rest|
    ensures n <= m <= |rest|
    decreases |rest| - n
  {
    if n == |rest| || size + |rest[n].checks| > batchSize then n
    else Grown(rest, batchSize, n + 1, size + |rest[n].checks|)
  }

  function Combined(group: seq<StoredBatch>): seq<CheckResult> {
    if group == [] then [] else group[0].checks + Combined(group[1..])
  }

  // ---- Steps ----

  /** The await a flush's splitting loop goes to next. None: everything is dealt with. */
  function NextOfSplit(split: Split): Option<Flight> {
    if split.work != [] && split.stop.None? then Some(InParts(split))
    else if Unsent(split) == [] then None
    else Some(Storing(Unsent(split)))
  }

  function SetFlight(flights: map<nat, Flight>, task: nat, next: Option<Flight>): map<nat, Flight> {
    if next.None? then flights - {task} else flights[task := next.value]
  }

  /** The replay task after `_send_in_parts` on one row. */
  function AfterSplit(batch: StoredBatch, split: Split, turn: Turn): Replay {
    if split.work != [] && split.stop.None? then SplittingRow(batch, split, turn)
    else Rewriting(batch, Unsent(split), Outcome(split), turn)
  }

  /** The replay task once a row's rewrite is behind it: only a transient failure ends the pass. */
  function AfterRow(got: Delivery, turn: Turn): Replay {
    if got == Transient then Idle else Looping(turn)
  }

  ghost predicate Enabled(g: Agent, e: Event) {
    match e
    case Add(_, _) => true
    case Flush(task) => task !in g.flights && g.current != []
    case FlightAnswer(task, _) => task in g.flights && (g.flights[task].Asking? || g.flights[task].InParts?)
    case FlightWrite(task, _, _) => task in g.flights && !g.flights[task].Asking? && !g.flights[task].InParts?
    case ReplayRead(_) => g.replay.Idle?
    case ReplayGroup(_) => g.replay.Looping? && (g.replay.turn.singles != [] || g.replay.turn.rest != [])
    case ReplayAnswer(_) => g.replay.AskingGroup? || g.replay.SplittingRow?
    case ReplayWrite(_, _) => g.replay.Draining? || g.replay.CondemningRowPart? || g.replay.Rewriting?
        || g.replay.Moving?
    case ReplayDone => g.replay.Looping? && g.replay.turn.singles == [] && g.replay.turn.rest == []
    case ReplayStop => g.replay.Looping?
  }

  ghost function StepAdd(g: Agent, result: CheckResult, maxQueue: int): Agent {
    var current := AfterAdd(g.current, result, maxQueue);
    g.(current := current, added := g.added + {result}, evicted := g.evicted + (AsSet(g.current) - AsSet(current)))
  }

  ghost function StepFlush(g: Agent, task: nat): Agent {
    g.(current := [], flights := g.flights[task := Asking(g.current)])
  }

  ghost function StepFlightAnswer(g: Agent, task: nat, outcome: Delivery): Agent
    requires Enabled(g, FlightAnswer(task, outcome))
  {
    match g.flights[task]
    case Asking(batch) => (
      match outcome
      case Sent => g.(flights := g.flights - {task}, accepted := g.accepted + AsSet(batch))
      case Permanent => g.(flights := g.flights[task := Condemning(batch)])
      case TooLarge =>
        g.(flights := g.flights[task := if |batch| == 1 then Storing(batch) else InParts(Start(batch))])
      case Transient => g.(flights := g.flights[task := Storing(batch)])
    )
    case InParts(split) =>
      if split.work == [] then g
      else
        var next := Answered(split, outcome);
        if outcome == Permanent then g.(flights := g.flights[task := CondemningPart(next, split.work[0])])
        else g.(flights := SetFlight(g.flights, task, NextOfSplit(next)),
                accepted := g.accepted + if outcome == Sent then AsSet(split.work[0]) else {})
    case _ => g
  }

  ghost function WithLetter(g: Agent, letter: Letter, cap: int): Agent {
    g.(letters := AfterLetter(g.letters, letter, cap), evicted := g.evicted + Lost(g.letters, letter, cap))
  }

  ghost function WithRow(g: Agent, now: int, checks: seq<CheckResult>, cap: int): Agent {
    g.(pending := AfterStore(g.pending, g.nextId, now, checks, cap),
       nextId := g.nextId + 1,
       evicted := g.evicted + Pruned(g.pending[g.nextId := Stored(now, checks)], cap))
  }

  ghost function StepFlightWrite(g: Agent, task: nat, now: int, cap: int): Agent
    requires Enabled(g, FlightWrite(task, now, cap))
  {
    match g.flights[task]
    case Condemning(batch) => WithLetter(g, Letter(now, batch), cap).(flights := g.flights - {task})
    case CondemningPart(split, part) =>
      WithLetter(g, Letter(now, part), cap).(flights := SetFlight(g.flights, task, NextOfSplit(split)))
    case Storing(unsent) => WithRow(g, now, unsent, cap).(flights := g.flights - {task})
    case _ => g
  }

  /** The read past the held rows; with nothing else left, the held ones are let go first. */
  ghost function StepReplayRead(g: Agent, limit: int): Agent {
    var first := ReadPending(g.pending, g.held, limit);
    var held := if first == [] then {} else g.held;
    var batches := ReadPending(g.pending, held, limit);
    g.(held := held, replay := Looping(Turn([], batches, set b | b in batches :: b.id)))
  }

  ghost function StepReplayGroup(g: Agent, batchSize: int): Agent
    requires Enabled(g, ReplayGroup(batchSize))
  {
    var turn := g.replay.turn;
    if turn.singles != [] then
      g.(replay := AskingGroup([turn.singles[0]], turn.(singles := turn.singles[1..])))
    else
      var n := GroupLength(turn.rest, batchSize);
      g.(replay := AskingGroup(turn.rest[..n], turn.(rest := turn.rest[n..])))
  }

  ghost function StepReplayAnswer(g: Agent, outcome: Delivery): Agent
    requires Enabled(g, ReplayAnswer(outcome))
  {
    match g.replay
    case AskingGroup(group, turn) => (
      match outcome
      case Sent => g.(replay := Draining(group, turn), accepted := g.accepted + AsSet(Combined(group)))
      case Transient => g.(replay := Idle)
      case TooLarge =>
        if |group| != 1 then g.(replay := Looping(turn.(singles := group + turn.singles)))
        else if |group[0].checks| == 1 then g.(replay := Rewriting(group[0], group[0].checks, TooLarge, turn))
        else g.(replay := SplittingRow(group[0], Start(group[0].checks), turn))
      case Permanent =>
        if |group| != 1 then g.(replay := Looping(turn.(singles := group + turn.singles)))
        else g.(replay := Moving(group[0], turn))
    )
    case SplittingRow(batch, split, turn) =>
      if split.work == [] then g
      else
        var next := Answered(split, outcome);
        if outcome == Permanent then g.(replay := CondemningRowPart(batch, next, split.work[0], turn))
        else g.(replay := AfterSplit(batch, next, turn),
                accepted := g.accepted + if outcome == Sent then AsSet(split.work[0]) else {})
    case _ => g
  }

  /** The row after its split: gone when nothing is left of it, rewritten when what is left
      differs, held when a size refusal is what left it. */
  ghost function SettleRow(g: Agent, batch: StoredBatch, unsent: seq<CheckResult>, got: Delivery, turn: Turn): Agent {
    g.(pending := if unsent == [] then g.pending - {batch.id}
                  else if unsent != batch.checks then AfterRewrite(g.pending, batch.id, unsent)
                  else g.pending,
       held := if got == TooLarge then g.held + {batch.id} else g.held,
       replay := AfterRow(got, turn))
  }

  ghost function StepReplayWrite(g: Agent, now: int, cap: int): Agent
    requires Enabled(g, ReplayWrite(now, cap))
  {
    match g.replay
    case Draining(group, turn) =>
      if group == [] then g.(replay := Looping(turn))
      else g.(pending := g.pending - {group[0].id}, replay := Draining(group[1..], turn))
    case CondemningRowPart(batch, split, part, turn) =>
      WithLetter(g, Letter(batch.created, part), cap).(replay := AfterSplit(batch, split, turn))
    case Rewriting(batch, unsent, got, turn) => SettleRow(g, batch, unsent, got, turn)
    case Moving(batch, turn) =>
      if batch.id !in g.pending then g.(replay := Looping(turn))
      else
        var row := g.pending[batch.id];
        WithLetter(g, Letter(row.created, row.checks), cap).(pending := g.pending - {batch.id}, replay := Looping(turn))
    case _ => g
  }

  ghost function Step(g: Agent, e: Event): Agent
    requires Enabled(g, e)
  {
    match e
    case Add(result, maxQueue) => StepAdd(g, result, maxQueue)
    case Flush(task) => StepFlush(g, task)
    case FlightAnswer(task, outcome) => StepFlightAnswer(g, task, outcome)
    case FlightWrite(task, now, cap) => StepFlightWrite(g, task, now, cap)
    case ReplayRead(limit) => StepReplayRead(g, limit)
    case ReplayGroup(batchSize) => StepReplayGroup(g, batchSize)
    case ReplayAnswer(outcome) => StepReplayAnswer(g, outcome)
    case ReplayWrite(now, cap) => StepReplayWrite(g, now, cap)
    case ReplayDone => g.(replay := Idle)
    case ReplayStop => g.(replay := Idle)
  }

  /** A run: every event is enabled when it happens. */
  ghost predicate Legal(g: Agent, events: seq<Event>)
    decreases |events|
  {
    events == [] || (Enabled(g, events[0]) && Legal(Step(g, events[0]), events[1..]))
  }

  ghost function Exec(g: Agent, events: seq<Event>): Agent
    requires Legal(g, events)
    decreases |events|
  {
    if events == [] then g else Exec(Step(g, events[0]), events[1..])
  }
}
