/** The agent's job queue: which job runs next, and what its counters report
    (job_processor.py). */
module JobQueue {
  import opened Results

  datatype Job = Job(id: string, priority: int)

  /** A queued job: its negated priority, and the number it was put in with. */
  datatype Entry = Entry(rank: int, number: nat, job: Job)

  predicate Before(a: Entry, b: Entry) {
    a.rank < b.rank || (a.rank == b.rank && a.number < b.number)
  }

  /** How a job taken ends. */
  datatype Ended = UnknownType | NoHandler | RanWith(completed: bool) | TimedOut | Raised

  /** Where the job taken is: running, or come to an end and still to be posted, already counted,
      or still to be counted, already posted. */
  datatype Phase = Executing | ToPost(completed: bool) | ToCount

  /** One result posted for a job. */
  datatype Posted = Posted(id: string, completed: bool)

  datatype Stats = Stats(completedSince: nat, failedSince: nat, totalCompleted: nat, totalFailed: nat)

  /** What a heartbeat says. */
  datatype Reported = Reported(pending: nat, running: nat, completed: nat, failed: nat)

  /** The processor, with its history: the reports built, and the places of those the server
      never got; every job put in, by number; the numbers taken, in order; and how many were in
      when each was taken. */
  datatype Processor = Processor(
    queue: seq<Entry>,
    running: Option<Job>,
    phase: Phase,
    next: nat,
    stats: Stats,
    posted: seq<Posted>,
    reports: seq<Reported>,
    lost: set<nat>,
    arrived: seq<Job>,
    taken: seq<nat>,
    arrivedBy: seq<nat>)

  const EMPTY := Processor([], None, Executing, 0, Stats(0, 0, 0, 0), [], [], {}, [], [], [])

  /** The place of the entry a priority queue hands out. */
  function FirstAt(queue: seq<Entry>): (at: nat)
    requires queue != []
    ensures at < |queue|
    ensures forall i :: 0 <= i < |queue| ==> !Before(queue[i], queue[at])
  {
    if |queue| == 1 then 0
    else
      var at := FirstAt(queue[..|queue| - 1]);
      if Before(queue[|queue| - 1], queue[at]) then |queue| - 1 else at
  }

  function Put(p: Processor, job: Job): Processor {
    p.(queue := p.queue + [Entry(-job.priority, p.next, job)], next := p.next + 1, arrived := p.arrived + [job])
  }

  function Enqueued(p: Processor, jobs: seq<Job>): Processor {
    if jobs == [] then p else Put(Enqueued(p, jobs[..|jobs| - 1]), jobs[|jobs| - 1])
  }

  function Counted(s: Stats, completed: bool): Stats {
    if completed then s.(completedSince := s.completedSince + 1, totalCompleted := s.totalCompleted + 1)
    else s.(failedSince := s.failedSince + 1, totalFailed := s.totalFailed + 1)
  }

  /** The worker takes the next job. */
  function Take(p: Processor): Processor
    requires p.queue != []
  {
    var at := FirstAt(p.queue);
    p.(queue := p.queue[..at] + p.queue[at + 1..], running := Some(p.queue[at].job), phase := Executing,
       taken := p.taken + [p.queue[at].number], arrivedBy := p.arrivedBy + [|p.arrived|])
  }

  /** The job taken comes to its end: one that ran is counted before its result is posted, one
      that could not is posted as failed before it is counted. */
  function Finish(p: Processor, ended: Ended): Processor
    requires p.running.Some?
  {
    match ended
    case RanWith(completed) => p.(stats := Counted(p.stats, completed), phase := ToPost(completed))
    case _ => p.(posted := p.posted + [Posted(p.running.value.id, false)], phase := ToCount)
  }

  /** What was left to do for it is done. */
  function Settle(p: Processor): Processor
    requires p.running.Some?
  {
    match p.phase
    case Executing => p
    case ToPost(completed) =>
      p.(posted := p.posted + [Posted(p.running.value.id, completed)], running := None, phase := Executing)
    case ToCount => p.(stats := Counted(p.stats, false), running := None, phase := Executing)
  }

  function Report(p: Processor): Reported {
    Reported(|p.queue|, if p.running.Some? then 1 else 0, p.stats.completedSince, p.stats.failedSince)
  }

  /** A heartbeat is built: its counts start again before it is sent. */
  function HeartbeatSent(p: Processor): Processor {
    p.(reports := p.reports + [Report(p)], stats := p.stats.(completedSince := 0, failedSince := 0))
  }

  // ---- Runs ----

  /** What can happen, in any order: jobs arrive, the idle worker takes the next one, the job
      it has ends, its result is posted or counted, a heartbeat reports, one never arrives. */
  datatype Event = Arrive(jobs: seq<Job>) | Start | End(ended: Ended) | Settled | Beat | BeatLost(n: nat)

  function Step(p: Processor, e: Event): Processor {
    match e
    case Arrive(jobs) => Enqueued(p, jobs)
    case Start => if p.queue == [] || p.running.Some? then p else Take(p)
    case End(ended) => if p.running.None? || !p.phase.Executing? then p else Finish(p, ended)
    case Settled => if p.running.None? then p else Settle(p)
    case Beat => HeartbeatSent(p)
    case BeatLost(n) => if n < |p.reports| then p.(lost := p.lost + {n}) else p
  }

  function Exec(p: Processor, run: seq<Event>): Processor {
    if run == [] then p else Step(Exec(p, run[..|run| - 1]), run[|run| - 1])
  }

  /** The better of two jobs by number: the higher priority, the earlier among equals. */
  predicate Better(arrived: seq<Job>, a: nat, b: nat)
    requires a < |arrived| && b < |arrived|
  {
    arrived[a].priority > arrived[b].priority || (arrived[a].priority == arrived[b].priority && a < b)
  }

  /** A job is queued under its number, or has been taken, never both or twice. */
  ghost predicate Numbered(p: Processor) {
    && p.next == |p.arrived|
    && (forall i :: 0 <= i < |p.queue| ==>
          var e := p.queue[i]; e.number < |p.arrived| && e.job == p.arrived[e.number] && e.rank == -e.job.priority)
    && (forall k :: 0 <= k < |p.taken| ==> p.taken[k] < |p.arrived|)
    && (forall i, j :: 0 <= i < j < |p.queue| ==> p.queue[i].number != p.queue[j].number)
    && (forall i, k :: 0 <= i < |p.queue| && 0 <= k < |p.taken| ==> p.queue[i].number != p.taken[k])
  }

  ghost predicate NoneLost(p: Processor) {
    forall n :: 0 <= n < |p.arrived| ==> n in p.taken || exists i :: 0 <= i < |p.queue| && p.queue[i].number == n
  }

  ghost predicate Queued(p: Processor) {
    Numbered(p) && NoneLost(p)
  }

  /** Each job taken was the best of those in and not taken before. */
  ghost predicate TakenInOrder(p: Processor) {
    && |p.taken| == |p.arrivedBy|
    && (forall k :: 0 <= k < |p.taken| ==> p.taken[k] < p.arrivedBy[k] <= |p.arrived|)
    && (forall j, k :: 0 <= j < k < |p.taken| ==> p.taken[j] != p.taken[k])
    && (forall k, n :: 0 <= k < |p.taken| && 0 <= n < p.arrivedBy[k] && n !in p.taken[..k] && n != p.taken[k] ==>
          Better(p.arrived, p.taken[k], n))
  }

  function Sum(reports: seq<Reported>, completed: bool): nat {
    if reports == [] then 0
    else Sum(reports[..|reports| - 1], completed) + if completed then reports[|reports| - 1].completed
        else reports[|reports| - 1].failed
  }

  function Count(posted: seq<Posted>, completed: bool): nat {
    if posted == [] then 0
    else Count(posted[..|posted| - 1], completed) + if posted[|posted| - 1].completed == completed then 1 else 0
  }

  /** One result is posted for each job taken, each counts once, and what was put into reports
      and is still to be put there adds up to the totals. The job being dealt with is not posted yet or
      not counted yet. */
  ghost predicate CountsAgree(p: Processor) {
    && (p.running.None? ==> p.phase == Executing)
    && |p.taken| == |p.posted| + (if p.running.Some? && !p.phase.ToCount? then 1 else 0)
    && (forall k :: 0 <= k < |p.taken| ==> p.taken[k] < |p.arrived|)
    && (forall k :: 0 <= k < |p.posted| ==> p.posted[k].id == p.arrived[p.taken[k]].id)
    && (p.running.Some? ==> p.taken != [] && p.running.value == p.arrived[p.taken[|p.taken| - 1]])
    && p.stats.totalCompleted == Sum(p.reports, true) + p.stats.completedSince
    && p.stats.totalFailed == Sum(p.reports, false) + p.stats.failedSince
    && p.stats.totalCompleted == Count(p.posted, true) + (if p.phase == ToPost(true) then 1 else 0)
    && p.stats.totalFailed + (if p.phase.ToCount? then 1 else 0)
       == Count(p.posted, false) + if p.phase == ToPost(false) then 1 else 0
  }

  ghost predicate Inv(p: Processor) {
    Queued(p) && TakenInOrder(p) && CountsAgree(p)
  }

  lemma PutKeepsNumbered(p: Processor, job: Job)
    requires Numbered(p)
    ensures Numbered(Put(p, job))
  {
  }

  lemma PutKeepsAll(p: Processor, job: Job)
    requires NoneLost(p) && p.next == |p.arrived|
    ensures NoneLost(Put(p, job))
  {
    var after := Put(p, job);
    forall n | 0 <= n < |after.arrived| ensures n in after.taken
        || exists i :: 0 <= i < |after.queue| && after.queue[i].number == n {
      if n == |p.arrived| {
        assert after.queue[|p.queue|].number == n;
      } else if n !in p.taken {
        var i :| 0 <= i < |p.queue| && p.queue[i].number == n;
        assert after.queue[i].number == n;
      }
    }
  }

  lemma PutKeepsOrder(p: Processor, job: Job)
    requires TakenInOrder(p)
    ensures TakenInOrder(Put(p, job))
  {
  }

  lemma PutKeepsCounts(p: Processor, job: Job)
    requires CountsAgree(p)
    ensures CountsAgree(Put(p, job))
  {
  }

  lemma {:induction false} EnqueueKeeps(p: Processor, jobs: seq<Job>)
    requires Inv(p)
    ensures Inv(Enqueued(p, jobs))
  {
    if jobs != [] {
      var before, job := Enqueued(p, jobs[..|jobs| - 1]), jobs[|jobs| - 1];
      EnqueueKeeps(p, jobs[..|jobs| - 1]);
      PutKeepsNumbered(before, job);
      PutKeepsAll(before, job);
      PutKeepsOrder(before, job);
      PutKeepsCounts(before, job);
    }
  }

  lemma TakeKeepsNumbered(p: Processor)
    requires p.queue != [] && Numbered(p)
    ensures Numbered(Take(p))
  {
    var at, after := FirstAt(p.queue), Take(p);
    forall i | 0 <= i < |after.queue| ensures after.queue[i] == p.queue[if i < at then i else i + 1] {}
  }

  lemma TakeKeepsAll(p: Processor)
    requires p.queue != [] && NoneLost(p)
    ensures NoneLost(Take(p))
  {
    var at, after := FirstAt(p.queue), Take(p);
    forall n | 0 <= n < |after.arrived| ensures n in after.taken
        || exists i :: 0 <= i < |after.queue| && after.queue[i].number == n {
      if n == p.queue[at].number {
        assert after.taken[|p.taken|] == n;
      } else if n in p.taken {
        var k :| 0 <= k < |p.taken| && p.taken[k] == n;
        assert after.taken[k] == n;
      } else {
        var i :| 0 <= i < |p.queue| && p.queue[i].number == n;
        assert after.queue[if i < at then i else i - 1].number == n;
      }
    }
  }

  lemma TakenIsBest(p: Processor, n: nat)
    requires p.queue != [] && Queued(p)
    requires n < |p.arrived| && n !in p.taken && n != p.queue[FirstAt(p.queue)].number
    ensures Better(p.arrived, p.queue[FirstAt(p.queue)].number, n)
  {
    var i :| 0 <= i < |p.queue| && p.queue[i].number == n;
    assert !Before(p.queue[i], p.queue[FirstAt(p.queue)]);
  }

  lemma TakeKeepsOrder(p: Processor)
    requires p.queue != [] && Queued(p) && TakenInOrder(p)
    ensures TakenInOrder(Take(p))
  {
    var after := Take(p);
    forall k, n | 0 <= k < |after.taken| && 0 <= n < after.arrivedBy[k] && n !in after.taken[..k] && n != after.taken[k]
      ensures Better(after.arrived, after.taken[k], n)
    {
      if k < |p.taken| {
        assert after.taken[..k] == p.taken[..k];
      } else {
        assert after.taken[..k] == p.taken;
        TakenIsBest(p, n);
      }
    }
  }

  lemma TakeKeepsCounts(p: Processor)
    requires p.queue != [] && p.running.None? && Queued(p) && CountsAgree(p)
    ensures CountsAgree(Take(p))
  {
  }

  lemma OnePostMore(posted: seq<Posted>, more: Posted, completed: bool)
    ensures Count(posted + [more], completed) == Count(posted, completed) + if more.completed == completed then 1 else 0
  {
    assert (posted + [more])[..|posted|] == posted;
  }

  lemma FinishKeepsCounts(p: Processor, ended: Ended)
    requires p.running.Some? && p.phase.Executing? && CountsAgree(p)
    ensures CountsAgree(Finish(p, ended))
  {
    var failed := Posted(p.running.value.id, false);
    OnePostMore(p.posted, failed, true);
    OnePostMore(p.posted, failed, false);
  }

  lemma SettleKeepsCounts(p: Processor)
    requires p.running.Some? && CountsAgree(p)
    ensures CountsAgree(Settle(p))
  {
    if p.phase.ToPost? {
      var done := Posted(p.running.value.id, p.phase.completed);
      OnePostMore(p.posted, done, true);
      OnePostMore(p.posted, done, false);
    }
  }

  lemma BeatKeepsCounts(p: Processor)
    requires CountsAgree(p)
    ensures CountsAgree(HeartbeatSent(p))
  {
    var after := HeartbeatSent(p);
    assert after.reports[..|after.reports| - 1] == p.reports;
  }

  /** What changes neither the queue nor its history. */
  lemma SameQueue(p: Processor, p': Processor)
    requires Queued(p) && TakenInOrder(p) && p'.queue == p.queue && p'.next == p.next
    requires p'.arrived == p.arrived && p'.taken == p.taken && p'.arrivedBy == p.arrivedBy
    ensures Queued(p') && TakenInOrder(p')
  {
  }

  lemma TakeKeeps(p: Processor)
    requires Inv(p) && p.queue != [] && p.running.None?
    ensures Inv(Take(p))
  {
    TakeKeepsNumbered(p);
    TakeKeepsAll(p);
    TakeKeepsOrder(p);
    TakeKeepsCounts(p);
  }

  lemma FinishKeeps(p: Processor, ended: Ended)
    requires Inv(p) && p.running.Some? && p.phase.Executing?
    ensures Inv(Finish(p, ended))
  {
    SameQueue(p, Finish(p, ended));
    FinishKeepsCounts(p, ended);
  }

  lemma SettleKeeps(p: Processor)
    requires Inv(p) && p.running.Some?
    ensures Inv(Settle(p))
  {
    SameQueue(p, Settle(p));
    SettleKeepsCounts(p);
  }

  lemma BeatKeeps(p: Processor)
    requires Inv(p)
    ensures Inv(HeartbeatSent(p))
  {
    SameQueue(p, HeartbeatSent(p));
    BeatKeepsCounts(p);
  }

  lemma StepKeeps(p: Processor, e: Event)
    requires Inv(p)
    ensures Inv(Step(p, e))
  {
    match e
    case Arrive(jobs) => EnqueueKeeps(p, jobs);
    case Start => if p.queue != [] && p.running.None? { TakeKeeps(p); }
    case End(ended) => if p.running.Some? && p.phase.Executing? { FinishKeeps(p, ended); }
    case Settled => if p.running.Some? { SettleKeeps(p); }
    case Beat => BeatKeeps(p);
    case BeatLost(n) => SameQueue(p, Step(p, e));
  }

  lemma NoneQueued(p: Processor)
    requires p.queue == [] && p.arrived == [] && p.taken == [] && p.arrivedBy == [] && p.next == 0
    ensures Queued(p) && TakenInOrder(p)
  {
  }

  lemma NoneCounted(p: Processor)
    requires p.taken == [] && p.posted == [] && p.reports == [] && p.running.None? && p.phase.Executing?
    requires p.stats == Stats(0, 0, 0, 0)
    ensures CountsAgree(p)
  {
  }

  lemma EmptyInv()
    ensures Inv(EMPTY)
  {
    NoneQueued(EMPTY);
    NoneCounted(EMPTY);
  }

  /** Over every run of arrivals, jobs and heartbeats: no job is lost or taken twice, each one
      taken was the best then waiting, each one dealt with posted one result and counts once,
      and the counts put into reports plus the current ones are the totals. */
  lemma {:induction false} EveryRun(run: seq<Event>)
    ensures Inv(Exec(EMPTY, run))
  {
    if run == [] {
      EmptyInv();
    } else {
      EveryRun(run[..|run| - 1]);
      StepKeeps(Exec(EMPTY, run[..|run| - 1]), run[|run| - 1]);
    }
  }

  // ---- What reaches the server ----

  /** What one report says of either count. */
  function CountIn(report: Reported, completed: bool): nat {
    if completed then report.completed else report.failed
  }

  /** What the reports in these places, or in all the others, say together. */
  function SumOver(reports: seq<Reported>, places: set<nat>, within: bool, completed: bool): nat {
    if reports == [] then 0
    else
      var last := |reports| - 1;
      SumOver(reports[..last], places, within, completed)
          + if (last in places) == within then CountIn(reports[last], completed) else 0
  }

  /** What the server was told. */
  function Received(p: Processor, completed: bool): nat {
    SumOver(p.reports, p.lost, false, completed)
  }

  lemma {:induction false} SumSplits(reports: seq<Reported>, places: set<nat>, completed: bool)
    ensures SumOver(reports, places, true, completed) + SumOver(reports, places, false, completed)
         == Sum(reports, completed)
  {
    if reports != [] { SumSplits(reports[..|reports| - 1], places, completed); }
  }

  lemma {:induction false} SumIsNone(reports: seq<Reported>, places: set<nat>, completed: bool)
    ensures SumOver(reports, places, true, completed) == 0
       <==> forall n: nat :: n < |reports| && n in places ==> CountIn(reports[n], completed) == 0
  {
    if reports != [] {
      var last := |reports| - 1;
      SumIsNone(reports[..last], places, completed);
      assert forall n: nat :: n < last ==> reports[..last][n] == reports[n];
    }
  }

  /** A count is reset before its report is sent, so one that is lost is never told again: what the
      server was told and the current counts are the totals exactly when every lost report said
      nothing had ended. */
  lemma ToldAddsUp(run: seq<Event>)
    ensures var p := Exec(EMPTY, run);
            (&& Received(p, true) + p.stats.completedSince == p.stats.totalCompleted
             && Received(p, false) + p.stats.failedSince == p.stats.totalFailed)
            <==> (forall n: nat :: n < |p.reports| && n in p.lost ==>
                    p.reports[n].completed == 0 && p.reports[n].failed == 0)
  {
    var p := Exec(EMPTY, run);
    EveryRun(run);
    SumSplits(p.reports, p.lost, true);
    SumSplits(p.reports, p.lost, false);
    SumIsNone(p.reports, p.lost, true);
    SumIsNone(p.reports, p.lost, false);
    forall n: nat | n < |p.reports|
      ensures CountIn(p.reports[n], true) == p.reports[n].completed
      ensures CountIn(p.reports[n], false) == p.reports[n].failed {}
  }

  lemma ExecMore(run: seq<Event>, e: Event)
    ensures Exec(EMPTY, run + [e]) == Step(Exec(EMPTY, run), e)
  {
    assert (run + [e])[..|run|] == run;
  }

  /** The first heartbeat is lost. */
  lemma FirstBeatLost(p: Processor)
    requires p.reports == [] && p.lost == {}
    ensures var p' := Step(Step(p, Beat), BeatLost(0));
            && p'.stats == p.stats.(completedSince := 0, failedSince := 0)
            && Received(p', true) == 0 && p'.lost == {0}
  {
    var p' := Step(Step(p, Beat), BeatLost(0));
    assert p'.reports == [Report(p)] && p'.lost == {0};
    assert p'.reports[..0] == [];
    assert SumOver(p'.reports[..0], {0}, false, true) == 0;
  }

  /** The only job is taken and completes. */
  lemma OneJobCompletes(p: Processor)
    requires |p.queue| == 1 && p.running.None?
    ensures var p' := Step(Step(Step(p, Start), End(RanWith(true))), Settled);
            p'.stats == Counted(p.stats, true) && p'.reports == p.reports && p'.lost == p.lost
  {
    var started := Step(p, Start);
    assert started == Take(p);
    var ended := Step(started, End(RanWith(true)));
    assert ended == Finish(started, RanWith(true));
  }

  /** One job comes and completes, and the heartbeat that says so is lost: the server is never
      told. */
  lemma LostCountIsNeverTold() returns (run: seq<Event>)
    ensures var p := Exec(EMPTY, run);
            && p.stats.totalCompleted == 1 && p.stats.completedSince == 0
            && Received(p, true) == 0 && p.lost == {0}
  {
    var job := Job("a", 0);
    var arrive := [Arrive([job])];
    var worked := arrive + [Start] + [End(RanWith(true))] + [Settled];
    ExecMore([], Arrive([job]));
    assert [] + [Arrive([job])] == arrive;
    assert [job][..0] == [];
    assert Enqueued(EMPTY, [job]) == Put(Enqueued(EMPTY, []), job);
    assert Exec(EMPTY, arrive) == Put(EMPTY, job);
    ExecMore(arrive, Start);
    ExecMore(arrive + [Start], End(RanWith(true)));
    ExecMore(arrive + [Start] + [End(RanWith(true))], Settled);
    OneJobCompletes(Exec(EMPTY, arrive));
    ExecMore(worked, Beat);
    ExecMore(worked + [Beat], BeatLost(0));
    FirstBeatLost(Exec(EMPTY, worked));
    run := worked + [Beat] + [BeatLost(0)];
  }

  /** Jobs of one priority are taken in the order they arrived: when a later one has been
      taken, the earlier one was taken before it. */
  lemma EqualsInArrivalOrder(run: seq<Event>, early: nat, late: nat, k: nat)
    requires var p := Exec(EMPTY, run);
             k < |p.taken| && p.taken[k] == late && early < late < |p.arrived|
                 && p.arrived[early].priority == p.arrived[late].priority
    ensures early in Exec(EMPTY, run).taken[..k]
  {
    EveryRun(run);
  }

  // ---- The processor ----

  class JobProcessor {
    var queue: seq<Entry>
    var sequence: nat
    var active: Option<Job>
    var stats: Stats
    var posted: seq<Posted>
    ghost var reports: seq<Reported>
    ghost var lost: set<nat>
    ghost var arrived: seq<Job>
    ghost var taken: seq<nat>
    ghost var arrivedBy: seq<nat>

    ghost function View(): Processor
      reads this
    {
      Processor(queue, active, Executing, sequence, stats, posted, reports, lost, arrived, taken, arrivedBy)
    }

    constructor ()
      ensures View() == EMPTY
    {
      queue, sequence, active, stats, posted := [], 0, None, Stats(0, 0, 0, 0), [];
      reports, lost, arrived, taken, arrivedBy := [], {}, [], [], [];
    }

    method EnqueueJobs(jobs: seq<Job>)
      modifies this
      ensures View() == Enqueued(old(View()), jobs)
    {
      for i := 0 to |jobs|
        invariant View() == Enqueued(old(View()), jobs[..i])
      {
        assert jobs[..i + 1][..i] == jobs[..i];
        queue := queue + [Entry(-jobs[i].priority, sequence, jobs[i])];
        sequence := sequence + 1;
        arrived := arrived + [jobs[i]];
      }
      assert jobs[..|jobs|] == jobs;
    }

    method Count(completed: bool)
      modifies this`stats
      ensures stats == Counted(old(stats), completed)
    {
      if completed {
        stats := stats.(completedSince := stats.completedSince + 1);
        stats := stats.(totalCompleted := stats.totalCompleted + 1);
      } else {
        stats := stats.(failedSince := stats.failedSince + 1);
        stats := stats.(totalFailed := stats.totalFailed + 1);
      }
    }

    /** The worker's turn: the job the queue hands out becomes the active one. */
    method TakeNext()
      requires queue != []
      modifies this
      ensures View() == Take(old(View()))
    {
      var at := FirstAt(queue);
      var entry := queue[at];
      queue := queue[..at] + queue[at + 1..];
      active := Some(entry.job);
      taken, arrivedBy := taken + [entry.number], arrivedBy + [|arrived|];
    }

    /** The active job runs to its end, however that comes. */
    method ExecuteJob(ended: Ended)
      requires active.Some?
      modifies this
      ensures View() == Settle(Finish(old(View()), ended))
    {
      var job := active.value;
      match ended {
        case RanWith(completed) =>
          Count(completed);
          posted := posted + [Posted(job.id, completed)];
        case _ =>
          posted := posted + [Posted(job.id, false)];
          Count(false);
      }
      active := None;
    }

    method GetStats() returns (report: Reported)
      modifies this`stats, this`reports
      ensures View() == HeartbeatSent(old(View())) && report == Report(old(View()))
    {
      report := Reported(|queue|, if active.Some? then 1 else 0, stats.completedSince, stats.failedSince);
      stats := stats.(completedSince := 0, failedSince := 0);
      reports := reports + [report];
    }
  }
}
