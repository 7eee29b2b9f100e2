/** One scheduled run of a check: its attempts, their deadline and its single report
    (check_executor.py). */
module CheckRetry {
  import opened Results

  /** A check's timing, as configured; a missing or zero time is the default. */
  datatype Settings = Settings(timeout: real, retryAttempts: int, retryInterval: real, interval: real)

  function OrElse(v: real, default: real): real {
    if v == 0.0 then default else v
  }

  datatype Plan = Plan(timeout: real, retries: nat, pause: real, interval: real)

  function PlanOf(s: Settings): Plan {
    var retries := if s.retryAttempts > 0 then s.retryAttempts else 0;
    Plan(OrElse(s.timeout, 10.0), retries, s.retryInterval, OrElse(s.interval, 60.0))
  }

  /** What an attempt reports. */
  datatype Answer = Answer(success: bool, latency: real, error: string, metrics: Option<map<string, real>>)

  /** How a check's own run ends. */
  datatype Ended =
    | Returned(answer: Answer)
    | BadConfig(why: string)
    | TimedOut
    | Refused(why: string)
    | Raised(why: string)

  function Failure(error: string): Answer {
    Answer(false, 0.0, error, None)
  }

  /** A failure of any kind is a result. */
  function AnswerOf(e: Ended): Answer {
    match e
    case Returned(answer) => answer
    case BadConfig(why) => Failure("Invalid configuration: " + why)
    case TimedOut => Failure("timeout")
    case Refused(why) => Failure(why)
    case Raised(why) => Failure(why)
  }

  type Time = t: real | 0.0 <= t

  /** What the world does to an attempt: how much longer than asked the pause before it takes,
      how long it waits for a slot, how long it runs and how that ends. */
  datatype Try = Try(overslept: Time, queued: Time, lasted: Time, ended: Ended)

  type World = nat -> Try

  /** An attempt made: when it got its slot, how long it was expected to take at most, and how
      long it took. */
  datatype Made = Made(at: real, expected: real, lasted: real)

  /** A run so far. */
  datatype Run = Run(clock: real, made: seq<Made>, longest: real, answer: Answer)

  function AfterAttempt(made: seq<Made>, longest: real, at: real, t: Try, plan: Plan): Run {
    Run(at + t.lasted, made + [Made(at, longest, t.lasted)], MaxReal(MaxReal(longest, plan.timeout), t.lasted),
        AnswerOf(t.ended))
  }

  function FirstAttempt(world: World, plan: Plan, began: real): Run {
    AfterAttempt([], 0.0, began + world(0).queued, world(0), plan)
  }

  /** Whether another attempt is still worth waiting for. */
  predicate Worth(run: Run, plan: Plan, nextRun: real) {
    !run.answer.success && |run.made| <= plan.retries && run.clock + plan.pause + run.longest <= nextRun
  }

  /** When the next attempt has its slot. */
  function InSlot(run: Run, world: World, plan: Plan): real {
    run.clock + MaxReal(0.0, plan.pause) + world(|run.made|).overslept + world(|run.made|).queued
  }

  /** The run with its retries made. */
  function Retried(run: Run, world: World, plan: Plan, nextRun: real): (r: Run)
    decreases plan.retries + 1 - |run.made|
  {
    if !Worth(run, plan, nextRun) then run
    else
      var at := InSlot(run, world, plan);
      if at + run.longest > nextRun then run.(clock := at)
      else Retried(AfterAttempt(run.made, run.longest, at, world(|run.made|), plan), world, plan, nextRun)
  }

  /** The whole run of a check begun at a time. */
  function WholeRun(world: World, plan: Plan, began: real): Run {
    Retried(FirstAttempt(world, plan, began), world, plan, began + plan.interval)
  }

  // ---- What every run keeps ----

  /** Each retry is expected to be over by the deadline. */
  ghost predicate InTime(made: seq<Made>, deadline: real) {
    forall k :: 0 < k < |made| ==> made[k].at + made[k].expected <= deadline
  }

  /** Attempts follow each other, a pause apart. */
  ghost predicate Apart(made: seq<Made>, pause: real) {
    forall k :: 0 < k < |made| ==> made[k].at >= made[k - 1].at + made[k - 1].lasted + pause
  }

  /** A bound on the timeout and on how long the first attempts took. */
  ghost predicate BoundsAll(made: seq<Made>, first: nat, timeout: real, bound: real)
    requires first <= |made|
  {
    timeout <= bound && forall j :: 0 <= j < first ==> made[j].lasted <= bound
  }

  /** What a retry is expected to last bounds the timeout and everything before it. */
  ghost predicate Expects(made: seq<Made>, timeout: real) {
    forall k :: 0 < k < |made| ==> BoundsAll(made, k, timeout, made[k].expected)
  }

  ghost predicate Timely(run: Run, plan: Plan, began: real) {
    && run.made != []
    && InTime(run.made, began + plan.interval)
    && Apart(run.made, MaxReal(0.0, plan.pause))
    && Expects(run.made, plan.timeout)
    && BoundsAll(run.made, |run.made|, plan.timeout, run.longest)
    && run.clock >= run.made[|run.made| - 1].at + run.made[|run.made| - 1].lasted
  }

  /** A run's attempts are those the world made of them: all failures but the last, whose answer
      is the run's, and no more than are allowed. */
  ghost predicate Truthful(run: Run, world: World, plan: Plan, began: real) {
    var n := |run.made|;
    && 1 <= n <= plan.retries + 1
    && (forall k :: 0 <= k < n ==> run.made[k].lasted == world(k).lasted)
    && run.made[0].at == began + world(0).queued
    && (forall k :: 0 <= k < n - 1 ==> !AnswerOf(world(k).ended).success)
    && run.answer == AnswerOf(world(n - 1).ended)
  }

  ghost predicate Sound(run: Run, world: World, plan: Plan, began: real) {
    Timely(run, plan, began) && Truthful(run, world, plan, began)
  }

  lemma FirstIsSound(world: World, plan: Plan, began: real)
    ensures Sound(FirstAttempt(world, plan, began), world, plan, began)
  {
  }

  lemma BoundsStay(made: seq<Made>, m: Made, first: nat, timeout: real, bound: real, more: real)
    requires first <= |made| && BoundsAll(made, first, timeout, bound) && bound <= more
    ensures BoundsAll(made + [m], first, timeout, more)
  {
  }

  lemma OneMoreInTime(made: seq<Made>, m: Made, deadline: real, pause: real)
    requires made != [] && InTime(made, deadline) && Apart(made, pause)
    requires m.at + m.expected <= deadline && m.at >= made[|made| - 1].at + made[|made| - 1].lasted + pause
    ensures InTime(made + [m], deadline) && Apart(made + [m], pause)
  {
  }

  lemma OneMoreExpected(made: seq<Made>, m: Made, timeout: real)
    requires Expects(made, timeout) && BoundsAll(made, |made|, timeout, m.expected)
    ensures Expects(made + [m], timeout)
  {
    forall k | 0 < k < |made + [m]| ensures BoundsAll(made + [m], k, timeout, (made + [m])[k].expected) {
      BoundsStay(made, m, k, timeout, if k < |made| then made[k].expected else m.expected, (made + [m])[k].expected);
    }
  }

  lemma OneMoreBounded(made: seq<Made>, m: Made, timeout: real, bound: real)
    requires BoundsAll(made, |made|, timeout, bound)
    ensures BoundsAll(made + [m], |made| + 1, timeout, MaxReal(MaxReal(bound, timeout), m.lasted))
  {
  }

  lemma AttemptKeepsTimely(run: Run, plan: Plan, began: real, at: real, t: Try)
    requires Timely(run, plan, began)
    requires at >= run.clock + MaxReal(0.0, plan.pause) && at + run.longest <= began + plan.interval
    ensures Timely(AfterAttempt(run.made, run.longest, at, t, plan), plan, began)
  {
    var m := Made(at, run.longest, t.lasted);
    OneMoreInTime(run.made, m, began + plan.interval, MaxReal(0.0, plan.pause));
    OneMoreExpected(run.made, m, plan.timeout);
    OneMoreBounded(run.made, m, plan.timeout, run.longest);
  }

  lemma AttemptKeepsTruthful(run: Run, world: World, plan: Plan, began: real, at: real)
    requires Truthful(run, world, plan, began) && !run.answer.success && |run.made| <= plan.retries
    ensures Truthful(AfterAttempt(run.made, run.longest, at, world(|run.made|), plan), world, plan, began)
  {
  }

  /** Why a run ended: it succeeded, made all its retries, or one more would have been expected
      to outlast the deadline, seen before the pause or once in its slot. */
  ghost predicate Over(run: Run, world: World, plan: Plan, nextRun: real)
    requires run.made != []
  {
    var n := |run.made|;
    || run.answer.success
    || n == plan.retries + 1
    || run.made[n - 1].at + run.made[n - 1].lasted + plan.pause + run.longest > nextRun
    || run.made[n - 1].at + run.made[n - 1].lasted + MaxReal(0.0, plan.pause)
         + world(n).overslept + world(n).queued + run.longest > nextRun
  }

  lemma {:induction false} RetriesKeepSound(run: Run, world: World, plan: Plan, began: real)
    requires Sound(run, world, plan, began)
    ensures Sound(Retried(run, world, plan, began + plan.interval), world, plan, began)
    decreases plan.retries + 1 - |run.made|
  {
    if Worth(run, plan, began + plan.interval) {
      var at := InSlot(run, world, plan);
      if at + run.longest <= began + plan.interval {
        AttemptKeepsTimely(run, plan, began, at, world(|run.made|));
        AttemptKeepsTruthful(run, world, plan, began, at);
        RetriesKeepSound(AfterAttempt(run.made, run.longest, at, world(|run.made|), plan), world, plan, began);
      }
    }
  }

  lemma {:induction false} RetriesEndForAReason(run: Run, world: World, plan: Plan, nextRun: real)
    requires 1 <= |run.made| <= plan.retries + 1
    requires run.clock == run.made[|run.made| - 1].at + run.made[|run.made| - 1].lasted
    ensures Retried(run, world, plan, nextRun).made != []
        && Over(Retried(run, world, plan, nextRun), world, plan, nextRun)
    decreases plan.retries + 1 - |run.made|
  {
    if Worth(run, plan, nextRun) {
      var at := InSlot(run, world, plan);
      if at + run.longest <= nextRun {
        RetriesEndForAReason(AfterAttempt(run.made, run.longest, at, world(|run.made|), plan), world, plan, nextRun);
      }
    }
  }

  /** Every run keeps its deadline and its order, and stops only for a reason. */
  lemma EveryRunIsSound(world: World, plan: Plan, began: real)
    ensures Sound(WholeRun(world, plan, began), world, plan, began)
    ensures Over(WholeRun(world, plan, began), world, plan, began + plan.interval)
  {
    FirstIsSound(world, plan, began);
    RetriesKeepSound(FirstAttempt(world, plan, began), world, plan, began);
    RetriesEndForAReason(FirstAttempt(world, plan, began), world, plan, began + plan.interval);
  }

  /** A retry that takes no longer than the timeout, or than any attempt before it, is over by
      the check's next run. */
  lemma RetryEndsInTime(world: World, plan: Plan, began: real, j: nat, k: nat)
    requires j < k < |WholeRun(world, plan, began).made|
    requires world(k).lasted <= plan.timeout || world(k).lasted <= world(j).lasted
    ensures var retry := WholeRun(world, plan, began).made[k]; retry.at + retry.lasted <= began + plan.interval
  {
    EveryRunIsSound(world, plan, began);
    var run := WholeRun(world, plan, began);
    EndsInTime(run, world, plan, began, j, k);
  }

  lemma EndsInTime(run: Run, world: World, plan: Plan, began: real, j: nat, k: nat)
    requires Sound(run, world, plan, began) && j < k < |run.made|
    requires world(k).lasted <= plan.timeout || world(k).lasted <= world(j).lasted
    ensures run.made[k].at + run.made[k].lasted <= began + plan.interval
  {
    assert BoundsAll(run.made, k, plan.timeout, run.made[k].expected);
    assert run.made[k].at + run.made[k].expected <= began + plan.interval;
  }

  /** So many pauses one after another. */
  function Pauses(k: nat, pause: real): real {
    if k == 0 then 0.0 else Pauses(k - 1, pause) + pause
  }

  lemma OneMorePause(k: nat, pause: real)
    ensures (k + 1) as real * pause == k as real * pause + pause
  {
  }

  lemma {:induction false} PausesIsProduct(k: nat, pause: real)
    ensures Pauses(k, pause) == k as real * pause
  {
    if k > 0 {
      PausesIsProduct(k - 1, pause);
      OneMorePause(k - 1, pause);
    }
  }

  lemma NextAfterPause(run: Run, plan: Plan, began: real, k: nat)
    requires Timely(run, plan, began) && 0 < k < |run.made| && run.made[k - 1].lasted >= 0.0
    ensures run.made[k].at >= run.made[k - 1].at + MaxReal(0.0, plan.pause)
  {
  }

  lemma {:induction false} PausesAddUp(run: Run, world: World, plan: Plan, began: real, k: nat)
    requires Sound(run, world, plan, began) && k < |run.made|
    ensures run.made[k].at >= began + Pauses(k, MaxReal(0.0, plan.pause))
  {
    if k > 0 {
      PausesAddUp(run, world, plan, began, k - 1);
      NextAfterPause(run, plan, began, k);
    }
  }

  lemma SoundRetriesFit(run: Run, world: World, plan: Plan, began: real, pauses: real)
    requires Sound(run, world, plan, began) && |run.made| > 1
    requires run.made[|run.made| - 1].at >= began + pauses
    ensures pauses + plan.timeout <= plan.interval
  {
    var k := |run.made| - 1;
    assert run.made[k].at + run.made[k].expected <= began + plan.interval;
    assert BoundsAll(run.made, k, plan.timeout, run.made[k].expected);
  }

  lemma SoundFits(run: Run, world: World, plan: Plan, began: real)
    requires Sound(run, world, plan, began) && |run.made| > 1
    ensures Pauses(|run.made| - 1, MaxReal(0.0, plan.pause)) + plan.timeout <= plan.interval
  {
    PausesAddUp(run, world, plan, began, |run.made| - 1);
    SoundRetriesFit(run, world, plan, began, Pauses(|run.made| - 1, MaxReal(0.0, plan.pause)));
  }

  /** However many retries are asked for, those made and their pauses fit between two runs. */
  lemma RetriesFitTheInterval(world: World, plan: Plan, began: real)
    ensures var retries := |WholeRun(world, plan, began).made| - 1;
            retries > 0 ==> retries as real * MaxReal(0.0, plan.pause) + plan.timeout <= plan.interval
  {
    EveryRunIsSound(world, plan, began);
    var run := WholeRun(world, plan, began);
    if |run.made| > 1 {
      SoundFits(run, world, plan, began);
      PausesIsProduct(|run.made| - 1, MaxReal(0.0, plan.pause));
    }
  }

  // ---- The executor ----

  /** What one task of the executor does, and how many slots it holds then. */
  datatype Event = Slept(held: nat) | Ran(held: nat)

  datatype Report = Report(answer: Answer, metrics: map<string, real>, resultId: string, timestamp: real)

  datatype Stats = Stats(successes: nat, failures: nat, runs: nat, latency: real)

  function Stamped(a: Answer, attempts: nat): map<string, real> {
    a.metrics.GetOr(map[])["attempts" := attempts as real]
  }

  function Counted(s: Stats, a: Answer): Stats {
    var (good, bad) := if a.success then (1, 0) else (0, 1);
    Stats(s.successes + good, s.failures + bad, s.runs + 1, s.latency + a.latency)
  }

  class CheckExecutor {
    var clock: real
    var held: nat
    var events: seq<Event>
    var queue: seq<Report>
    var executed: nat
    var succeeded: nat
    var failed: nat
    var queuePeak: nat
    var stats: map<string, Stats>
    var lastState: map<string, Report>

    /** The counts agree with each other. */
    ghost predicate Counts()
      reads this`executed, this`succeeded, this`failed, this`stats, this`queue, this`queuePeak
    {
      && executed == succeeded + failed
      && (forall name :: name in stats ==> stats[name].runs == stats[name].successes + stats[name].failures)
      && |queue| <= queuePeak
    }

    /** The counts agree, and no slot is held between runs. */
    ghost predicate Valid()
      reads this
    {
      held == 0 && Counts()
    }

    /** Since then, no slot was held while sleeping, and one while an attempt ran. */
    ghost predicate SlotsKeptSince(at: nat)
      reads this`events
    {
      forall i :: at <= i < |events| ==> events[i] == Slept(0) || events[i] == Ran(1)
    }

    constructor (names: set<string>, now: real)
      ensures Valid() && clock == now && queue == [] && events == [] && stats.Keys == names
    {
      clock, held, events, queue := now, 0, [], [];
      executed, succeeded, failed, queuePeak := 0, 0, 0, 0;
      stats := map name | name in names :: Stats(0, 0, 0, 0.0);
      lastState := map[];
    }

    /** One attempt, in a slot the caller holds. */
    method RunOnce(t: Try, plan: Plan, longest: real) returns (answer: Answer, now: real)
      requires held == 1
      modifies this`clock, this`events
      ensures clock == old(clock) + t.lasted && events == old(events) + [Ran(1)]
      ensures answer == AnswerOf(t.ended) && now == MaxReal(MaxReal(longest, plan.timeout), t.lasted)
    {
      var begun := clock;
      events := events + [Ran(held)];
      clock := clock + t.lasted;
      answer := AnswerOf(t.ended);
      now := MaxReal(MaxReal(longest, plan.timeout), clock - begun);
    }

    /** One retry inside a slot; None when the slot came too late. */
    method Attempt(t: Try, plan: Plan, longest: real, finishBy: real) returns (answer: Option<Answer>, now: real)
      requires held == 0
      modifies this`clock, this`events, this`held
      ensures held == 0
      ensures var at := old(clock) + t.queued;
              if at + longest > finishBy then answer == None && now == longest && clock == at && events == old(events)
              else answer == Some(AnswerOf(t.ended)) && now == MaxReal(MaxReal(longest, plan.timeout), t.lasted)
                   && clock == at + t.lasted && events == old(events) + [Ran(1)]
    {
      clock := clock + t.queued;
      held := held + 1;
      if clock + longest > finishBy {
        answer, now := None, longest;
      } else {
        var a;
        a, now := RunOnce(t, plan, longest);
        answer := Some(a);
      }
      held := held - 1;
    }

    /** The check's own counts. */
    method CountRun(name: string, answer: Answer)
      requires name in stats
      modifies this`stats
      ensures stats == old(stats)[name := Counted(old(stats)[name], answer)]
    {
      var s := stats[name];
      if answer.success {
        s := s.(successes := s.successes + 1);
      } else {
        s := s.(failures := s.failures + 1);
      }
      s := s.(runs := s.runs + 1);
      if answer.latency != 0.0 {
        s := s.(latency := s.latency + answer.latency);
      }
      stats := stats[name := s];
    }

    /** Counts the run and queues it for reporting. */
    method Record(name: string, answer: Answer, attempts: nat, resultId: string, startedAt: real)
      requires Counts() && name in stats
      modifies this`queue, this`executed, this`succeeded, this`failed, this`queuePeak, this`stats, this`lastState
      ensures Counts()
      ensures queue == old(queue) + [Report(answer, Stamped(answer, attempts), resultId, startedAt)]
      ensures executed == old(executed) + 1 && succeeded == old(succeeded) + (if answer.success then 1 else 0)
      ensures stats == old(stats)[name := Counted(old(stats)[name], answer)]
      ensures lastState == old(lastState)[name := queue[|queue| - 1]]
    {
      executed := executed + 1;
      if answer.success { succeeded := succeeded + 1; } else { failed := failed + 1; }
      CountRun(name, answer);
      var report := Report(answer, Stamped(answer, attempts), resultId, startedAt);
      lastState := lastState[name := report];
      queue := queue + [report];
      if |queue| > queuePeak {
        queuePeak := |queue|;
      }
    }

    /** The retries of a failed run while they can end in time. */
    method RetryWhileFailing(plan: Plan, world: World, nextRun: real, result0: Answer, longest0: real, ghost start: Run)
        returns (result: Answer, attempts: nat, ghost run: Run)
      requires held == 0 && start.clock == clock && |start.made| == 1 && start.longest == longest0
          && start.answer == result0
      modifies this`clock, this`events, this`held
      ensures held == 0 && run == Retried(start, world, plan, nextRun)
      ensures clock == run.clock && attempts == |run.made| && result == run.answer
      ensures old(events) <= events && SlotsKeptSince(|old(events)|)
    {
      result, attempts, run := result0, 1, start;
      var longest := longest0;
      while !result.success && attempts <= plan.retries
        invariant run.clock == clock && |run.made| == attempts && run.longest == longest && run.answer == result
        invariant Retried(run, world, plan, nextRun) == Retried(start, world, plan, nextRun)
        invariant held == 0
        invariant old(events) <= events && SlotsKeptSince(|old(events)|)
        decreases plan.retries + 1 - attempts
      {
        if clock + plan.pause + longest > nextRun {
          break;
        }
        events := events + [Slept(held)];
        clock := clock + MaxReal(0.0, plan.pause) + world(attempts).overslept;
        var retried;
        retried, longest := Attempt(world(attempts), plan, longest, nextRun);
        if retried.None? {
          run := run.(clock := clock);
          return;
        }
        result := retried.value;
        run := AfterAttempt(run.made, run.longest, InSlot(run, world, plan), world(attempts), plan);
        attempts := attempts + 1;
      }
    }

    /** Runs a check, retrying a failure while there is time, and queues one report of it. */
    method RunCheck(name: string, settings: Settings, world: World, resultId: string, wallClock: real)
        returns (ghost run: Run)
      requires Valid() && name in stats
      modifies this
      ensures Valid()
      ensures run == WholeRun(world, PlanOf(settings), old(clock)) && clock == run.clock
      ensures queue == old(queue) + [Report(run.answer, Stamped(run.answer, |run.made|), resultId, wallClock)]
      ensures executed == old(executed) + 1 && succeeded == old(succeeded) + (if run.answer.success then 1 else 0)
      ensures stats == old(stats)[name := Counted(old(stats)[name], run.answer)]
      ensures old(events) <= events && SlotsKeptSince(|old(events)|)
    {
      var plan := PlanOf(settings);
      var nextRun := clock + plan.interval;
      clock := clock + world(0).queued;
      held := held + 1;
      var first, longest := RunOnce(world(0), plan, 0.0);
      held := held - 1;
      var result, attempts;
      result, attempts, run := RetryWhileFailing(plan, world, nextRun, first, longest,
          FirstAttempt(world, plan, old(clock)));
      Record(name, result, attempts, resultId, wallClock);
    }
  }
}
