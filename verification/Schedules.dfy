/** Which times an agent's keys can be recovered at: exactly those each of which keeps the gap
    the ones before it have set (registration.py, heartbeat.py). */
module Schedules {
  import opened Results
  import opened Credentials
  import opened Recovery
  import opened Backoff
  import opened Lifecycle

  /** An agent that holds a recovery secret and no key. */
  const START := Started(0.0, Some(Data(1, None, Some("s"))), Some("k"))

  /** recover-key gives a key at once, and the disk takes it. */
  const GIVING := Env(Key("x"), 0.0, true, NotRegistered, 0.0, true, true, NotRegistered, 0.0, true, true)

  /** A heartbeat of an approved agent whose key the server does not take. */
  const REFUSED_BEAT := HeartbeatSent(Accepted(true, Some(false)), GIVING)

  function LastOf(times: seq<real>): real {
    if times == [] then 0.0 else times[|times| - 1]
  }

  /** A run in which a key is recovered at each of the times. */
  function Schedule(times: seq<real>): seq<Event> {
    if times == [] then []
    else
      var before := times[..|times| - 1];
      Schedule(before) + [Tick(times[|times| - 1] - LastOf(before)), REFUSED_BEAT]
  }

  /** The agent just after those recoveries. */
  ghost predicate Ready(g: Agent, times: seq<real>) {
    && Recoveries(g.log) == times && g.now == LastOf(times)
    && g.keys.agentId == Some(1) && g.configId == Some(1)
    && g.keys.recoverySecret == Some("s") && g.registrationKey == Some("k")
    && !g.recoveryRefused && g.recoveryGap == GapAfter(times)
    && g.lastRecovered == (if times == [] then None else Some(LastOf(times)))
    && g.recoveryNotBefore <= g.now + g.recoveryGap
  }

  lemma {:induction false} ExecAppend(g: Agent, a: seq<Event>, b: seq<Event>)
    ensures Exec(g, a + b) == Exec(Exec(g, a), b)
    decreases |a|
  {
    if a == [] {
      assert a + b == b;
    } else {
      assert (a + b)[1..] == a[1..] + b;
      ExecAppend(Step(g, a[0]), a[1..], b);
    }
  }

  /** A key recovered as soon as nothing holds it back. */
  lemma KeyTaken(g: Agent, times: seq<real>, at: real)
    requires Ready(g.(now := LastOf(times)), times) && g.now == at
    requires times != [] ==> at >= LastOf(times) + GapAfter(times)
    requires at >= 0.0 && MayRecover(g)
    ensures Ready(Recover(g, GIVING).0, times + [at]) && Recover(g, GIVING).1
  {
    OneMore(g.log, Recovered(at, "x"));
    GapOneMore(times, at);
    GapBounds(times + [at]);
    KeyKeepsSecret(g.keys, "x", true);
  }

  lemma BeatRecovers(g: Agent, times: seq<real>, at: real)
    requires Ready(g.(now := LastOf(times)), times) && g.now == at
    requires times != [] ==> at >= LastOf(times) + GapAfter(times)
    requires at >= 0.0 && MayRecover(g)
    ensures Ready(Step(g, REFUSED_BEAT), times + [at])
  {
    var sent := SendsSecret(g);
    var beat := BeatOf(g);
    var logged := Log(g, beat);
    OneMore(g.log, beat);
    var noted := NoteAnswer(logged, Some(false), sent, true);
    OneMore(logged.log, if Truthy(g.keys.apiKey) then KeyRefused(g.keys.apiKey) else Entry.KeyTaken);
    KeyTaken(noted, times, at);
  }

  lemma ExecTwo(g: Agent, e: Event, f: Event)
    ensures Exec(g, [e, f]) == Step(Step(g, e), f)
  {
    assert [e, f][1..] == [f] && [f][1..] == [];
    assert Exec(Step(g, e), [f]) == Exec(Step(Step(g, e), f), []);
  }

  lemma NextRecovery(g: Agent, times: seq<real>, at: real)
    requires Ready(g, times) && Spaced(times + [at]) && at >= LastOf(times)
    requires at >= 0.0
    ensures Ready(Exec(g, [Tick(at - LastOf(times)), REFUSED_BEAT]), times + [at])
  {
    SpacedOneMore(times, at);
    var later := Step(g, Tick(at - LastOf(times)));
    ExecTwo(g, Tick(at - LastOf(times)), REFUSED_BEAT);
    BeatRecovers(later, times, at);
  }

  lemma OneMoreMet(events: seq<Event>, before: seq<real>, at: real)
    requires Ready(Exec(START, events), before) && Spaced(before + [at]) && at >= LastOf(before) && at >= 0.0
    ensures Ready(Exec(START, events + [Tick(at - LastOf(before)), REFUSED_BEAT]), before + [at])
  {
    NextRecovery(Exec(START, events), before, at);
    ExecAppend(START, events, [Tick(at - LastOf(before)), REFUSED_BEAT]);
  }

  /** Every heartbeat takes at least so long to come. */
  predicate Paced(events: seq<Event>, eps: real) {
    forall n :: 0 <= n < |events| && events[n].HeartbeatSent? ==>
      n > 0 && events[n - 1].Tick? && events[n - 1].dt >= eps
  }

  /** The first time is at least so late, and each other at least so long after the last. */
  predicate AllApart(times: seq<real>, eps: real) {
    times != [] ==> times[0] >= eps && Apart(times, 0, |times| - 1, eps)
  }

  lemma InOrder(before: seq<real>, at: real, eps: real)
    requires AllApart(before + [at], eps) && eps >= 0.0
    ensures AllApart(before, eps) && at - LastOf(before) >= eps && at >= 0.0
    decreases |before|
  {
    var times := before + [at];
    if before == [] {
      assert times[0] == at;
    } else {
      assert times[|before|] - times[|before| - 1] >= eps;
      assert forall j :: 0 <= j < |before| ==> times[j] == before[j];
      LastIsLate(before, eps);
    }
  }

  lemma {:induction false} LastIsLate(times: seq<real>, eps: real)
    requires times != [] && AllApart(times, eps) && eps >= 0.0
    ensures LastOf(times) >= eps
  {
    if |times| > 1 {
      var init := times[..|times| - 1];
      assert times[|times| - 1] - times[|times| - 2] >= eps;
      LastIsLate(init, eps);
    }
  }

  lemma PacedOneMore(events: seq<Event>, dt: real, eps: real)
    requires Paced(events, eps) && dt >= eps
    ensures Paced(events + [Tick(dt), REFUSED_BEAT], eps)
  {
    var more := events + [Tick(dt), REFUSED_BEAT];
    forall n | 0 <= n < |more| && more[n].HeartbeatSent? ensures n > 0 && more[n - 1].Tick? && more[n - 1].dt >= eps {
      if n < |events| { assert events[n].HeartbeatSent?; }
    }
  }

  lemma ScheduleOneMore(before: seq<real>, at: real)
    ensures Schedule(before + [at]) == Schedule(before) + [Tick(at - LastOf(before)), REFUSED_BEAT]
  {
    assert (before + [at])[..|before|] == before;
  }

  /** Recoveries can come at any times that keep the gaps and are so far apart. */
  lemma {:induction false} ScheduleIsMet(times: seq<real>, eps: real)
    requires Spaced(times) && AllApart(times, eps) && eps >= 0.0
    ensures Ready(Exec(START, Schedule(times)), times) && Paced(Schedule(times), eps)
  {
    if times != [] {
      var before, at := times[..|times| - 1], times[|times| - 1];
      assert times == before + [at];
      InOrder(before, at, eps);
      SpacedOneMore(before, at);
      ScheduleIsMet(before, eps);
      var events := Schedule(before);
      OneMoreMet(events, before, at);
      PacedOneMore(events, at - LastOf(before), eps);
      ScheduleOneMore(before, at);
    }
  }

  // ---- What a run adds to its recoveries ----

  /** The state before the n-th event. */
  function Before(start: Agent, events: seq<Event>, n: nat): Agent
    requires n <= |events|
  {
    Exec(start, events[..n])
  }

  lemma NextState(start: Agent, events: seq<Event>, n: nat)
    requires n < |events|
    ensures Before(start, events, n + 1) == Step(Before(start, events, n), events[n])
  {
    assert events[..n + 1] == events[..n] + [events[n]];
    ExecAppend(start, events[..n], [events[n]]);
    assert [events[n]][1..] == [];
  }

  /** Nothing recovered: the recoveries stay, or a registration starts them anew. */
  predicate AddsNone(g: Agent, g': Agent) {
    g'.now >= g.now && (Recoveries(g'.log) == Recoveries(g.log) || Recoveries(g'.log) == [])
  }

  /** One recovered, no sooner than now. */
  ghost predicate AddsOne(g: Agent, g': Agent) {
    g'.now >= g.now && exists at :: g.now <= at <= g'.now && Recoveries(g'.log) == Recoveries(g.log) + [at]
  }

  lemma RegisteringAdds(g: Agent, answer: RegisterAnswer, took: real, diskTakes: bool)
    ensures AddsNone(g, Register(g, answer, took, diskTakes))
  {
    if answer.Registered? {
      OneMore(g.log, NewRegistration(Register(g, answer, took, diskTakes).keys.recoverySecret));
    }
  }

  lemma AskingAdds(g: Agent, env: Env)
    requires g.configId.Some?
    ensures var (g', recovered) := AnswerRecover(g, env); if recovered then AddsOne(g, g') else AddsNone(g, g')
  {
    var later := Later(g, env.recoverTook);
    if GivesKey(env.recover) {
      OneMore(later.log, Recovered(later.now, env.recover.key));
    } else if env.recover == Marked(RecoverySecretRefused) {
      OneMore(later.log, SecretVoid(later.keys.recoverySecret));
    }
  }

  lemma RecoveringAdds(g: Agent, env: Env)
    ensures var (g', recovered) := Recover(g, env); if recovered then AddsOne(g, g') else AddsNone(g, g')
  {
    if MayRecover(g) && !Truthy(g.keys.recoverySecret) {
      RegisteringAdds(g.(keys := AfterClear(g.keys, env.unlinked), configId := None), env.afresh, env.afreshTook,
        env.saveAfresh);
    } else if MayRecover(g) && CanRecover(g) {
      AskingAdds(g, env);
    }
  }

  lemma SendingAdds(g: Agent, env: Env)
    ensures AddsNone(g, SendAgain(g, env).0)
  {
    var tried := Register(g, env.again, env.againTook, env.saveAgain);
    RegisteringAdds(g, env.again, env.againTook, env.saveAgain);
    OneMore(tried.log, AgainTried(g.now, env.again.Registered?, g.keys.recoverySecret));
  }

  lemma RegisteringAgainAdds(g: Agent, env: Env)
    ensures AddsNone(g, RegisterAgain(g, env).0) || AddsOne(g, RegisterAgain(g, env).0)
  {
    if g.now >= g.registerAgainNotBefore && g.secretRefused {
      SendingAdds(g, env);
    } else if g.now >= g.registerAgainNotBefore {
      RecoveringAdds(g, env);
      SendingAdds(Recover(g, env).0, env);
    }
  }

  lemma ApprovingAdds(g: Agent, env: Env)
    ensures AddsNone(g, Approve(g, env)) || AddsOne(g, Approve(g, env))
  {
    RecoveringAdds(g, env);
    var (asked, recovered) := Recover(g, env);
    if !recovered && asked.secretRefused { SendingAdds(asked, env); }
  }

  lemma HearingAdds(g: Agent, keyAccepted: Option<bool>, sent: bool, diskTakes: bool)
    ensures var g' := NoteAnswer(g, keyAccepted, sent, diskTakes);
            g'.now == g.now && Recoveries(g'.log) == Recoveries(g.log)
  {
    OneMore(g.log, KeyRefused(g.keys.apiKey));
    OneMore(g.log, Entry.KeyTaken);
  }

  /** What is added after an entry that recovers nothing is added from before it. */
  lemma AddsFrom(g: Agent, h: Agent, g': Agent)
    requires h.now == g.now && Recoveries(h.log) == Recoveries(g.log)
    requires AddsNone(h, g') || AddsOne(h, g')
    ensures AddsNone(g, g') || AddsOne(g, g')
  {
  }

  lemma ReadingAdds(g: Agent, mark: Mark, sent: bool)
    ensures var g' := ReadRefusal(g, mark, sent);
            g'.now == g.now && Recoveries(g'.log) == Recoveries(g.log)
  {
    OneMore(g.log, KeyRefused(g.keys.apiKey));
  }

  lemma TriedAgainAdds(g: Agent, env: Env)
    ensures AddsNone(g, RegisterAgainIfRefused(g, env)) || AddsOne(g, RegisterAgainIfRefused(g, env))
  {
    if g.beatSecretRefused {
      RegisteringAgainAdds(g, env);
      SameAdds(g, RegisterAgain(g, env).0, RegisterAgainIfRefused(g, env));
    }
  }

  /** What is added does not turn on the rest of the state. */
  lemma SameAdds(g: Agent, h: Agent, g': Agent)
    requires g'.now == h.now && g'.log == h.log
    requires AddsNone(g, h) || AddsOne(g, h)
    ensures AddsNone(g, g') || AddsOne(g, g')
  {
  }

  lemma AcceptedAdds(g: Agent, active: bool, keyAccepted: Option<bool>, sent: bool, env: Env)
    ensures var noted := NoteAnswer(g, keyAccepted, sent, env.saveHeld);
            var approved := if active then Approve(noted, env) else noted;
            AddsNone(g, approved) || AddsOne(g, approved)
  {
    var noted := NoteAnswer(g, keyAccepted, sent, env.saveHeld);
    HearingAdds(g, keyAccepted, sent, env.saveHeld);
    ApprovingAdds(noted, env);
    AddsFrom(g, noted, if active then Approve(noted, env) else noted);
  }

  lemma RefusedAdds(g: Agent, mark: Mark, sent: bool, env: Env)
    ensures var g' := RegisterAgainIfRefused(ReadRefusal(g, mark, sent), env); AddsNone(g, g') || AddsOne(g, g')
  {
    ReadingAdds(g, mark, sent);
    TriedAgainAdds(ReadRefusal(g, mark, sent), env);
    AddsFrom(g, ReadRefusal(g, mark, sent), RegisterAgainIfRefused(ReadRefusal(g, mark, sent), env));
  }

  /** What follows a heartbeat, once it is recorded. */
  lemma AnsweredAdds(g: Agent, logged: Agent, answer: BeatAnswer, env: Env)
    requires logged == Log(g, BeatOf(g))
    ensures AddsNone(logged, Heartbeat(g, answer, env)) || AddsOne(logged, Heartbeat(g, answer, env))
  {
    match answer
    case Silent =>
    case Garbled =>
    case Other => TriedAgainAdds(logged, env);
    case Refused(mark) => RefusedAdds(logged, mark, SendsSecret(g), env);
    case Accepted(active, keyAccepted) =>
      AcceptedAdds(logged, active, keyAccepted, SendsSecret(g), env);
      var noted := NoteAnswer(logged, keyAccepted, SendsSecret(g), env.saveHeld);
      SameAdds(logged, if active then Approve(noted, env) else noted, Heartbeat(g, answer, env));
  }

  lemma BeatingAdds(g: Agent, answer: BeatAnswer, env: Env)
    ensures AddsNone(g, Heartbeat(g, answer, env)) || AddsOne(g, Heartbeat(g, answer, env))
  {
    var logged := Log(g, BeatOf(g));
    OneMore(g.log, BeatOf(g));
    AnsweredAdds(g, logged, answer, env);
    AddsFrom(g, logged, Heartbeat(g, answer, env));
  }

  lemma WaitingAdds(g: Agent, e: Event)
    requires !e.HeartbeatSent?
    ensures AddsNone(g, Step(g, e))
  {
    match e
    case Tick(_) =>
    case Orphaned(env) =>
      RegisteringAdds(g.(keys := AfterClear(g.keys, env.unlinked)), env.afresh, env.afreshTook, env.saveAfresh);
    case StartUp(env) =>
      RegisteringAdds(g, env.afresh, env.afreshTook, env.saveAfresh);
      RegisteringAdds(g.(keys := AfterClear(g.keys, env.unlinked), configId := None), env.afresh, env.afreshTook,
        env.saveAfresh);
  }

  /** The recoveries so far are apart, and none is later than now. */
  ghost predicate ApartSoFar(g: Agent, eps: real) {
    AllApart(Recoveries(g.log), eps) && g.now >= 0.0 && LastOf(Recoveries(g.log)) <= g.now
  }

  lemma AddedApart(times: seq<real>, at: real, eps: real)
    requires AllApart(times, eps) && at >= LastOf(times) + eps
    ensures AllApart(times + [at], eps)
  {
    var more := times + [at];
    forall j | 0 < j <= |more| - 1 ensures more[j] - more[j - 1] >= eps {
      if j < |times| { assert times[j] - times[j - 1] >= eps; }
    }
  }

  lemma NoneAddedApart(g: Agent, g': Agent, eps: real)
    requires ApartSoFar(g, eps) && AddsNone(g, g')
    ensures ApartSoFar(g', eps)
  {
  }

  lemma OneAddedApart(g: Agent, g': Agent, eps: real)
    requires ApartSoFar(g, eps) && AddsOne(g, g') && g.now >= LastOf(Recoveries(g.log)) + eps
    ensures ApartSoFar(g', eps)
  {
    var at :| g.now <= at <= g'.now && Recoveries(g'.log) == Recoveries(g.log) + [at];
    AddedApart(Recoveries(g.log), at, eps);
  }

  lemma TickedApart(g: Agent, dt: real, eps: real)
    requires ApartSoFar(g, eps) && dt >= eps >= 0.0
    ensures var g' := Step(g, Tick(dt)); ApartSoFar(g', eps) && g'.now >= LastOf(Recoveries(g'.log)) + eps
  {
  }

  lemma {:induction false} PacedRunsAreApart(start: Agent, events: seq<Event>, n: nat, eps: real)
    requires ApartSoFar(start, eps) && Paced(events, eps) && eps >= 0.0 && n <= |events|
    ensures ApartSoFar(Before(start, events, n), eps)
  {
    if n == 0 {
      assert events[..0] == [];
    } else if !events[n - 1].HeartbeatSent? {
      PacedRunsAreApart(start, events, n - 1, eps);
      NextState(start, events, n - 1);
      WaitingAdds(Before(start, events, n - 1), events[n - 1]);
      NoneAddedApart(Before(start, events, n - 1), Before(start, events, n), eps);
    } else {
      PacedRunsAreApart(start, events, n - 2, eps);
      NextState(start, events, n - 2);
      NextState(start, events, n - 1);
      TickedApart(Before(start, events, n - 2), events[n - 2].dt, eps);
      BeatApart(Before(start, events, n - 1), events[n - 1].answer, events[n - 1].env, eps);
    }
  }

  lemma BeatApart(g: Agent, answer: BeatAnswer, env: Env, eps: real)
    requires ApartSoFar(g, eps) && g.now >= LastOf(Recoveries(g.log)) + eps
    ensures ApartSoFar(Heartbeat(g, answer, env), eps)
  {
    BeatingAdds(g, answer, env);
    if AddsNone(g, Heartbeat(g, answer, env)) {
      NoneAddedApart(g, Heartbeat(g, answer, env), eps);
    } else {
      OneAddedApart(g, Heartbeat(g, answer, env), eps);
    }
  }

  // ---- Exactly which times ----

  ghost predicate RecoversAt(events: seq<Event>, times: seq<real>, eps: real) {
    Paced(events, eps) && Recoveries(Exec(START, events).log) == times
  }

  lemma RunsAreSpaced(now: real, file: Option<Data>, registrationKey: Option<Secret>, events: seq<Event>, eps: real)
    requires Paced(events, eps) && eps >= 0.0 && now >= 0.0
    ensures var times := Recoveries(Exec(Started(now, file, registrationKey), events).log);
            Spaced(times) && AllApart(times, eps)
  {
    var start := Started(now, file, registrationKey);
    StartedInv(now, file, registrationKey);
    RunKeeps(start, events);
    assert events[..|events|] == events;
    PacedRunsAreApart(start, events, |events|, eps);
  }

  /** However long a heartbeat takes to come: a list of times is that of the recoveries of some
      run exactly when it keeps the gaps and no two of them are closer than two heartbeats. */
  lemma RecoveriesAreTheSpacedTimes(times: seq<real>, eps: real)
    requires eps >= 0.0
    ensures (exists events :: RecoversAt(events, times, eps)) <==> Spaced(times) && AllApart(times, eps)
  {
    if Spaced(times) && AllApart(times, eps) {
      ScheduleIsMet(times, eps);
      assert RecoversAt(Schedule(times), times, eps);
    }
    if events :| RecoversAt(events, times, eps) {
      RunsAreSpaced(0.0, Some(Data(1, None, Some("s"))), Some("k"), events, eps);
    }
  }

  /** With heartbeats at least so far apart, any eight recoveries in a row within one registration
      span that much more than 63 minutes, in every run. */
  lemma EightRecoveriesSpan(now: real, file: Option<Data>, registrationKey: Option<Secret>, events: seq<Event>, i: nat,
                            eps: real)
    requires Paced(events, eps) && 0.0 <= eps <= 60.0 && now >= 0.0
    requires i + 7 < |Recoveries(Exec(Started(now, file, registrationKey), events).log)|
    ensures var times := Recoveries(Exec(Started(now, file, registrationKey), events).log);
            times[i + 7] - times[i] >= 3780.0 + eps
  {
    var times := Recoveries(Exec(Started(now, file, registrationKey), events).log);
    RunsAreSpaced(now, file, registrationKey, events, eps);
    EightSpan(times, i, eps);
  }

  /** That bound is met, and seven fit in 31 minutes and as much more: a run recovers keys at
      these times. */
  lemma EightFitInSixtyThreeMinutes(eps: real)
    requires 0.0 <= eps <= 60.0
    ensures RecoversAt(Schedule(Eight(eps)), Eight(eps), eps)
    ensures |Eight(eps)| == 8
    ensures Eight(eps)[6] - Eight(eps)[0] == 1860.0 + eps && Eight(eps)[7] - Eight(eps)[0] == 3780.0 + eps
  {
    EightSpaced(eps, 8);
    assert Eight(eps)[..8] == Eight(eps);
    ScheduleIsMet(Eight(eps), eps);
  }

  /** In every state of every run: the next recovery is held back a full hour after the last one
      exactly when each of the last seven came within an hour of the one before it. */
  lemma HeldBackAnHourInRuns(now: real, file: Option<Data>, registrationKey: Option<Secret>, events: seq<Event>)
    ensures var g := Exec(Started(now, file, registrationKey), events);
            var times := Recoveries(g.log);
            && (g.recoveryGap == 3600.0 <==>
                  |times| >= 8 && forall i :: |times| - 7 <= i < |times| ==> times[i] - times[i - 1] < 3600.0)
            && (g.recoveryGap == 3600.0 ==> g.recoveryNotBefore >= times[|times| - 1] + 3600.0)
  {
    StartedInv(now, file, registrationKey);
    RunKeeps(Started(now, file, registrationKey), events);
    HeldBackAnHour(Recoveries(Exec(Started(now, file, registrationKey), events).log));
  }
}
