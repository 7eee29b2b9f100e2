/** No wait of the agent is ever cut short: outside a registration, whatever a heartbeat, a check
    fetch or a start meets leaves every wait standing or sets a later one once it is over
    (registration.py). */
module Waiting {
  import opened Results
  import opened Credentials
  import opened Recovery

  /** Whether nothing was registered between two states. */
  ghost predicate NoneRegistered(g: Agent, g': Agent)
    requires g.log <= g'.log
  {
    forall i :: |g.log| <= i < |g'.log| ==> !g'.log[i].NewRegistration?
  }

  /** A wait that stands, or was over when another was set. */
  predicate Stands(wait: real, wait': real, now': real) {
    wait' == wait || (wait <= now' && wait <= wait')
  }

  /** What holds between a state and a later one. */
  ghost predicate Waited(g: Agent, g': Agent) {
    && g.log <= g'.log && g.now <= g'.now
    && Stands(g.registerAgainNotBefore, g'.registerAgainNotBefore, g'.now)
    && (NoneRegistered(g, g') ==> Stands(g.recoveryNotBefore, g'.recoveryNotBefore, g'.now))
  }

  lemma Then(g: Agent, g': Agent, g'': Agent)
    requires Waited(g, g') && Waited(g', g'')
    ensures Waited(g, g'')
  {
    if NoneRegistered(g, g'') {
      forall i | |g.log| <= i < |g'.log| ensures !g'.log[i].NewRegistration? {
        assert g'.log[i] == g''.log[i];
      }
    }
  }

  lemma Registering(g: Agent, g0: Agent, answer: RegisterAnswer, took: real, diskTakes: bool)
    requires g0.log == g.log && g0.now == g.now
    requires g0.registerAgainNotBefore == g.registerAgainNotBefore && g0.recoveryNotBefore == g.recoveryNotBefore
    ensures Waited(g, Register(g0, answer, took, diskTakes))
  {
    var g' := Register(g0, answer, took, diskTakes);
    if answer.Registered? { assert g'.log[|g.log|].NewRegistration?; }
  }

  lemma TakingKey(g: Agent, later: Agent, id: AgentId, key: Secret, diskTakes: bool)
    requires later.log == g.log && later.now >= g.now >= g.recoveryNotBefore
    requires later.registerAgainNotBefore == g.registerAgainNotBefore && later.recoveryNotBefore == g.recoveryNotBefore
    ensures Waited(g, TakeKey(later, id, key, diskTakes))
  {
  }

  lemma GettingNone(g: Agent, later: Agent, answer: RecoverAnswer)
    requires later.log == g.log && later.now >= g.now >= g.recoveryNotBefore
    requires later.registerAgainNotBefore == g.registerAgainNotBefore && later.recoveryNotBefore == g.recoveryNotBefore
    ensures Waited(g, NoKey(later, answer))
  {
  }

  lemma AskingForKey(g: Agent, env: Env)
    requires MayRecover(g) && g.configId.Some?
    ensures Waited(g, AnswerRecover(g, env).0)
  {
    var later := Later(g, env.recoverTook);
    if GivesKey(env.recover) {
      TakingKey(g, later, g.configId.value, env.recover.key, env.saveKey);
    } else {
      GettingNone(g, later, env.recover);
    }
  }

  lemma Recovering(g: Agent, env: Env)
    ensures Waited(g, Recover(g, env).0)
  {
    if MayRecover(g) && !Truthy(g.keys.recoverySecret) {
      Registering(g, g.(keys := AfterClear(g.keys, env.unlinked), configId := None), env.afresh, env.afreshTook,
          env.saveAfresh);
    } else if MayRecover(g) && CanRecover(g) {
      AskingForKey(g, env);
    }
  }

  lemma Sending(g: Agent, env: Env)
    requires g.now >= g.registerAgainNotBefore
    ensures Waited(g, SendAgain(g, env).0)
  {
    var tried := Register(g, env.again, env.againTook, env.saveAgain);
    Registering(g, g, env.again, env.againTook, env.saveAgain);
    assert tried.registerAgainNotBefore == g.registerAgainNotBefore;
    Trying(g, tried, g.now, env.again.Registered?, g.keys.recoverySecret);
  }

  lemma Trying(g: Agent, tried: Agent, at: real, registered: bool, held: Option<Secret>)
    requires Waited(g, tried) && tried.registerAgainNotBefore <= tried.now
    ensures Waited(g, AfterTry(tried, at, registered, held))
  {
    Then(g, tried, AfterTry(tried, at, registered, held));
  }

  lemma RegisteringAgain(g: Agent, env: Env)
    ensures Waited(g, RegisterAgain(g, env).0)
  {
    if g.now >= g.registerAgainNotBefore {
      if g.secretRefused {
        Sending(g, env);
      } else {
        var (asked, recovered) := Recover(g, env);
        Recovering(g, env);
        AskedKeepsRegisterAgain(g, env);
        if !recovered && asked.secretRefused {
          Sending(asked, env);
          Then(g, asked, SendAgain(asked, env).0);
        }
      }
    }
  }

  lemma AskedKeepsRegisterAgain(g: Agent, env: Env)
    ensures Recover(g, env).0.registerAgainNotBefore == g.registerAgainNotBefore
  {
  }

  lemma Approving(g: Agent, env: Env)
    ensures Waited(g, Approve(g, env))
  {
    var (asked, recovered) := Recover(g, env);
    Recovering(g, env);
    RegisteringAgain(asked, env);
    Then(g, asked, RegisterAgain(asked, env).0);
  }

  /** States that differ in neither waits nor time, the later one's log no shorter. */
  lemma Noting(g: Agent, g': Agent)
    requires g.log <= g'.log && g'.now == g.now
    requires g'.registerAgainNotBefore == g.registerAgainNotBefore && g'.recoveryNotBefore == g.recoveryNotBefore
    ensures Waited(g, g')
  {
  }

  lemma RegisteringIfRefused(g: Agent, env: Env)
    ensures Waited(g, RegisterAgainIfRefused(g, env))
  {
    if g.beatSecretRefused {
      var asked := RegisterAgain(g, env).0;
      RegisteringAgain(g, env);
      Noting(asked, RegisterAgainIfRefused(g, env));
      Then(g, asked, RegisterAgainIfRefused(g, env));
    }
  }

  lemma Hearing(g: Agent, keyAccepted: Option<bool>, sent: bool, diskTakes: bool)
    ensures Waited(g, NoteAnswer(g, keyAccepted, sent, diskTakes))
  {
    Noting(g, NoteAnswer(g, keyAccepted, sent, diskTakes));
  }

  lemma Forgetting(g: Agent, g': Agent)
    requires Waited(g, g')
    ensures Waited(g, g'.(beatSecretRefused := false))
  {
    Noting(g', g'.(beatSecretRefused := false));
    Then(g, g', g'.(beatSecretRefused := false));
  }

  lemma Answered(g: Agent, keyAccepted: Option<bool>, active: bool, sent: bool, env: Env)
    ensures var noted := NoteAnswer(g, keyAccepted, sent, env.saveHeld);
            Waited(g, (if active then Approve(noted, env) else noted).(beatSecretRefused := false))
  {
    var noted := NoteAnswer(g, keyAccepted, sent, env.saveHeld);
    Hearing(g, keyAccepted, sent, env.saveHeld);
    if active {
      Approving(noted, env);
      Then(g, noted, Approve(noted, env));
      Forgetting(g, Approve(noted, env));
    } else {
      Forgetting(g, noted);
    }
  }

  lemma Beating(g: Agent, answer: BeatAnswer, env: Env)
    ensures Waited(g, Heartbeat(g, answer, env))
  {
    var sent := SendsSecret(g);
    var logged := Log(g, BeatOf(g));
    Noting(g, logged);
    if answer.Accepted? {
      Answered(logged, answer.keyAccepted, answer.active, sent, env);
    } else if answer.Refused? {
      var read := ReadRefusal(logged, answer.mark, sent);
      Noting(logged, read);
      RegisteringIfRefused(read, env);
      Then(logged, read, RegisterAgainIfRefused(read, env));
    } else if answer.Other? {
      RegisteringIfRefused(logged, env);
    } else {
      Noting(logged, Heartbeat(g, answer, env));
    }
    Then(g, logged, Heartbeat(g, answer, env));
  }

  /** Whatever an event brings: as long as it registers nothing, each wait stands, or was over
      and a later one stands in its place. */
  lemma NoWaitShortened(g: Agent, e: Event)
    ensures Waited(g, Step(g, e))
  {
    match e
    case Tick(_) =>
    case HeartbeatSent(answer, env) => Beating(g, answer, env);
    case Orphaned(env) =>
      Registering(g, g.(keys := AfterClear(g.keys, env.unlinked)), env.afresh, env.afreshTook, env.saveAfresh);
    case StartUp(env) =>
      Registering(g, g, env.afresh, env.afreshTook, env.saveAfresh);
      Registering(g, g.(keys := AfterClear(g.keys, env.unlinked), configId := None), env.afresh, env.afreshTook,
          env.saveAfresh);
  }

  /** So it is over any stretch of a run: a wait set in it is over or stands when it ends, unless
      the agent was registered in between. */
  lemma {:induction false} NoWaitShortenedInRuns(g: Agent, events: seq<Event>)
    ensures Waited(g, Exec(g, events))
    decreases |events|
  {
    if events != [] {
      NoWaitShortened(g, events[0]);
      NoWaitShortenedInRuns(Step(g, events[0]), events[1..]);
      Then(g, Step(g, events[0]), Exec(g, events));
    }
  }
}
