/** What every run of the agent keeps of its credentials: the key in use is the key held, the
    file is true to memory, registrations are warranted, and recoveries back off
    (registration.py, heartbeat.py, credentials.py). */
module Lifecycle {
  import opened Results
  import opened Credentials
  import opened Recovery
  import opened Backoff

  // ---- What a log says ----

  function Init(log: seq<Entry>): seq<Entry>
    requires log != []
  {
    log[..|log| - 1]
  }

  function Last(log: seq<Entry>): Entry
    requires log != []
  {
    log[|log| - 1]
  }

  predicate AgainSucceeded(e: Entry) {
    e.AgainTried? && e.registered
  }

  /** recover-key called the secret void, and registering again has not succeeded since. */
  predicate VoidSince(log: seq<Entry>) {
    log != [] && (Last(log).SecretVoid? || (!AgainSucceeded(Last(log)) && VoidSince(Init(log))))
  }

  /** An answer refused the key held then, and none has taken the key held since. */
  predicate RefusedSince(log: seq<Entry>) {
    log != [] && (Last(log).KeyRefused? || (!Last(log).KeyTaken? && RefusedSince(Init(log))))
  }

  lemma {:induction false} VoidSinceMeans(log: seq<Entry>)
    ensures VoidSince(log) <==>
            exists j :: 0 <= j < |log| && log[j].SecretVoid? && forall k :: j < k < |log| ==> !AgainSucceeded(log[k])
  {
    if log != [] {
      VoidSinceMeans(Init(log));
      if VoidSince(log) && !Last(log).SecretVoid? {
        var j :| 0 <= j < |Init(log)| && Init(log)[j].SecretVoid?
            && forall k :: j < k < |Init(log)| ==> !AgainSucceeded(Init(log)[k]);
        assert log[j].SecretVoid? && forall k :: j < k < |log| ==> !AgainSucceeded(log[k]);
      }
      if j :| 0 <= j < |log| && log[j].SecretVoid? && forall k :: j < k < |log| ==> !AgainSucceeded(log[k]) {
        if j < |log| - 1 {
          assert !AgainSucceeded(Last(log));
          assert Init(log)[j].SecretVoid? && forall k :: j < k < |Init(log)| ==> !AgainSucceeded(Init(log)[k]);
        }
      }
    }
  }

  lemma {:induction false} RefusedSinceMeans(log: seq<Entry>)
    ensures RefusedSince(log) <==>
            exists j :: 0 <= j < |log| && log[j].KeyRefused? && forall k :: j < k < |log| ==> !log[k].KeyTaken?
  {
    if log != [] {
      RefusedSinceMeans(Init(log));
      if RefusedSince(log) && !Last(log).KeyRefused? {
        var j :| 0 <= j < |Init(log)| && Init(log)[j].KeyRefused?
            && forall k :: j < k < |Init(log)| ==> !Init(log)[k].KeyTaken?;
        assert log[j].KeyRefused? && forall k :: j < k < |log| ==> !log[k].KeyTaken?;
      }
      if j :| 0 <= j < |log| && log[j].KeyRefused? && forall k :: j < k < |log| ==> !log[k].KeyTaken? {
        if j < |log| - 1 {
          assert !Last(log).KeyTaken?;
          assert Init(log)[j].KeyRefused? && forall k :: j < k < |Init(log)| ==> !Init(log)[k].KeyTaken?;
        }
      }
    }
  }

  /** Every registration sent after a revoke was warranted by a void secret. */
  ghost predicate TriesWarranted(log: seq<Entry>) {
    forall i :: 0 <= i < |log| && log[i].AgainTried? ==> VoidSince(log[..i])
  }

  /** Nothing is tried again within five minutes of a failed try. */
  ghost predicate TriesSpaced(log: seq<Entry>) {
    forall i, j :: 0 <= i < j < |log| && log[i].AgainTried? && !log[i].registered && log[j].AgainTried? ==>
      log[j].at >= log[i].at + REGISTER_AGAIN_WAIT
  }

  /** The secret went out beside a key only after an answer refused the key held then, and before
      one took the key held. Which key that was, and what a key recovered in between does to it,
      is `Secrecy`'s. */
  ghost predicate SecretKeptHome(log: seq<Entry>) {
    forall i :: 0 <= i < |log| && log[i].Beat? && log[i].secretBesideKey ==> RefusedSince(log[..i])
  }

  /** When keys were recovered since the last registration. */
  function Recoveries(log: seq<Entry>): seq<real> {
    if log == [] then []
    else
      match Last(log)
      case Recovered(at, _) => Recoveries(Init(log)) + [at]
      case NewRegistration(_) => []
      case _ => Recoveries(Init(log))
  }

  // ---- The invariant ----

  /** The key in use is the key held, the id in the configuration is the id held, and the
      file is true to memory. */
  ghost predicate KeysInv(g: Agent) {
    && FileTrue(g.keys)
    && (g.keys.agentId.Some? ==> g.configId == g.keys.agentId)
    && (Truthy(g.keys.apiKey) ==> g.authKey == g.keys.apiKey)
    && (g.keys.agentId.None? ==> g.keys.apiKey.None? && g.keys.recoverySecret.None?)
  }

  ghost predicate FlagsInv(g: Agent) {
    && TriesWarranted(g.log) && TriesSpaced(g.log) && SecretKeptHome(g.log)
    && (g.secretRefused ==> VoidSince(g.log))
    && (g.keyRefused ==> RefusedSince(g.log))
    && (forall i :: 0 <= i < |g.log| && g.log[i].AgainTried? && !g.log[i].registered ==>
          g.registerAgainNotBefore >= g.log[i].at + REGISTER_AGAIN_WAIT)
  }

  ghost predicate BackoffInv(g: Agent) {
    var times := Recoveries(g.log);
    && Spaced(times)
    && g.recoveryGap == GapAfter(times)
    && (g.lastRecovered.None? <==> times == [])
    && (times != [] ==> g.lastRecovered == Some(times[|times| - 1]) && g.now >= times[|times| - 1])
    && (times != [] && g.recoveryGap > 0.0 ==> g.recoveryNotBefore >= times[|times| - 1] + g.recoveryGap)
    && g.recoveryNotBefore <= MaxReal(g.now, 0.0) + MAX_RETRY_AFTER
  }

  ghost predicate Inv(g: Agent) {
    KeysInv(g) && FlagsInv(g) && BackoffInv(g)
  }

  // ---- One more entry ----

  lemma OneMore(log: seq<Entry>, e: Entry)
    ensures Init(log + [e]) == log && Last(log + [e]) == e
    ensures TriesWarranted(log) && (e.AgainTried? ==> VoidSince(log)) ==> TriesWarranted(log + [e])
    ensures SecretKeptHome(log) && (e.Beat? && e.secretBesideKey ==> RefusedSince(log)) ==> SecretKeptHome(log + [e])
    ensures VoidSince(log + [e]) <==> e.SecretVoid? || (!AgainSucceeded(e) && VoidSince(log))
    ensures RefusedSince(log + [e]) <==> e.KeyRefused? || (!e.KeyTaken? && RefusedSince(log))
    ensures !e.Recovered? && !e.NewRegistration? ==> Recoveries(log + [e]) == Recoveries(log)
    ensures e.NewRegistration? ==> Recoveries(log + [e]) == []
    ensures e.Recovered? ==> Recoveries(log + [e]) == Recoveries(log) + [e.at]
    ensures TriesSpaced(log) && !e.AgainTried? ==> TriesSpaced(log + [e])
  {
    var more := log + [e];
    assert forall i :: 0 <= i < |log| ==> more[i] == log[i] && more[..i] == log[..i];
    assert more[..|log|] == log;
  }

  /** A quiet entry: it says nothing of keys, secrets, registrations or recoveries. */
  lemma QuietEntry(g: Agent, e: Entry)
    requires Inv(g)
    requires (e.Beat? && (e.secretBesideKey ==> RefusedSince(g.log))) || e.SecretVoid? || e.KeyRefused?
    ensures Inv(Log(g, e))
  {
    OneMore(g.log, e);
  }

  lemma KeyTakenEntry(g: Agent)
    requires Inv(g)
    ensures Inv(Log(g, KeyTaken).(keyRefused := false))
  {
    OneMore(g.log, KeyTaken);
  }

  // ---- Each function keeps it ----

  lemma LaterKeeps(g: Agent, took: real)
    requires Inv(g)
    ensures Inv(Later(g, took)) && Later(g, took).now >= g.now
  {
  }

  /** The keys of a new registration, saved or held unsaved. */
  lemma RegisteredKeys(k: Keys, id: AgentId, secret: Option<Secret>, diskTakes: bool)
    requires FileTrue(k)
    ensures var keys := if diskTakes then AfterSave(k, id, None, secret, true)
        else AfterHoldRegistration(k, id, secret);
            FileTrue(keys) && keys.agentId == Some(id) && keys.apiKey.None?
  {
  }

  lemma RegisterKeeps(g: Agent, answer: RegisterAnswer, took: real, diskTakes: bool)
    requires FileTrue(g.keys) && (answer.NotRegistered? ==> KeysInv(g)) && FlagsInv(g) && BackoffInv(g)
    ensures Inv(Register(g, answer, took, diskTakes))
    ensures var g' := Register(g, answer, took, diskTakes);
            g'.now >= g.now && g'.secretRefused == g.secretRefused
                && g'.registerAgainNotBefore == g.registerAgainNotBefore
  {
    if answer.Registered? {
      OneMore(g.log, NewRegistration(Register(g, answer, took, diskTakes).keys.recoverySecret));
      RegisteredKeys(g.keys, answer.id, answer.secret, diskTakes);
    }
  }

  lemma AfreshKeeps(g: Agent, env: Env)
    requires Inv(g)
    ensures Inv(RegisterAfresh(g, env)) && RegisterAfresh(g, env).now >= g.now
    ensures RegisterAfresh(g, env).secretRefused == g.secretRefused
    ensures RegisterAfresh(g, env).registerAgainNotBefore == g.registerAgainNotBefore
  {
    var cleared := g.(keys := AfterClear(g.keys, env.unlinked), configId := None);
    RegisterKeeps(cleared, env.afresh, env.afreshTook, env.saveAfresh);
  }

  lemma HoldBackKeeps(g: Agent, key: Secret)
    requires BackoffInv(g) && MayRecover(g)
    ensures BackoffInv(HoldBack(Log(g, Recovered(g.now, key))))
  {
    var times := Recoveries(g.log);
    OneMore(g.log, Recovered(g.now, key));
    GapBounds(times);
    SpacedOneMore(times, g.now);
    GapOneMore(times, g.now);
    GapBounds(times + [g.now]);
  }

  lemma TakeKeyKeeps(g: Agent, key: Secret, diskTakes: bool)
    requires Inv(g) && MayRecover(g) && Truthy(g.keys.recoverySecret) && g.configId.Some? && key != ""
    ensures Inv(TakeKey(g, g.configId.value, key, diskTakes))
    ensures TakeKey(g, g.configId.value, key, diskTakes).keys.recoverySecret == g.keys.recoverySecret
  {
    OneMore(g.log, Recovered(g.now, key));
    HoldBackKeeps(g, key);
    KeyKeepsSecret(g.keys, key, diskTakes);
  }

  /** A wait set when the last one is over, within the longest. */
  lemma WaitKeeps(g: Agent, wait: real)
    requires Inv(g) && g.now >= g.recoveryNotBefore && 0.0 <= wait <= MAX_RETRY_AFTER
    ensures Inv(g.(recoveryNotBefore := g.now + wait))
  {
  }

  lemma VoidKeeps(g: Agent)
    requires Inv(g)
    ensures Inv(Log(g, SecretVoid(g.keys.recoverySecret)).(secretRefused := true))
  {
    QuietEntry(g, SecretVoid(g.keys.recoverySecret));
    OneMore(g.log, SecretVoid(g.keys.recoverySecret));
  }

  lemma NoKeyKeeps(g: Agent, answer: RecoverAnswer)
    requires Inv(g) && MayRecover(g)
    ensures Inv(NoKey(g, answer))
  {
    if answer == Marked(RecoverySecretRefused) {
      VoidKeeps(g);
    } else if answer.Unmarked? {
      WaitKeeps(g, DEFAULT_RETRY_AFTER);
    } else if answer.TooMany? {
      WaitKeeps(g, RetryAfter(answer.retryAfter));
    }
  }

  lemma AnswerRecoverInv(g: Agent, env: Env)
    requires Inv(g) && MayRecover(g) && CanRecover(g)
    ensures Inv(AnswerRecover(g, env).0)
  {
    LaterKeeps(g, env.recoverTook);
    var later := Later(g, env.recoverTook);
    if GivesKey(env.recover) {
      TakeKeyKeeps(later, env.recover.key, env.saveKey);
    } else {
      NoKeyKeeps(later, env.recover);
    }
  }

  /** What asking recover-key leaves alone, whatever it answers: the agent and its recovery
      secret, and every wait already running. */
  lemma AnswerRecoverFrame(g: Agent, env: Env)
    requires MayRecover(g) && CanRecover(g) && g.keys.agentId == g.configId
    ensures var (g', recovered) := AnswerRecover(g, env);
            && g'.keys.recoverySecret == g.keys.recoverySecret && g'.keys.agentId == g.keys.agentId
                && g'.configId == g.configId
            && g'.now >= g.now && g'.registerAgainNotBefore == g.registerAgainNotBefore
            && (recovered ==> Truthy(g'.keys.apiKey))
            && (g'.secretRefused && !g.secretRefused ==> env.recover == Marked(RecoverySecretRefused))
            && g'.recoveryNotBefore >= g.recoveryNotBefore
  {
    if GivesKey(env.recover) {
      KeyKeepsSecret(g.keys, env.recover.key, env.saveKey);
    }
  }

  lemma RecoverKeeps(g: Agent, env: Env)
    requires Inv(g)
    ensures Inv(Recover(g, env).0)
    ensures var (g', recovered) := Recover(g, env);
            && g'.now >= g.now && g'.registerAgainNotBefore == g.registerAgainNotBefore
            && (recovered ==> Truthy(g'.keys.apiKey))
            && (g'.secretRefused && !g.secretRefused ==> env.recover == Marked(RecoverySecretRefused))
  {
    if MayRecover(g) {
      if !Truthy(g.keys.recoverySecret) { AfreshKeeps(g, env); }
      else if CanRecover(g) { AnswerRecoverInv(g, env); AnswerRecoverFrame(g, env); }
    }
  }

  lemma TryEntry(g: Agent, at: real, registered: bool, held: Option<Secret>)
    requires Inv(g) && VoidSince(g.log) && at >= g.registerAgainNotBefore
    ensures TriesWarranted(g.log + [AgainTried(at, registered, held)])
    ensures TriesSpaced(g.log + [AgainTried(at, registered, held)])
    ensures SecretKeptHome(g.log + [AgainTried(at, registered, held)])
    ensures RefusedSince(g.log) ==> RefusedSince(g.log + [AgainTried(at, registered, held)])
    ensures !registered ==> VoidSince(g.log + [AgainTried(at, registered, held)])
    ensures Recoveries(g.log + [AgainTried(at, registered, held)]) == Recoveries(g.log)
  {
    var e := AgainTried(at, registered, held);
    OneMore(g.log, e);
    var more := g.log + [e];
    forall i, j | 0 <= i < j < |more| && more[i].AgainTried? && !more[i].registered && more[j].AgainTried?
      ensures more[j].at >= more[i].at + REGISTER_AGAIN_WAIT
    {
      assert more[i] == g.log[i];
      if j < |g.log| { assert more[j] == g.log[j]; }
    }
  }

  lemma AgainFailed(tried: Agent, at: real, held: Option<Secret>)
    requires Inv(tried) && tried.secretRefused && tried.registerAgainNotBefore <= at <= tried.now
    ensures Inv(AfterTry(tried, at, false, held))
  {
    TryEntry(tried, at, false, held);
    var log := tried.log + [AgainTried(at, false, held)];
    forall i | 0 <= i < |log| && log[i].AgainTried? && !log[i].registered
      ensures tried.now + REGISTER_AGAIN_WAIT >= log[i].at + REGISTER_AGAIN_WAIT
    {
      if i < |tried.log| { assert log[i] == tried.log[i]; }
    }
  }

  lemma AgainDone(tried: Agent, at: real, held: Option<Secret>)
    requires Inv(tried) && tried.secretRefused && tried.registerAgainNotBefore <= at && tried.keys.apiKey.None?
    ensures Inv(AfterTry(tried, at, true, held))
  {
    TryEntry(tried, at, true, held);
    var log := tried.log + [AgainTried(at, true, held)];
    forall i | 0 <= i < |log| && log[i].AgainTried? && !log[i].registered
      ensures tried.registerAgainNotBefore >= log[i].at + REGISTER_AGAIN_WAIT
    {
      assert log[i] == tried.log[i];
    }
  }

  lemma RegisterDone(g: Agent, answer: RegisterAnswer, took: real, diskTakes: bool)
    requires answer.Registered?
    ensures Register(g, answer, took, diskTakes).keys.apiKey.None?
  {
  }

  lemma SendAgainKeeps(g: Agent, env: Env)
    requires Inv(g) && g.secretRefused && g.now >= g.registerAgainNotBefore
    ensures Inv(SendAgain(g, env).0)
    ensures SendAgain(g, env).1 ==> SendAgain(g, env).0.keys.apiKey.None?
  {
    var tried := Register(g, env.again, env.againTook, env.saveAgain);
    RegisterKeeps(g, env.again, env.againTook, env.saveAgain);
    if env.again.Registered? {
      RegisterDone(g, env.again, env.againTook, env.saveAgain);
      AgainDone(tried, g.now, g.keys.recoverySecret);
    } else {
      AgainFailed(tried, g.now, g.keys.recoverySecret);
    }
  }

  lemma RegisterAgainKeeps(g: Agent, env: Env)
    requires Inv(g)
    ensures Inv(RegisterAgain(g, env).0)
    ensures RegisterAgain(g, env).1 ==> RegisterAgain(g, env).0.keys.apiKey.None?
  {
    if g.now >= g.registerAgainNotBefore {
      if g.secretRefused {
        SendAgainKeeps(g, env);
      } else {
        RecoverKeeps(g, env);
        var (asked, recovered) := Recover(g, env);
        if !recovered && asked.secretRefused { SendAgainKeeps(asked, env); }
      }
    }
  }

  lemma RefusedEntry(g: Agent)
    requires Inv(g)
    ensures Inv(Log(g, KeyRefused(g.keys.apiKey)).(keyRefused := true))
  {
    QuietEntry(g, KeyRefused(g.keys.apiKey));
    OneMore(g.log, KeyRefused(g.keys.apiKey));
  }

  lemma RetryKeeps(g: Agent, diskTakes: bool)
    requires Inv(g)
    ensures Inv(g.(keys := AfterRetry(g.keys, diskTakes)))
  {
  }

  lemma NoteAnswerKeeps(g: Agent, keyAccepted: Option<bool>, sentSecret: bool, diskTakes: bool)
    requires Inv(g)
    ensures Inv(NoteAnswer(g, keyAccepted, sentSecret, diskTakes))
  {
    RefusedEntry(g);
    KeyTakenEntry(g);
    RetryKeeps(Log(g, KeyTaken).(keyRefused := false), diskTakes);
  }

  lemma ApproveKeeps(g: Agent, env: Env)
    requires Inv(g)
    ensures Inv(Approve(g, env))
  {
    if !(Truthy(g.keys.apiKey) && !g.keyRefused) {
      RecoverKeeps(g, env);
      var (asked, recovered) := Recover(g, env);
      if !recovered && asked.secretRefused { RegisterAgainKeeps(asked, env); }
    }
  }

  lemma BeatEntry(g: Agent)
    requires Inv(g)
    ensures Inv(Log(g, BeatOf(g)))
  {
    QuietEntry(g, BeatOf(g));
  }

  lemma BeatFlag(g: Agent, beatSecretRefused: bool, keyRefused: bool)
    requires Inv(g) && (keyRefused ==> g.keyRefused)
    ensures Inv(g.(beatSecretRefused := beatSecretRefused, keyRefused := keyRefused))
  {
  }

  lemma RefusalKeeps(g: Agent, mark: Mark, sent: bool)
    requires Inv(g)
    ensures Inv(ReadRefusal(g, mark, sent))
  {
    RefusedEntry(g);
    BeatFlag(g, true, g.keyRefused);
  }

  lemma AgainIfRefusedKeeps(g: Agent, env: Env)
    requires Inv(g)
    ensures Inv(RegisterAgainIfRefused(g, env))
  {
    RegisterAgainKeeps(g, env);
    var (asked, registered) := RegisterAgain(g, env);
    BeatFlag(asked, false, false);
  }

  lemma HeartbeatKeeps(g: Agent, answer: BeatAnswer, env: Env)
    requires Inv(g)
    ensures Inv(Heartbeat(g, answer, env))
  {
    var sent := SendsSecret(g);
    var logged := Log(g, BeatOf(g));
    BeatEntry(g);
    if answer.Accepted? {
      NoteAnswerKeeps(logged, answer.keyAccepted, sent, env.saveHeld);
      var noted := NoteAnswer(logged, answer.keyAccepted, sent, env.saveHeld);
      ApproveKeeps(noted, env);
      var approved := if answer.active then Approve(noted, env) else noted;
      BeatFlag(approved, false, approved.keyRefused);
    } else if answer.Refused? {
      RefusalKeeps(logged, answer.mark, sent);
      AgainIfRefusedKeeps(ReadRefusal(logged, answer.mark, sent), env);
    } else if answer.Other? {
      AgainIfRefusedKeeps(logged, env);
    } else {
      BeatFlag(logged, false, logged.keyRefused);
    }
  }

  lemma OrphanKeeps(g: Agent, env: Env)
    requires Inv(g)
    ensures Inv(Orphan(g, env))
  {
    var cleared := g.(keys := AfterClear(g.keys, env.unlinked));
    assert Inv(cleared);
    RegisterKeeps(cleared, env.afresh, env.afreshTook, env.saveAfresh);
  }

  lemma StepKeeps(g: Agent, e: Event)
    requires Inv(g)
    ensures Inv(Step(g, e))
  {
    if e.Tick? { LaterKeeps(g, e.dt); }
    else if e.HeartbeatSent? { HeartbeatKeeps(g, e.answer, e.env); }
    else if e.Orphaned? { OrphanKeeps(g, e.env); }
    else if g.keys.agentId.None? { RegisterKeeps(g, e.env.afresh, e.env.afreshTook, e.env.saveAfresh); }
    else { AfreshKeeps(g, e.env); }
  }

  lemma {:induction false} RunKeeps(g: Agent, events: seq<Event>)
    requires Inv(g)
    ensures Inv(Exec(g, events))
    decreases |events|
  {
    if events != [] {
      StepKeeps(g, events[0]);
      RunKeeps(Step(g, events[0]), events[1..]);
    }
  }

  // ---- Every run ----

  lemma StartedInv(now: real, file: Option<Data>, registrationKey: Option<Secret>)
    ensures Inv(Started(now, file, registrationKey))
  {
  }

  /** In every state of every run: the key in use is the key held and the id in use the id
      held; the file decodes to what memory holds unless a save is owed; every registration
      after a revoke was warranted by recover-key and its failures are five minutes apart; the
      secret left home beside a key only after a refusal of a key no answer has taken since; and
      no wait outlasts an hour. */
  lemma EveryRun(now: real, file: Option<Data>, registrationKey: Option<Secret>, events: seq<Event>)
    ensures var g := Exec(Started(now, file, registrationKey), events);
            && (Truthy(g.keys.apiKey) ==> g.authKey == g.keys.apiKey)
            && (g.keys.agentId.Some? ==> g.configId == g.keys.agentId)
            && FileTrue(g.keys)
            && TriesWarranted(g.log) && TriesSpaced(g.log) && SecretKeptHome(g.log)
            && g.recoveryNotBefore <= MaxReal(g.now, 0.0) + 3600.0
  {
    StartedInv(now, file, registrationKey);
    RunKeeps(Started(now, file, registrationKey), events);
  }

  /** In every run, any eight recoveries in a row within one registration span 63 minutes. */
  lemma EightRecoveriesSpan(now: real, file: Option<Data>, registrationKey: Option<Secret>, events: seq<Event>, i: nat)
    requires i + 7 < |Recoveries(Exec(Started(now, file, registrationKey), events).log)|
    ensures var times := Recoveries(Exec(Started(now, file, registrationKey), events).log);
            times[i + 7] - times[i] >= 3780.0
  {
    StartedInv(now, file, registrationKey);
    RunKeeps(Started(now, file, registrationKey), events);
    var times := Recoveries(Exec(Started(now, file, registrationKey), events).log);
    SpacedIsApart(times, i, i + 7);
    EightSpan(times, i, 0.0);
  }

  // ---- The file, exactly ----

  /** Nothing the event brings is an empty recovery secret. */
  predicate NoEmptySecrets(env: Env) {
    && (env.afresh.Registered? ==> env.afresh.secret != Some(""))
    && (env.again.Registered? ==> env.again.secret != Some(""))
  }

  predicate NoEmptyIn(e: Event) {
    match e
    case Tick(_) => true
    case HeartbeatSent(_, env) => NoEmptySecrets(env)
    case Orphaned(env) => NoEmptySecrets(env)
    case StartUp(env) => NoEmptySecrets(env)
  }

  lemma RegisterNoEmpty(g: Agent, answer: RegisterAnswer, took: real, diskTakes: bool)
    requires NoEmptyValues(g.keys) && (answer.Registered? ==> answer.secret != Some(""))
    ensures NoEmptyValues(Register(g, answer, took, diskTakes).keys)
  {
  }

  lemma TakeKeyNoEmpty(k: Keys, id: AgentId, key: Secret, diskTakes: bool)
    requires NoEmptyValues(k) && key != ""
    ensures NoEmptyValues(if diskTakes then AfterSave(k, id, Some(key), None, true) else AfterHoldKey(k, key))
  {
  }

  lemma RecoverNoEmpty(g: Agent, env: Env)
    requires NoEmptyValues(g.keys) && NoEmptySecrets(env)
    ensures NoEmptyValues(Recover(g, env).0.keys)
  {
    if MayRecover(g) && !Truthy(g.keys.recoverySecret) {
      RegisterNoEmpty(g.(keys := AfterClear(g.keys, env.unlinked), configId := None), env.afresh, env.afreshTook,
          env.saveAfresh);
    } else if MayRecover(g) && CanRecover(g) && GivesKey(env.recover) {
      TakeKeyNoEmpty(g.keys, g.configId.value, env.recover.key, env.saveKey);
    }
  }

  lemma AgainNoEmpty(g: Agent, env: Env)
    requires NoEmptyValues(g.keys) && NoEmptySecrets(env)
    ensures NoEmptyValues(RegisterAgain(g, env).0.keys)
  {
    RecoverNoEmpty(g, env);
    RegisterNoEmpty(g, env.again, env.againTook, env.saveAgain);
    RegisterNoEmpty(Recover(g, env).0, env.again, env.againTook, env.saveAgain);
  }

  lemma ApproveNoEmpty(g: Agent, env: Env)
    requires NoEmptyValues(g.keys) && NoEmptySecrets(env)
    ensures NoEmptyValues(Approve(g, env).keys)
  {
    RecoverNoEmpty(g, env);
    AgainNoEmpty(Recover(g, env).0, env);
  }

  lemma HeartbeatNoEmpty(g: Agent, answer: BeatAnswer, env: Env)
    requires NoEmptyValues(g.keys) && NoEmptySecrets(env)
    ensures NoEmptyValues(Heartbeat(g, answer, env).keys)
  {
    var sent := SendsSecret(g);
    var logged := Log(g, BeatOf(g));
    if answer.Accepted? {
      ApproveNoEmpty(NoteAnswer(logged, answer.keyAccepted, sent, env.saveHeld), env);
    } else if answer.Refused? {
      AgainNoEmpty(ReadRefusal(logged, answer.mark, sent), env);
    } else if answer.Other? {
      AgainNoEmpty(logged, env);
    }
  }

  lemma StepNoEmpty(g: Agent, e: Event)
    requires NoEmptyValues(g.keys) && NoEmptyIn(e)
    ensures NoEmptyValues(Step(g, e).keys)
  {
    match e
    case Tick(_) =>
    case HeartbeatSent(answer, env) => HeartbeatNoEmpty(g, answer, env);
    case Orphaned(env) =>
      RegisterNoEmpty(g.(keys := AfterClear(g.keys, env.unlinked)), env.afresh, env.afreshTook, env.saveAfresh);
    case StartUp(env) =>
      RegisterNoEmpty(g, env.afresh, env.afreshTook, env.saveAfresh);
      RegisterNoEmpty(g.(keys := AfterClear(g.keys, env.unlinked), configId := None), env.afresh, env.afreshTook,
          env.saveAfresh);
  }

  lemma {:induction false} RunNoEmpty(g: Agent, events: seq<Event>)
    requires NoEmptyValues(g.keys) && forall i :: 0 <= i < |events| ==> NoEmptyIn(events[i])
    ensures NoEmptyValues(Exec(g, events).keys)
    decreases |events|
  {
    if events != [] {
      StepNoEmpty(g, events[0]);
      RunNoEmpty(Step(g, events[0]), events[1..]);
    }
  }

  /** In every state of every run in which no secret and no key is the empty string: with an id
      held and nothing unsaved, the file is exactly what memory holds. */
  lemma FileIsExact(now: real, file: Option<Data>, registrationKey: Option<Secret>, events: seq<Event>)
    requires file.Some? ==> file.value.apiKey != Some("") && file.value.recoverySecret != Some("")
    requires forall i :: 0 <= i < |events| ==> NoEmptyIn(events[i])
    ensures var k := Exec(Started(now, file, registrationKey), events).keys;
            k.agentId.Some? && !k.unsaved ==> k.file == Some(Data(k.agentId.value, k.apiKey, k.recoverySecret))
  {
    EveryRun(now, file, registrationKey, events);
    RunNoEmpty(Started(now, file, registrationKey), events);
    var k := Exec(Started(now, file, registrationKey), events).keys;
    if k.agentId.Some? && !k.unsaved { FileIsMemory(k); }
  }

  // ---- The agent stays the same agent ----

  /** What a run without a void secret keeps. */
  predicate SameAgent(g: Agent, id: AgentId, secret: Secret) {
    && g.keys.agentId == Some(id) && g.configId == Some(id)
    && g.keys.recoverySecret == Some(secret) && secret != "" && !g.secretRefused
  }

  predicate Uneventful(e: Event) {
    !e.Orphaned? && (e.HeartbeatSent? ==> e.env.recover != Marked(RecoverySecretRefused))
  }

  lemma RecoverSameAgent(g: Agent, env: Env, id: AgentId, secret: Secret)
    requires SameAgent(g, id, secret) && env.recover != Marked(RecoverySecretRefused)
    ensures SameAgent(Recover(g, env).0, id, secret)
  {
    if MayRecover(g) && CanRecover(g) { AnswerRecoverFrame(g, env); }
  }

  lemma AgainSameAgent(g: Agent, env: Env, id: AgentId, secret: Secret)
    requires SameAgent(g, id, secret) && env.recover != Marked(RecoverySecretRefused)
    ensures SameAgent(RegisterAgain(g, env).0, id, secret) && !RegisterAgain(g, env).1
  {
    RecoverSameAgent(g, env, id, secret);
  }

  lemma HeartbeatSameAgent(g: Agent, answer: BeatAnswer, env: Env, id: AgentId, secret: Secret)
    requires SameAgent(g, id, secret) && env.recover != Marked(RecoverySecretRefused)
    ensures SameAgent(Heartbeat(g, answer, env), id, secret)
  {
    var sent := SendsSecret(g);
    var logged := Log(g, BeatOf(g));
    if answer.Accepted? {
      RecoverSameAgent(NoteAnswer(logged, answer.keyAccepted, sent, env.saveHeld), env, id, secret);
    } else if answer.Refused? {
      AgainSameAgent(ReadRefusal(logged, answer.mark, sent), env, id, secret);
    } else if answer.Other? {
      AgainSameAgent(logged, env, id, secret);
    }
  }

  /** As long as recover-key never calls the secret void and no check fetch meets a 404, an
      agent that holds a secret stays the agent it is, whatever else the server, the proxies
      and the disk do. */
  lemma {:induction false} AgentIdNeverChanges(g: Agent, events: seq<Event>, id: AgentId, secret: Secret)
    requires SameAgent(g, id, secret)
    requires forall i :: 0 <= i < |events| ==> Uneventful(events[i])
    ensures SameAgent(Exec(g, events), id, secret)
    decreases |events|
  {
    if events != [] {
      var e := events[0];
      if e.HeartbeatSent? { HeartbeatSameAgent(g, e.answer, e.env, id, secret); }
      AgentIdNeverChanges(Step(g, e), events[1..], id, secret);
    }
  }

  // ---- Registering again ----

  /** A registration that fails leaves the credentials and the configuration as they were
      when it was sent: as they are, or as asking recover-key first has left them. */
  lemma FailedAgainChangesNothing(g: Agent, env: Env)
    requires env.again.NotRegistered?
    ensures var (g', registered) := RegisterAgain(g, env);
            var sentFrom := if g.now >= g.registerAgainNotBefore && !g.secretRefused then Recover(g, env).0 else g;
            !registered && g'.keys == sentFrom.keys && g'.authKey == sentFrom.authKey
                && g'.configId == sentFrom.configId
  {
    NotRegisteredChangesNothing(g, env);
    NotRegisteredChangesNothing(Recover(g, env).0, env);
  }

  lemma NotRegisteredChangesNothing(g: Agent, env: Env)
    requires env.again.NotRegistered?
    ensures var (g', registered) := SendAgain(g, env);
            !registered && g'.keys == g.keys && g'.authKey == g.authKey && g'.configId == g.configId
  {
  }

  /** A log that ends as before or with something else than a try. */
  ghost predicate NoTryAdded(g: Agent, g': Agent) {
    |g'.log| >= |g.log| && (|g'.log| > |g.log| ==> !Last(g'.log).AgainTried?)
  }

  lemma AfreshLog(g: Agent, env: Env)
    ensures NoTryAdded(g, RegisterAfresh(g, env)) && RegisterAfresh(g, env).secretRefused == g.secretRefused
  {
  }

  lemma AnswerLog(g: Agent, env: Env)
    requires g.configId.Some?
    ensures var (g', recovered) := AnswerRecover(g, env);
            && NoTryAdded(g, g') && recovered == GivesKey(env.recover)
            && g'.secretRefused == (g.secretRefused || env.recover == Marked(RecoverySecretRefused))
  {
  }

  lemma RecoverLog(g: Agent, env: Env)
    ensures var (g', recovered) := Recover(g, env);
            && NoTryAdded(g, g')
            && (!g.secretRefused ==>
                 (!recovered && g'.secretRefused <==>
                    MayRecover(g) && CanRecover(g) && env.recover == Marked(RecoverySecretRefused)))
  {
    if MayRecover(g) && !Truthy(g.keys.recoverySecret) {
      AfreshLog(g, env);
    } else if MayRecover(g) && CanRecover(g) {
      AnswerLog(g, env);
    }
  }

  lemma SendAgainLog(g: Agent, env: Env)
    ensures |SendAgain(g, env).0.log| > |g.log| && Last(SendAgain(g, env).0.log).AgainTried?
  {
  }

  /** recover-key is asked first unless it has already called the secret void; a registration
      is then sent exactly when it has, and no failed try is less than five minutes old. */
  lemma AgainSendsExactly(g: Agent, env: Env)
    ensures var sent := RegisterAgain(g, env).0.log;
            (|sent| > |g.log| && Last(sent).AgainTried?
             <==> g.now >= g.registerAgainNotBefore
                  && (g.secretRefused || (MayRecover(g) && CanRecover(g)
                      && env.recover == Marked(RecoverySecretRefused))))
  {
    RecoverLog(g, env);
    SendAgainLog(g, env);
    SendAgainLog(Recover(g, env).0, env);
  }

  /** A key recovered later does not take the word back: with the secret once called void,
      the next refused heartbeat registers again without asking. */
  lemma RecoveryKeepsTheVerdict(g: Agent, env: Env, later: Env)
    requires g.secretRefused && g.now >= g.registerAgainNotBefore && CanRecover(g) && MayRecover(g)
    requires GivesKey(env.recover)
    ensures var recovered := Recover(g, env).0;
            && recovered.secretRefused && recovered.keys.apiKey == Some(env.recover.key)
            && RegisterAgain(recovered, later) == SendAgain(recovered, later)
  {
  }
}
