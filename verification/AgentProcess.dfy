/** The agent as an object: the methods of its registration and heartbeat parts, which change
    its fields and its credentials in place (registration.py, heartbeat.py, core.py). Each is
    the step of `Recovery` its contract names, and keeps what every run keeps. */
module AgentProcess {
  import opened Results
  import opened Credentials
  import opened Recovery
  import opened Lifecycle

  // ---- What each method keeps ----

  lemma RegisterKept(g: Agent, answer: RegisterAnswer, took: real, diskTakes: bool)
    ensures Inv(g) ==> Inv(Register(g, answer, took, diskTakes))
  {
    if Inv(g) { RegisterKeeps(g, answer, took, diskTakes); }
  }

  lemma AfreshKept(g: Agent, env: Env)
    ensures Inv(g) ==> Inv(RegisterAfresh(g, env))
  {
    if Inv(g) { AfreshKeeps(g, env); }
  }

  lemma RecoverKept(g: Agent, env: Env)
    ensures Inv(g) ==> Inv(Recover(g, env).0)
  {
    if Inv(g) { RecoverKeeps(g, env); }
  }

  lemma RegisterAgainKept(g: Agent, env: Env)
    ensures Inv(g) ==> Inv(RegisterAgain(g, env).0)
  {
    if Inv(g) { RegisterAgainKeeps(g, env); }
  }

  lemma ApproveKept(g: Agent, env: Env)
    ensures Inv(g) ==> Inv(Approve(g, env))
  {
    if Inv(g) { ApproveKeeps(g, env); }
  }

  lemma HeartbeatKept(g: Agent, answer: BeatAnswer, env: Env)
    ensures Inv(g) ==> Inv(Heartbeat(g, answer, env))
  {
    if Inv(g) { HeartbeatKeeps(g, answer, env); }
  }

  class LuxSwirlAgent {
    const credentials: AgentCredentials
    const registrationKey: Option<Secret>
    var clock: real

    // the shared configuration
    var authKey: Option<Secret>
    var configId: Option<AgentId>

    // registration
    var recoveryRefused: bool
    var recoveryNotBefore: real
    var lastRecovered: Option<real>
    var recoveryGap: real
    var secretRefused: bool
    var registerAgainNotBefore: real

    // heartbeats
    var keyRefused: bool
    var beatSecretRefused: bool

    ghost var log: seq<Entry>

    ghost function View(): Agent
      reads this, credentials
    {
      Agent(clock, credentials.View(), authKey, configId, registrationKey,
            recoveryRefused, recoveryNotBefore, lastRecovered, recoveryGap, secretRefused, registerAgainNotBefore,
            keyRefused, beatSecretRefused, log)
    }

    constructor (now: real, file: Option<Data>, registrationKey: Option<Secret>)
      ensures fresh(credentials)
      ensures View() == Started(now, file, registrationKey) && Inv(View())
    {
      credentials := new AgentCredentials(file);
      this.registrationKey := registrationKey;
      clock := now;
      authKey, configId := registrationKey, None;
      recoveryRefused, recoveryNotBefore, lastRecovered, recoveryGap := false, 0.0, None, 0.0;
      secretRefused, registerAgainNotBefore := false, 0.0;
      keyRefused, beatSecretRefused := false, false;
      log := [];
      new;
      var loaded := credentials.Load();
      if loaded {
        configId := credentials.agentId;
        if Truthy(credentials.apiKey) { authKey := credentials.apiKey; }
      }
      StartedInv(now, file, registrationKey);
    }

    method Wait(took: real)
      modifies this`clock
      ensures View() == Later(old(View()), took)
    {
      if took > 0.0 { clock := clock + took; }
    }

    // ---- Registration ----

    method RegisterWithServer(answer: RegisterAnswer, took: real, diskTakes: bool) returns (registered: bool)
      modifies this, credentials
      ensures View() == Register(old(View()), answer, took, diskTakes) && registered == answer.Registered?
      ensures old(Inv(View())) ==> Inv(View())
    {
      RegisterKept(View(), answer, took, diskTakes);
      Wait(took);
      if answer.NotRegistered? { return false; }
      KeepRegistration(answer.id, answer.secret, diskTakes);
      return true;
    }

    /** A new registration's credentials, saved or held unsaved. */
    method KeepRegistration(id: AgentId, secret: Option<Secret>, diskTakes: bool)
      modifies this, credentials
      ensures View() == TakeRegistration(old(View()), id, secret, diskTakes)
    {
      var saved := credentials.Save(id, None, secret, diskTakes);
      if !saved { credentials.HoldUnsavedRegistration(id, secret); }
      configId := Some(id);
      recoveryRefused, recoveryNotBefore, lastRecovered, recoveryGap := false, 0.0, None, 0.0;
      log := log + [NewRegistration(credentials.recoverySecret)];
    }

    method RegisterAfreshNow(env: Env)
      modifies this, credentials
      ensures View() == RegisterAfresh(old(View()), env)
      ensures old(Inv(View())) ==> Inv(View())
    {
      AfreshKept(View(), env);
      var cleared := credentials.Clear(env.unlinked);
      configId := None;
      var registered := RegisterWithServer(env.afresh, env.afreshTook, env.saveAfresh);
    }

    /** A recovery soon after another doubles the wait before the next one, and any other ends it. */
    method HoldBackRepeatedRecovery()
      modifies this
      ensures View() == HoldBack(old(View()))
    {
      if lastRecovered.Some? && clock - lastRecovered.value < REPEAT_WINDOW {
        recoveryGap := MinReal(MaxReal(recoveryGap * 2.0, MIN_GAP), REPEAT_WINDOW);
        recoveryNotBefore := clock + recoveryGap;
      } else {
        recoveryGap := 0.0;
      }
      lastRecovered := Some(clock);
    }

    /** A recovered key is used at once, saved or held unsaved. */
    method KeepKey(id: AgentId, key: Secret, diskTakes: bool)
      modifies this`authKey, credentials
      ensures authKey == Some(key)
      ensures credentials.View() == if diskTakes then AfterSave(old(credentials.View()), id, Some(key), None, true)
                                    else AfterHoldKey(old(credentials.View()), key)
    {
      var saved := credentials.Save(id, Some(key), None, diskTakes);
      if !saved { credentials.HoldUnsaved(key); }
      authKey := Some(key);
    }

    /** A key recover-key gave. */
    method UseKey(id: AgentId, key: Secret, diskTakes: bool)
      modifies this, credentials
      ensures View() == TakeKey(old(View()), id, key, diskTakes)
    {
      log := log + [Recovered(clock, key)];
      HoldBackRepeatedRecovery();
      KeepKey(id, key, diskTakes);
    }

    /** The request itself, and what its answer sets. */
    method AskForKey(env: Env) returns (recovered: bool)
      requires configId.Some?
      modifies this, credentials
      ensures (View(), recovered) == AnswerRecover(old(View()), env)
    {
      Wait(env.recoverTook);
      match env.recover {
        case Key(key) =>
          if key == "" { return false; }
          UseKey(configId.value, key, env.saveKey);
          return true;
        case Unmarked =>
          recoveryNotBefore := clock + DEFAULT_RETRY_AFTER;
        case Marked(mark) =>
          if mark == RecoverySecretRefused {
            secretRefused := true;
            log := log + [SecretVoid(credentials.recoverySecret)];
          } else if mark == RegistrationKeyRefused {
            recoveryRefused := true;
          }
        case TooMany(retryAfter) =>
          recoveryNotBefore := clock + RetryAfter(retryAfter);
        case Failed =>
      }
      return false;
    }

    method RecoverAgentKey(env: Env) returns (recovered: bool)
      modifies this, credentials
      ensures (View(), recovered) == Recover(old(View()), env)
      ensures old(Inv(View())) ==> Inv(View())
    {
      RecoverKept(View(), env);
      if recoveryRefused || clock < recoveryNotBefore { return false; }
      if !Truthy(credentials.recoverySecret) {
        RegisterAfreshNow(env);
        return false;
      }
      if configId.None? || !Truthy(registrationKey) { return false; }
      recovered := AskForKey(env);
    }

    /** The registration itself, and the wait a failed one sets. */
    method RegisterInPlace(env: Env) returns (registered: bool)
      modifies this, credentials
      ensures (View(), registered) == SendAgain(old(View()), env)
    {
      ghost var at, held := clock, credentials.recoverySecret;
      registered := RegisterWithServer(env.again, env.againTook, env.saveAgain);
      log := log + [AgainTried(at, registered, held)];
      if registered {
        secretRefused := false;
        authKey := registrationKey;
      } else {
        registerAgainNotBefore := clock + REGISTER_AGAIN_WAIT;
      }
    }

    method RegisterAgainAfterRevoke(env: Env) returns (registered: bool)
      modifies this, credentials
      ensures (View(), registered) == RegisterAgain(old(View()), env)
      ensures old(Inv(View())) ==> Inv(View())
    {
      RegisterAgainKept(View(), env);
      if clock < registerAgainNotBefore { return false; }
      if !secretRefused {
        var recovered := RecoverAgentKey(env);
        if recovered || !secretRefused { return false; }
      }
      registered := RegisterInPlace(env);
    }

    // ---- Heartbeats ----

    method NoteKeyRefused()
      modifies this
      ensures View() == Log(old(View()), KeyRefused(old(View()).keys.apiKey)).(keyRefused := true)
    {
      keyRefused := true;
      log := log + [KeyRefused(credentials.apiKey)];
    }

    /** The first part of a 200: what it says of the agent's own key. */
    method ReadOwnKey(keyAccepted: Option<bool>, sentSecret: bool, diskTakes: bool)
      modifies this, credentials
      ensures View() == NoteAnswer(old(View()), keyAccepted, sentSecret, diskTakes)
    {
      var refused: Option<bool> := None;
      if !Truthy(credentials.apiKey) { refused := Some(false); }
      else if keyAccepted.Some? { refused := Some(!keyAccepted.value); }
      else if !sentSecret { refused := Some(false); }
      if refused == Some(true) {
        NoteKeyRefused();
      } else if refused == Some(false) {
        keyRefused := false;
        log := log + [KeyTaken];
        credentials.RetryUnsaved(diskTakes);
      }
    }

    method HandleAgentApproval(env: Env)
      modifies this, credentials
      ensures View() == Approve(old(View()), env)
      ensures old(Inv(View())) ==> Inv(View())
    {
      ApproveKept(View(), env);
      if Truthy(credentials.apiKey) && !keyRefused { return; }
      var recovered := RecoverAgentKey(env);
      if recovered {
        keyRefused := false;
      } else if secretRefused {
        var registered := RegisterAgainAfterRevoke(env);
      }
    }

    method ReadMarkedRefusal(mark: Mark, sentSecret: bool)
      modifies this
      ensures View() == ReadRefusal(old(View()), mark, sentSecret)
    {
      if !sentSecret {
        if Truthy(credentials.apiKey) && (mark == AgentKeyRefused
            || mark == RegistrationKeyRefused) { NoteKeyRefused(); }
        return;
      }
      if mark == RecoverySecretRefused { beatSecretRefused := true; }
    }

    method RegisterAgainWhileRefused(env: Env)
      modifies this, credentials
      ensures View() == RegisterAgainIfRefused(old(View()), env)
    {
      if !beatSecretRefused { return; }
      var registered := RegisterAgainAfterRevoke(env);
      if registered { beatSecretRefused, keyRefused := false, false; }
    }

    /** A 200 that parses. */
    method HandleAnswer(active: bool, keyAccepted: Option<bool>, sentSecret: bool, env: Env)
      modifies this, credentials
      ensures var noted := NoteAnswer(old(View()), keyAccepted, sentSecret, env.saveHeld);
              View() == (if active then Approve(noted, env) else noted).(beatSecretRefused := false)
    {
      ReadOwnKey(keyAccepted, sentSecret, env.saveHeld);
      if active { HandleAgentApproval(env); }
      beatSecretRefused := false;
    }

    method SendHeartbeat(answer: BeatAnswer, env: Env)
      modifies this, credentials
      ensures View() == Heartbeat(old(View()), answer, env)
      ensures old(Inv(View())) ==> Inv(View())
    {
      var sentSecret := Truthy(credentials.recoverySecret) && (!Truthy(credentials.apiKey) || keyRefused);
      log := log + [Beat(sentSecret && Truthy(credentials.apiKey), credentials.apiKey)];
      match answer {
        case Silent =>
        case Accepted(active, keyAccepted) =>
          HandleAnswer(active, keyAccepted, sentSecret, env);
        case Garbled =>
          beatSecretRefused := false;
        case Refused(mark) =>
          ReadMarkedRefusal(mark, sentSecret);
          RegisterAgainWhileRefused(env);
        case Other =>
          RegisterAgainWhileRefused(env);
      }
      HeartbeatKept(old(View()), answer, env);
    }
  }
}
