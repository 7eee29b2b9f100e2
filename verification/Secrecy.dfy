/** When the recovery secret leaves the agent beside a key: as it should, beside a key an answer
    has refused, and exactly when it goes beside one no answer has refused (registration.py,
    heartbeat.py). */
module Secrecy {
  import opened Results
  import opened Credentials
  import opened Recovery
  import opened Lifecycle
  import opened Schedules

  // ---- What a log says of keys ----

  /** An answer refused this very key, and none has taken the key held since. */
  ghost predicate StandsRefused(log: seq<Entry>, key: Option<Secret>) {
    exists j :: 0 <= j < |log| && log[j] == KeyRefused(key) && forall k :: j < k < |log| ==> !log[k].KeyTaken?
  }

  /** Every heartbeat that carried the secret beside a key did so beside one that stood refused. */
  ghost predicate OnlyBesideRefused(log: seq<Entry>) {
    forall i :: 0 <= i < |log| && log[i].Beat? && log[i].secretBesideKey ==> StandsRefused(log[..i], log[i].key)
  }

  /** The server gives no key that was refused before. */
  ghost predicate KeysAreNew(log: seq<Entry>) {
    forall i :: 0 <= i < |log| && log[i].Recovered? ==> KeyRefused(Some(log[i].given)) !in log[..i]
  }

  /** A key was recovered, and no answer has taken or refused one since. */
  predicate RecoveredSince(log: seq<Entry>) {
    log != [] && (Last(log).Recovered? || (!Last(log).KeyRefused? && !Last(log).KeyTaken? && RecoveredSince(Init(log))))
  }

  lemma OneMoreEntry(log: seq<Entry>, e: Entry)
    ensures Init(log + [e]) == log && Last(log + [e]) == e
    ensures RecoveredSince(log + [e]) <==> e.Recovered? || (!e.KeyRefused? && !e.KeyTaken? && RecoveredSince(log))
  {
    assert (log + [e])[..|log|] == log;
  }

  /** The key recovered last has not been refused since. */
  ghost predicate GivenLast(log: seq<Entry>, key: Secret) {
    exists r :: 0 <= r < |log| && log[r].Recovered? && log[r].given == key
                && forall k :: r < k < |log| ==> !log[k].KeyRefused?
  }

  lemma GivenStays(log: seq<Entry>, e: Entry, key: Secret)
    requires GivenLast(log, key) && !e.KeyRefused?
    ensures GivenLast(log + [e], key)
  {
    var r :| 0 <= r < |log| && log[r].Recovered? && log[r].given == key
        && forall k :: r < k < |log| ==> !log[k].KeyRefused?;
    var more := log + [e];
    assert more[r].Recovered? && more[r].given == key;
  }

  lemma RefusedStays(log: seq<Entry>, e: Entry, key: Option<Secret>)
    requires StandsRefused(log, key) && !e.KeyTaken?
    ensures StandsRefused(log + [e], key)
  {
    var j :| 0 <= j < |log| && log[j] == KeyRefused(key) && forall k :: j < k < |log| ==> !log[k].KeyTaken?;
    assert (log + [e])[j] == KeyRefused(key);
  }

  lemma JustRefused(log: seq<Entry>, key: Option<Secret>)
    ensures StandsRefused(log + [KeyRefused(key)], key)
  {
    assert (log + [KeyRefused(key)])[|log|] == KeyRefused(key);
  }

  lemma JustGiven(log: seq<Entry>, at: real, key: Secret)
    ensures GivenLast(log + [Recovered(at, key)], key)
  {
    assert (log + [Recovered(at, key)])[|log|].Recovered?;
  }

  lemma GivenIsNotRefused(log: seq<Entry>, key: Secret)
    requires GivenLast(log, key) && KeysAreNew(log)
    ensures !StandsRefused(log, Some(key))
  {
    var r :| 0 <= r < |log| && log[r].Recovered? && log[r].given == key
        && forall k :: r < k < |log| ==> !log[k].KeyRefused?;
    forall k | 0 <= k < |log| ensures log[k] != KeyRefused(Some(key)) {
      if k < r { assert log[..r][k] == log[k]; }
    }
  }

  // ---- What every run keeps ----

  /** While the agent takes its key to be refused: an answer refused that very key, or the key
      was recovered since the last answer that took or refused one. */
  ghost predicate KnowsItsKey(g: Agent) {
    && (g.keyRefused && Truthy(g.keys.apiKey) && !RecoveredSince(g.log) ==> StandsRefused(g.log, g.keys.apiKey))
    && (RecoveredSince(g.log) && Truthy(g.keys.apiKey) ==> GivenLast(g.log, g.keys.apiKey.value))
  }

  /** The next heartbeat carries the secret beside a key recovered since the last answer that
      took or refused one. */
  predicate Exposed(g: Agent) {
    g.keyRefused && Truthy(g.keys.apiKey) && Truthy(g.keys.recoverySecret) && RecoveredSince(g.log)
  }

  /** What follows a state without a heartbeat in between. */
  ghost predicate Follows(g: Agent, g': Agent) {
    && g.log <= g'.log && (forall i :: |g.log| <= i < |g'.log| ==> !g'.log[i].Beat?)
    && (KnowsItsKey(g) ==> KnowsItsKey(g'))
  }

  lemma Then(g: Agent, g': Agent, g'': Agent)
    requires Follows(g, g') && Follows(g', g'')
    ensures Follows(g, g'')
  {
    forall i | |g.log| <= i < |g'.log| ensures !g''.log[i].Beat? {
      assert g'.log[i] == g''.log[i];
    }
  }

  lemma KnownStays(g: Agent, e: Entry)
    requires !e.KeyRefused? && !e.KeyTaken? && !e.Recovered?
    ensures KnowsItsKey(g) ==> KnowsItsKey(Log(g, e))
  {
    OneMoreEntry(g.log, e);
    if KnowsItsKey(g) && Truthy(g.keys.apiKey) {
      if RecoveredSince(g.log) { GivenStays(g.log, e, g.keys.apiKey.value); }
      else if g.keyRefused { RefusedStays(g.log, e, g.keys.apiKey); }
    }
  }

  /** An entry that neither takes, refuses nor recovers a key, with the keys kept or dropped. */
  lemma Noting(g: Agent, g': Agent, e: Entry)
    requires g'.log == g.log + [e] && (e.SecretVoid? || e.NewRegistration? || e.AgainTried?)
    requires (g'.keyRefused ==> g.keyRefused) && (g'.keys.apiKey == g.keys.apiKey || !Truthy(g'.keys.apiKey))
    ensures Follows(g, g') && RecoveredSince(g'.log) == RecoveredSince(g.log)
  {
    OneMoreEntry(g.log, e);
    KnownStays(g, e);
  }

  /** Nothing noted, the keys kept or dropped. */
  lemma Moving(g: Agent, g': Agent)
    requires g'.log == g.log
    requires (g'.keyRefused ==> g.keyRefused) && (g'.keys.apiKey == g.keys.apiKey || !Truthy(g'.keys.apiKey))
    ensures Follows(g, g') && RecoveredSince(g'.log) == RecoveredSince(g.log)
  {
  }

  lemma Registering(g: Agent, answer: RegisterAnswer, took: real, diskTakes: bool)
    ensures var g' := Register(g, answer, took, diskTakes);
            Follows(g, g') && RecoveredSince(g'.log) == RecoveredSince(g.log) && g'.keyRefused == g.keyRefused
            && (g'.keys.apiKey == g.keys.apiKey || !Truthy(g'.keys.apiKey))
  {
    var g' := Register(g, answer, took, diskTakes);
    match answer
    case NotRegistered => Moving(g, g');
    case Registered(_, _) => Noting(g, g', NewRegistration(g'.keys.recoverySecret));
  }

  lemma RegisteringAfresh(g: Agent, env: Env)
    ensures var g' := RegisterAfresh(g, env);
            Follows(g, g') && RecoveredSince(g'.log) == RecoveredSince(g.log) && !Truthy(g'.keys.apiKey)
            && g'.keyRefused == g.keyRefused
  {
    var cleared := g.(keys := AfterClear(g.keys, env.unlinked), configId := None);
    Moving(g, cleared);
    Registering(cleared, env.afresh, env.afreshTook, env.saveAfresh);
    Then(g, cleared, RegisterAfresh(g, env));
  }

  lemma TakingKey(g: Agent, id: AgentId, key: Secret, diskTakes: bool)
    ensures var g' := TakeKey(g, id, key, diskTakes);
            Follows(g, g') && RecoveredSince(g'.log) && g'.keyRefused == g.keyRefused && g'.keys.apiKey == Some(key)
  {
    OneMoreEntry(g.log, Recovered(g.now, key));
    JustGiven(g.log, g.now, key);
  }

  /** No key any more, or the same key and secret. */
  predicate SameKeysOrNone(g: Agent, g': Agent) {
    Truthy(g'.keys.apiKey) ==>
      g'.keys.apiKey == g.keys.apiKey && g'.keys.recoverySecret == g.keys.recoverySecret
  }

  lemma GettingNone(g: Agent, answer: RecoverAnswer)
    ensures Follows(g, NoKey(g, answer)) && RecoveredSince(NoKey(g, answer).log) == RecoveredSince(g.log)
  {
    if answer == Marked(RecoverySecretRefused) {
      Noting(g, NoKey(g, answer), SecretVoid(g.keys.recoverySecret));
    } else {
      Moving(g, NoKey(g, answer));
    }
  }

  /** Asking for a key leaves the mark on the key standing, and, when it gives none, the key
      and what was said of it. */
  lemma Recovering(g: Agent, env: Env)
    ensures var (g', recovered) := Recover(g, env);
            && Follows(g, g') && g'.keyRefused == g.keyRefused && g'.beatSecretRefused == g.beatSecretRefused
            && (recovered <==> MayRecover(g) && CanRecover(g) && GivesKey(env.recover))
            && (!recovered ==> RecoveredSince(g'.log) == RecoveredSince(g.log) && SameKeysOrNone(g, g'))
            && (recovered ==> RecoveredSince(g'.log) && Truthy(g'.keys.apiKey))
  {
    if MayRecover(g) && !Truthy(g.keys.recoverySecret) {
      RegisteringAfresh(g, env);
    } else if MayRecover(g) && CanRecover(g) {
      var later := Later(g, env.recoverTook);
      Moving(g, later);
      if GivesKey(env.recover) {
        TakingKey(later, g.configId.value, env.recover.key, env.saveKey);
      } else {
        GettingNone(later, env.recover);
      }
      Then(g, later, AnswerRecover(g, env).0);
    } else {
      Moving(g, g);
    }
  }

  lemma Sending(g: Agent, env: Env)
    ensures var (g', registered) := SendAgain(g, env);
            && Follows(g, g') && RecoveredSince(g'.log) == RecoveredSince(g.log) && g'.keyRefused == g.keyRefused
            && SameKeysOrNone(g, g')
            && (registered ==> !Truthy(g'.keys.apiKey))
  {
    var tried := Register(g, env.again, env.againTook, env.saveAgain);
    Registering(g, env.again, env.againTook, env.saveAgain);
    var g' := SendAgain(g, env).0;
    Noting(tried, g', AgainTried(g.now, env.again.Registered?, g.keys.recoverySecret));
    Then(g, tried, g');
  }

  /** Whether registering again after a revoke would recover a key instead. */
  predicate Gives(g: Agent, env: Env) {
    g.now >= g.registerAgainNotBefore && !g.secretRefused && MayRecover(g) && CanRecover(g) && GivesKey(env.recover)
  }

  lemma RegisteringAgain(g: Agent, env: Env)
    requires KeysInv(g)
    ensures var (g', registered) := RegisterAgain(g, env);
            && Follows(g, g') && g'.keyRefused == g.keyRefused
            && (registered ==> !Truthy(g'.keys.apiKey))
            && (Gives(g, env) ==> !registered && RecoveredSince(g'.log)
                                  && Truthy(g'.keys.apiKey) && Truthy(g'.keys.recoverySecret))
            && (!Gives(g, env) ==> (Exposed(g') ==> Exposed(g)))
  {
    if g.now >= g.registerAgainNotBefore && g.secretRefused {
      Sending(g, env);
    } else if g.now >= g.registerAgainNotBefore {
      var (asked, recovered) := Recover(g, env);
      Recovering(g, env);
      if Gives(g, env) { AnswerRecoverFrame(g, env); }
      if !recovered && asked.secretRefused {
        Sending(asked, env);
        Then(g, asked, SendAgain(asked, env).0);
      }
    } else {
      Moving(g, g);
    }
  }

  lemma Approving(g: Agent, env: Env)
    requires Inv(g)
    ensures Follows(g, Approve(g, env)) && (Exposed(Approve(g, env)) ==> Exposed(g))
  {
    if Truthy(g.keys.apiKey) && !g.keyRefused {
      Moving(g, g);
    } else {
      var (asked, recovered) := Recover(g, env);
      Recovering(g, env);
      RecoverKeeps(g, env);
      if recovered {
        Moving(asked, asked.(keyRefused := false));
        Then(g, asked, asked.(keyRefused := false));
      } else if asked.secretRefused {
        RegisteringAgain(asked, env);
        Then(g, asked, RegisterAgain(asked, env).0);
      }
    }
  }

  lemma Refusing(g: Agent)
    ensures var g' := Log(g, KeyRefused(g.keys.apiKey)).(keyRefused := true); Follows(g, g') && !RecoveredSince(g'.log)
  {
    OneMoreEntry(g.log, KeyRefused(g.keys.apiKey));
    JustRefused(g.log, g.keys.apiKey);
  }

  lemma Taking(g: Agent, keys: Keys)
    ensures var g' := Log(g, Entry.KeyTaken).(keyRefused := false, keys := keys); Follows(g, g') && !Exposed(g')
  {
    OneMoreEntry(g.log, Entry.KeyTaken);
  }

  lemma Hearing(g: Agent, keyAccepted: Option<bool>, sent: bool, diskTakes: bool)
    ensures var g' := NoteAnswer(g, keyAccepted, sent, diskTakes); Follows(g, g') && (Exposed(g') ==> Exposed(g))
  {
    match OwnKeyRefused(g, keyAccepted, sent)
    case Some(true) => Refusing(g);
    case Some(false) => Taking(g, AfterRetry(g.keys, diskTakes));
    case None => Moving(g, g);
  }

  lemma Reading(g: Agent, mark: Mark, sent: bool)
    ensures var g' := ReadRefusal(g, mark, sent); Follows(g, g') && (Exposed(g') ==> Exposed(g))
  {
    if ReadRefusal(g, mark, sent).log == g.log {
      Moving(g, ReadRefusal(g, mark, sent));
    } else {
      Refusing(g);
    }
  }

  /** Registering again while the secret stands refused: what it exposes is a key it recovers
      while the agent takes its key to be refused. */
  lemma Answering(g: Agent, env: Env)
    requires Inv(g)
    ensures var g' := RegisterAgainIfRefused(g, env);
            && Follows(g, g')
            && (g.beatSecretRefused && g.keyRefused && Gives(g, env) ==> Exposed(g'))
            && (Exposed(g') ==> (g.beatSecretRefused && g.keyRefused && Gives(g, env)) || Exposed(g))
  {
    if g.beatSecretRefused {
      var (asked, registered) := RegisterAgain(g, env);
      RegisteringAgain(g, env);
      Moving(asked, RegisterAgainIfRefused(g, env));
      Then(g, asked, RegisterAgainIfRefused(g, env));
    } else {
      Moving(g, g);
    }
  }

  // ---- A step ----

  /** The agent once it has read a heartbeat's refusal. */
  function Told(g: Agent, answer: BeatAnswer): Agent {
    if answer.Refused? then ReadRefusal(Log(g, BeatOf(g)), answer.mark, SendsSecret(g)) else Log(g, BeatOf(g))
  }

  /** The step that goes wrong: a heartbeat that is not taken, while the secret stands refused
      and the agent takes its key to be refused, and recover-key gives a key after all. The key
      is new, and the mark on the old one stays. */
  predicate CarriesOver(g: Agent, e: Event) {
    && e.HeartbeatSent? && (e.answer.Refused? || e.answer.Other?)
    && var told := Told(g, e.answer); told.beatSecretRefused && told.keyRefused && Gives(told, e.env)
  }

  /** The heartbeat itself goes out first, and says what it carries. */
  ghost predicate BeatsOnce(g: Agent, g': Agent) {
    && g.log + [BeatOf(g)] <= g'.log && (forall i :: |g.log| < i < |g'.log| ==> !g'.log[i].Beat?)
    && (KnowsItsKey(g) ==> KnowsItsKey(g'))
  }

  lemma BeatNoted(g: Agent)
    ensures var logged := Log(g, BeatOf(g));
            (KnowsItsKey(g) ==> KnowsItsKey(logged)) && Exposed(logged) == Exposed(g)
  {
    OneMoreEntry(g.log, BeatOf(g));
    KnownStays(g, BeatOf(g));
  }

  lemma Sent(g: Agent, g': Agent)
    requires Follows(Log(g, BeatOf(g)), g')
    ensures BeatsOnce(g, g')
  {
    BeatNoted(g);
  }

  lemma Accepting(logged: Agent, active: bool, keyAccepted: Option<bool>, sent: bool, env: Env)
    requires Inv(logged)
    ensures var noted := NoteAnswer(logged, keyAccepted, sent, env.saveHeld);
            var g' := (if active then Approve(noted, env) else noted).(beatSecretRefused := false);
            Follows(logged, g') && (Exposed(g') ==> Exposed(logged))
  {
    var noted := NoteAnswer(logged, keyAccepted, sent, env.saveHeld);
    Hearing(logged, keyAccepted, sent, env.saveHeld);
    NoteAnswerKeeps(logged, keyAccepted, sent, env.saveHeld);
    var approved := if active then Approve(noted, env) else noted;
    if active { Approving(noted, env); } else { Moving(noted, noted); }
    Then(logged, noted, approved);
    Moving(approved, approved.(beatSecretRefused := false));
    Then(logged, approved, approved.(beatSecretRefused := false));
  }

  lemma Beating(g: Agent, answer: BeatAnswer, env: Env)
    requires Inv(g)
    ensures var g' := Heartbeat(g, answer, env);
            && BeatsOnce(g, g')
            && (CarriesOver(g, HeartbeatSent(answer, env)) ==> Exposed(g'))
            && (Exposed(g') ==> CarriesOver(g, HeartbeatSent(answer, env)) || Exposed(g))
  {
    var logged, g' := Log(g, BeatOf(g)), Heartbeat(g, answer, env);
    BeatNoted(g);
    BeatEntry(g);
    match answer {
      case Accepted(active, keyAccepted) => Accepting(logged, active, keyAccepted, SendsSecret(g), env);
      case Refused(mark) =>
        Reading(logged, mark, SendsSecret(g));
        RefusalKeeps(logged, mark, SendsSecret(g));
        Answering(Told(g, answer), env);
        Then(logged, Told(g, answer), g');
      case Other => Answering(logged, env);
      case _ => Moving(logged, g');
    }
    Sent(g, g');
  }

  /** Between heartbeats nothing is sent and nothing exposed; only losing the key ends it. */
  lemma Waiting(g: Agent, e: Event)
    requires Inv(g) && !e.HeartbeatSent?
    ensures Follows(g, Step(g, e)) && (Exposed(Step(g, e)) ==> Exposed(g) && !e.Orphaned?)
    ensures Exposed(g) && !e.Orphaned? ==> Exposed(Step(g, e))
  {
    match e
    case Tick(_) => Moving(g, Step(g, e));
    case Orphaned(env) =>
      var cleared := g.(keys := AfterClear(g.keys, env.unlinked));
      Moving(g, cleared);
      Registering(cleared, env.afresh, env.afreshTook, env.saveAfresh);
      Then(g, cleared, Register(cleared, env.afresh, env.afreshTook, env.saveAfresh));
    case StartUp(env) =>
      Registering(g, env.afresh, env.afreshTook, env.saveAfresh);
      RegisteringAfresh(g, env);
      Moving(g, g);
  }

  // ---- Whole runs ----

  lemma StepKnows(g: Agent, e: Event)
    requires Inv(g) && KnowsItsKey(g)
    ensures Inv(Step(g, e)) && KnowsItsKey(Step(g, e))
  {
    StepKeeps(g, e);
    if e.HeartbeatSent? { Beating(g, e.answer, e.env); } else { Waiting(g, e); }
  }

  lemma {:induction false} RunKnows(g: Agent, events: seq<Event>)
    requires Inv(g) && KnowsItsKey(g)
    ensures Inv(Exec(g, events)) && KnowsItsKey(Exec(g, events))
    decreases |events|
  {
    if events != [] {
      StepKnows(g, events[0]);
      RunKnows(Step(g, events[0]), events[1..]);
    }
  }

  lemma Known(start: Agent, events: seq<Event>, n: nat)
    requires Inv(start) && KnowsItsKey(start) && n <= |events|
    ensures Inv(Before(start, events, n)) && KnowsItsKey(Before(start, events, n))
  {
    RunKnows(start, events[..n]);
  }

  /** A heartbeat that carries the secret beside a key: the key stands refused unless the state
      is exposed, and when keys are new, only then. */
  lemma BesideUnrefused(g: Agent)
    requires Inv(g) && KnowsItsKey(g) && BeatOf(g).secretBesideKey
    ensures !Exposed(g) ==> StandsRefused(g.log, g.keys.apiKey)
    ensures Exposed(g) && KeysAreNew(g.log) ==> !StandsRefused(g.log, g.keys.apiKey)
  {
    if Exposed(g) && KeysAreNew(g.log) { GivenIsNotRefused(g.log, g.keys.apiKey.value); }
  }

  /** What was judged of a log stays so, and the one heartbeat after it is judged by its state. */
  ghost predicate Judged(log: seq<Entry>, log': seq<Entry>, exposed: bool) {
    && (OnlyBesideRefused(log) && !exposed ==> OnlyBesideRefused(log'))
    && (KeysAreNew(log') ==> KeysAreNew(log) && (OnlyBesideRefused(log') ==> OnlyBesideRefused(log) && !exposed))
  }

  lemma BeforeHolds(log: seq<Entry>, more: seq<Entry>)
    requires log <= more && OnlyBesideRefused(more)
    ensures OnlyBesideRefused(log)
  {
    forall i | 0 <= i < |log| ensures more[i] == log[i] && more[..i] == log[..i] {}
  }

  lemma BeatJudged(g: Agent, g': Agent)
    requires Inv(g) && KnowsItsKey(g) && BeatsOnce(g, g')
    ensures Judged(g.log, g'.log, Exposed(g))
  {
    var at := |g.log|;
    assert g'.log[at] == BeatOf(g) && g'.log[..at] == g.log;
    forall i | 0 <= i < at ensures g'.log[i] == g.log[i] && g'.log[..i] == g.log[..i] {}
    if BeatOf(g).secretBesideKey { BesideUnrefused(g); }
    if KeysAreNew(g'.log) { NewBefore(g.log, g'.log); }
    if OnlyBesideRefused(g'.log) { BeforeHolds(g.log, g'.log); }
  }

  lemma NewBefore(log: seq<Entry>, more: seq<Entry>)
    requires log <= more && KeysAreNew(more)
    ensures KeysAreNew(log)
  {
    forall i | 0 <= i < |log| ensures more[i] == log[i] && more[..i] == log[..i] {}
  }

  lemma QuietJudged(g: Agent, g': Agent)
    requires Follows(g, g')
    ensures Judged(g.log, g'.log, false)
  {
    forall i | 0 <= i < |g.log| ensures g'.log[i] == g.log[i] && g'.log[..i] == g.log[..i] {}
    if KeysAreNew(g'.log) { NewBefore(g.log, g'.log); }
    if OnlyBesideRefused(g'.log) { BeforeHolds(g.log, g'.log); }
  }

  /** Whether the heartbeat that is the q-th event goes out exposed. */
  predicate SentExposed(start: Agent, events: seq<Event>, q: nat)
    requires q < |events|
  {
    events[q].HeartbeatSent? && Exposed(Before(start, events, q))
  }

  lemma StepJudged(g: Agent, e: Event)
    requires Inv(g) && KnowsItsKey(g)
    ensures Judged(g.log, Step(g, e).log, e.HeartbeatSent? && Exposed(g))
  {
    if e.HeartbeatSent? {
      Beating(g, e.answer, e.env);
      BeatJudged(g, Step(g, e));
    } else {
      Waiting(g, e);
      QuietJudged(g, Step(g, e));
    }
  }

  lemma StepExposes(g: Agent, e: Event)
    requires Inv(g) && Exposed(Step(g, e))
    ensures CarriesOver(g, e) || (Exposed(g) && !e.Orphaned?)
  {
    if e.HeartbeatSent? { Beating(g, e.answer, e.env); } else { Waiting(g, e); }
  }

  lemma Unmoved(start: Agent, events: seq<Event>)
    ensures Before(start, events, 0) == start
  {
    assert events[..0] == [];
  }

  /** What the n-th event makes of the judgement, and of an exposed state. */
  ghost predicate Linked(start: Agent, events: seq<Event>, n: nat)
    requires n < |events|
  {
    && Judged(Before(start, events, n).log, Before(start, events, n + 1).log, SentExposed(start, events, n))
    && (Exposed(Before(start, events, n + 1)) ==>
          || CarriesOver(Before(start, events, n), events[n])
          || (Exposed(Before(start, events, n)) && !events[n].Orphaned?))
  }

  lemma Links(start: Agent, events: seq<Event>, n: nat)
    requires Inv(start) && KnowsItsKey(start) && n < |events|
    ensures Linked(start, events, n)
  {
    var g, e := Before(start, events, n), events[n];
    Known(start, events, n);
    NextState(start, events, n);
    StepJudged(g, e);
    if Exposed(Step(g, e)) { StepExposes(g, e); }
  }

  lemma {:induction false} JudgedByStates(start: Agent, events: seq<Event>, n: nat)
    requires n <= |events| && (forall k :: 0 <= k < n ==> Linked(start, events, k))
    requires OnlyBesideRefused(Before(start, events, 0).log)
    ensures (forall q :: 0 <= q < n ==> !SentExposed(start, events, q))
        ==> OnlyBesideRefused(Before(start, events, n).log)
    ensures KeysAreNew(Before(start, events, n).log) && OnlyBesideRefused(Before(start, events, n).log)
        ==> forall q :: 0 <= q < n ==> !SentExposed(start, events, q)
  {
    if n > 0 {
      assert Linked(start, events, n - 1);
      JudgedByStates(start, events, n - 1);
    }
  }

  /** A key carried over at one event, and a heartbeat at a later one with only waiting and
      starting in between. */
  predicate CarriedInto(start: Agent, events: seq<Event>, p: nat, q: nat) {
    && p < q < |events| && CarriesOver(Before(start, events, p), events[p]) && events[q].HeartbeatSent?
    && forall k :: p < k < q ==> !events[k].HeartbeatSent? && !events[k].Orphaned?
  }

  lemma {:induction false} ExposedThrough(g: Agent, events: seq<Event>)
    requires Inv(g) && Exposed(g)
    requires forall k :: 0 <= k < |events| ==> !events[k].HeartbeatSent? && !events[k].Orphaned?
    ensures Exposed(Exec(g, events))
    decreases |events|
  {
    if events != [] {
      StepKeeps(g, events[0]);
      Waiting(g, events[0]);
      ExposedThrough(Step(g, events[0]), events[1..]);
    }
  }

  lemma OnwardsExposed(start: Agent, events: seq<Event>, m: nat, n: nat)
    requires m <= n <= |events| && Inv(Before(start, events, m)) && Exposed(Before(start, events, m))
    requires forall k :: m <= k < n ==> !events[k].HeartbeatSent? && !events[k].Orphaned?
    ensures Exposed(Before(start, events, n))
  {
    var on := events[m..n];
    assert events[..n] == events[..m] + on;
    ExecAppend(start, events[..m], on);
    forall k | 0 <= k < |on| ensures !on[k].HeartbeatSent? && !on[k].Orphaned? {
      assert on[k] == events[m + k];
    }
    ExposedThrough(Before(start, events, m), on);
  }

  lemma CarryExposes(start: Agent, events: seq<Event>, p: nat)
    requires Inv(start) && KnowsItsKey(start) && p < |events| && CarriesOver(Before(start, events, p), events[p])
    ensures Inv(Before(start, events, p + 1)) && Exposed(Before(start, events, p + 1))
  {
    Known(start, events, p);
    Known(start, events, p + 1);
    NextState(start, events, p);
    Beating(Before(start, events, p), events[p].answer, events[p].env);
  }

  lemma StaysExposed(start: Agent, events: seq<Event>, p: nat, n: nat)
    requires Inv(start) && KnowsItsKey(start) && p < n <= |events| && CarriesOver(Before(start, events, p), events[p])
    requires forall k :: p < k < n ==> !events[k].HeartbeatSent? && !events[k].Orphaned?
    ensures Exposed(Before(start, events, n))
  {
    CarryExposes(start, events, p);
    OnwardsExposed(start, events, p + 1, n);
  }

  /** An exposed state goes back to a key carried over, with no key lost since. */
  lemma {:induction false} WhyExposed(start: Agent, events: seq<Event>, n: nat) returns (p: nat)
    requires n <= |events| && forall k :: 0 <= k < n ==> Linked(start, events, k)
    requires !Exposed(Before(start, events, 0)) && Exposed(Before(start, events, n))
    ensures p < n && CarriesOver(Before(start, events, p), events[p])
    ensures forall k :: p < k < n ==> !events[k].Orphaned?
  {
    assert n > 0;
    assert Linked(start, events, n - 1);
    if CarriesOver(Before(start, events, n - 1), events[n - 1]) {
      p := n - 1;
    } else {
      p := WhyExposed(start, events, n - 1);
    }
  }

  lemma {:induction false} FirstBeat(events: seq<Event>, p: nat, q: nat) returns (first: nat)
    requires p < q < |events| && events[q].HeartbeatSent?
    ensures p < first <= q && events[first].HeartbeatSent? && forall k :: p < k < first ==> !events[k].HeartbeatSent?
  {
    if k: nat :| p < k < q && events[k].HeartbeatSent? {
      first := FirstBeat(events, p, k);
    } else {
      first := q;
    }
  }

  /** In every run in which no key is carried over into a heartbeat, every heartbeat that carries
      the secret beside a key does so beside one that stands refused. In runs in which the
      server gives no key that was refused before, only then. */
  lemma SecretBesideRefusedKeysOnly(now: real, file: Option<Data>, registrationKey: Option<Secret>, events: seq<Event>)
    ensures var start := Started(now, file, registrationKey);
            var log := Exec(start, events).log;
            var noneCarried := forall p, q :: !CarriedInto(start, events, p, q);
            && (noneCarried ==> OnlyBesideRefused(log))
            && (KeysAreNew(log) ==> (OnlyBesideRefused(log) <==> noneCarried))
  {
    var start := Started(now, file, registrationKey);
    StartedInv(now, file, registrationKey);
    Unmoved(start, events);
    forall k | 0 <= k < |events| ensures Linked(start, events, k) { Links(start, events, k); }
    assert events[..|events|] == events;
    JudgedByStates(start, events, |events|);
    if q: nat :| q < |events| && SentExposed(start, events, q) {
      var p := WhyExposed(start, events, q);
      var first := FirstBeat(events, p, q);
      assert CarriedInto(start, events, p, first);
    }
    if p, q :| CarriedInto(start, events, p, q) {
      StaysExposed(start, events, p, q);
      assert SentExposed(start, events, q);
    }
  }

  // ---- A run in which it goes wrong ----

  /** An agent with a key and a recovery secret. */
  const KEYED := Started(0.0, Some(Data(1, Some("k1"), Some("s"))), Some("r"))

  function With(recover: RecoverAnswer): Env {
    Env(recover, 0.0, true, NotRegistered, 0.0, true, true, NotRegistered, 0.0, true, true)
  }

  /** The key is refused; then, with the secret beside it, the secret; and recover-key gives a key
      for that secret after all. */
  const KEY_REFUSED := HeartbeatSent(Refused(AgentKeyRefused), With(Failed))
  const SECRET_REFUSED := HeartbeatSent(Refused(RecoverySecretRefused), With(Key("k2")))
  const UNANSWERED := HeartbeatSent(Silent, With(Failed))

  lemma KeyIsRefused(g: Agent)
    requires g.keys.apiKey == Some("k1") && !g.keyRefused && !g.beatSecretRefused
    ensures Step(g, KEY_REFUSED)
         == g.(keyRefused := true, log := g.log + [Beat(false, Some("k1")), KeyRefused(Some("k1"))])
  {
    assert (g.log + [Beat(false, Some("k1"))]) + [KeyRefused(Some("k1"))]
        == g.log + [Beat(false, Some("k1")), KeyRefused(Some("k1"))];
  }

  lemma KeyIsCarriedOver(g: Agent)
    requires KeysInv(g) && g.keys.agentId == Some(1)
    requires g.keys.apiKey == Some("k1") && g.keys.recoverySecret == Some("s")
    requires g.keyRefused && g.registrationKey == Some("r")
    requires g.now >= g.registerAgainNotBefore && !g.secretRefused && MayRecover(g)
    ensures CarriesOver(g, SECRET_REFUSED)
    ensures var g' := Step(g, SECRET_REFUSED);
            && g'.log == g.log + [Beat(true, Some("k1")), Recovered(g.now, "k2")]
            && g'.keys.apiKey == Some("k2") && g'.keys.recoverySecret == Some("s") && g'.keyRefused
  {
    var told := Told(g, SECRET_REFUSED.answer);
    assert told == Log(g, Beat(true, Some("k1"))).(beatSecretRefused := true);
    var asked := TakeKey(Later(told, 0.0), 1, "k2", true);
    assert Recover(told, SECRET_REFUSED.env) == (asked, true);
    KeyKeepsSecret(told.keys, "k2", true);
    assert asked.log == g.log + [Beat(true, Some("k1")), Recovered(g.now, "k2")];
  }

  lemma ThreeBeats(g: Agent)
    requires KeysInv(g) && g.keys.agentId == Some(1)
    requires g.keys.apiKey == Some("k1") && g.keys.recoverySecret == Some("s")
    requires !g.keyRefused && !g.beatSecretRefused && g.registrationKey == Some("r")
    requires g.now >= g.registerAgainNotBefore && !g.secretRefused && MayRecover(g)
    ensures Step(Step(Step(g, KEY_REFUSED), SECRET_REFUSED), UNANSWERED).log == g.log + WrongLog(g.now)
  {
    var refused := Step(g, KEY_REFUSED);
    KeyIsRefused(g);
    KeyIsCarriedOver(refused);
    var carried := Step(refused, SECRET_REFUSED);
    assert Step(carried, UNANSWERED).log == carried.log + [Beat(true, Some("k2"))];
  }

  lemma ExecThree(g: Agent, a: Event, b: Event, c: Event)
    ensures Exec(g, [a, b, c]) == Step(Step(Step(g, a), b), c)
  {
    assert [a, b, c][1..] == [b, c];
    ExecTwo(Step(g, a), b, c);
  }

  /** What the three heartbeats log. */
  function WrongLog(at: real): seq<Entry> {
    [Beat(false, Some("k1")), KeyRefused(Some("k1")), Beat(true, Some("k1")), Recovered(at, "k2"),
     Beat(true, Some("k2"))]
  }

  lemma WrongLogIsWrong(at: real)
    ensures !OnlyBesideRefused(WrongLog(at))
  {
    var log := WrongLog(at);
    var before := log[..4];
    assert before[0].Beat? && before[1] == KeyRefused(Some("k1")) && before[2].Beat? && before[3].Recovered?;
    assert !StandsRefused(before, Some("k2"));
    assert log[4] == Beat(true, Some("k2"));
  }

  lemma KeyedIsReady()
    ensures KeysInv(KEYED) && KEYED.keys.agentId == Some(1) && KEYED.log == [] && KEYED.now == 0.0
    ensures KEYED.keys.apiKey == Some("k1") && KEYED.keys.recoverySecret == Some("s")
    ensures !KEYED.keyRefused && !KEYED.beatSecretRefused && KEYED.registrationKey == Some("r")
    ensures KEYED.now >= KEYED.registerAgainNotBefore && !KEYED.secretRefused && MayRecover(KEYED)
  {
  }

  /** The agent sends its recovery secret beside a key that no answer ever refused. */
  lemma SecretBesideANewKey() returns (events: seq<Event>)
    ensures Exec(KEYED, events).log == WrongLog(0.0) && !OnlyBesideRefused(Exec(KEYED, events).log)
  {
    events := [KEY_REFUSED, SECRET_REFUSED, UNANSWERED];
    ExecThree(KEYED, KEY_REFUSED, SECRET_REFUSED, UNANSWERED);
    KeyedIsReady();
    ThreeBeats(KEYED);
    WrongLogIsWrong(0.0);
  }
}
