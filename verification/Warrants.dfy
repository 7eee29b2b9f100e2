/** What warrants a registration after a revoke: which secret recover-key called void, and which
    one the agent held when it registered again (registration.py, heartbeat.py, core.py). */
module Warrants {
  import opened Results
  import opened Credentials
  import opened Recovery
  import opened Lifecycle
  import opened Schedules

  /** The secret the last registration left the agent with, or the one it started with. */
  function Issued(log: seq<Entry>, first: Option<Secret>): Option<Secret> {
    if log == [] then first
    else if Last(log).NewRegistration? then Last(log).secret else Issued(Init(log), first)
  }

  /** Where the registration a try sent went out: its own success is logged just before it. */
  function SentAt(log: seq<Entry>, i: nat): int
    requires i < |log| && log[i].AgainTried?
  {
    if log[i].registered then i - 1 else i
  }

  /** What an entry says of secrets is true of the one issued last when it was made. */
  ghost predicate EntryTrue(log: seq<Entry>, i: nat, first: Option<Secret>)
    requires i < |log|
  {
    && (log[i].SecretVoid? ==> log[i].secret == Issued(log[..i], first))
    && (log[i].AgainTried? ==>
          && 0 <= SentAt(log, i) && (log[i].registered ==> log[i - 1].NewRegistration?)
          && (log[i].held.Some? ==> log[i].held == Issued(log[..SentAt(log, i)], first)))
  }

  ghost predicate LogTrue(log: seq<Entry>, first: Option<Secret>) {
    forall i :: 0 <= i < |log| ==> EntryTrue(log, i, first)
  }

  ghost predicate Provenance(g: Agent, first: Option<Secret>) {
    LogTrue(g.log, first) && (g.keys.recoverySecret == None || g.keys.recoverySecret == Issued(g.log, first))
  }

  lemma OneEntryMore(log: seq<Entry>, e: Entry, first: Option<Secret>)
    requires LogTrue(log, first)
    requires e.SecretVoid? ==> e.secret == Issued(log, first)
    requires e.AgainTried? ==>
               if e.registered then log != [] && Last(log).NewRegistration?
                   && (e.held.Some? ==> e.held == Issued(Init(log), first))
               else e.held.Some? ==> e.held == Issued(log, first)
    ensures LogTrue(log + [e], first)
    ensures Issued(log + [e], first) == if e.NewRegistration? then e.secret else Issued(log, first)
  {
    var more := log + [e];
    assert Init(more) == log && Last(more) == e;
    forall i | 0 <= i < |more| ensures EntryTrue(more, i, first) {
      assert more[..i] == log[..i];
      if i < |log| {
        assert EntryTrue(log, i, first) && more[i] == log[i];
        if log[i].AgainTried? { assert more[..SentAt(log, i)] == log[..SentAt(log, i)]; }
      } else {
        assert log[..|log|] == log;
        if e.AgainTried? && e.registered { assert more[..|log| - 1] == Init(log); }
      }
    }
  }

  // ---- Every step keeps it ----

  lemma Registering(g: Agent, answer: RegisterAnswer, took: real, diskTakes: bool, first: Option<Secret>)
    requires Provenance(g, first)
    ensures Provenance(Register(g, answer, took, diskTakes), first)
    ensures var g' := Register(g, answer, took, diskTakes);
            answer.Registered? ==> g'.log != [] && Init(g'.log) == g.log && Last(g'.log).NewRegistration?
  {
    if answer.Registered? {
      var g' := Register(g, answer, took, diskTakes);
      OneEntryMore(g.log, NewRegistration(g'.keys.recoverySecret), first);
    }
  }

  lemma RegisteringAfresh(g: Agent, env: Env, first: Option<Secret>)
    requires Provenance(g, first)
    ensures Provenance(RegisterAfresh(g, env), first)
  {
    Registering(g.(keys := AfterClear(g.keys, env.unlinked), configId := None), env.afresh, env.afreshTook,
        env.saveAfresh, first);
  }

  lemma TakingKey(g: Agent, id: AgentId, key: Secret, diskTakes: bool, first: Option<Secret>)
    requires Provenance(g, first)
    ensures Provenance(TakeKey(g, id, key, diskTakes), first)
  {
    OneEntryMore(g.log, Recovered(g.now, key), first);
  }

  lemma GettingNone(g: Agent, answer: RecoverAnswer, first: Option<Secret>)
    requires Provenance(g, first) && g.keys.recoverySecret.Some?
    ensures Provenance(NoKey(g, answer), first)
  {
    OneEntryMore(g.log, SecretVoid(g.keys.recoverySecret), first);
  }

  lemma Recovering(g: Agent, env: Env, first: Option<Secret>)
    requires Provenance(g, first)
    ensures Provenance(Recover(g, env).0, first)
  {
    if MayRecover(g) && !Truthy(g.keys.recoverySecret) {
      RegisteringAfresh(g, env, first);
    } else if MayRecover(g) && CanRecover(g) {
      var later := Later(g, env.recoverTook);
      if GivesKey(env.recover) {
        TakingKey(later, g.configId.value, env.recover.key, env.saveKey, first);
      } else {
        GettingNone(later, env.recover, first);
      }
    }
  }

  lemma Trying(tried: Agent, at: real, registered: bool, held: Option<Secret>, before: seq<Entry>,
               first: Option<Secret>)
    requires Provenance(tried, first)
    requires registered ==> tried.log != [] && Last(tried.log).NewRegistration? && Init(tried.log) == before
    requires !registered ==> tried.log == before
    requires held.Some? ==> held == Issued(before, first)
    ensures Provenance(AfterTry(tried, at, registered, held), first)
  {
    OneEntryMore(tried.log, AgainTried(at, registered, held), first);
  }

  lemma Sending(g: Agent, env: Env, first: Option<Secret>)
    requires Provenance(g, first)
    ensures Provenance(SendAgain(g, env).0, first)
  {
    var tried := Register(g, env.again, env.againTook, env.saveAgain);
    Registering(g, env.again, env.againTook, env.saveAgain, first);
    Trying(tried, g.now, env.again.Registered?, g.keys.recoverySecret, g.log, first);
  }

  lemma RegisteringAgain(g: Agent, env: Env, first: Option<Secret>)
    requires Provenance(g, first)
    ensures Provenance(RegisterAgain(g, env).0, first)
  {
    Recovering(g, env, first);
    Sending(g, env, first);
    Sending(Recover(g, env).0, env, first);
  }

  lemma Approving(g: Agent, env: Env, first: Option<Secret>)
    requires Provenance(g, first)
    ensures Provenance(Approve(g, env), first)
  {
    Recovering(g, env, first);
    RegisteringAgain(Recover(g, env).0, env, first);
  }

  /** An entry that says nothing of secrets. */
  lemma Noting(g: Agent, e: Entry, first: Option<Secret>)
    requires Provenance(g, first) && (e.Beat? || e.KeyRefused? || e.KeyTaken?)
    ensures Provenance(Log(g, e), first)
  {
    OneEntryMore(g.log, e, first);
  }

  lemma Hearing(g: Agent, keyAccepted: Option<bool>, sent: bool, diskTakes: bool, first: Option<Secret>)
    requires Provenance(g, first)
    ensures Provenance(NoteAnswer(g, keyAccepted, sent, diskTakes), first)
  {
    Noting(g, KeyRefused(g.keys.apiKey), first);
    Noting(g, Entry.KeyTaken, first);
  }

  lemma Beating(g: Agent, answer: BeatAnswer, env: Env, first: Option<Secret>)
    requires Provenance(g, first)
    ensures Provenance(Heartbeat(g, answer, env), first)
  {
    var sent := SendsSecret(g);
    var logged := Log(g, BeatOf(g));
    Noting(g, BeatOf(g), first);
    if answer.Accepted? {
      Hearing(logged, answer.keyAccepted, sent, env.saveHeld, first);
      Approving(NoteAnswer(logged, answer.keyAccepted, sent, env.saveHeld), env, first);
    } else if answer.Refused? {
      Noting(logged, KeyRefused(logged.keys.apiKey), first);
      RegisteringAgain(ReadRefusal(logged, answer.mark, sent), env, first);
    } else if answer.Other? {
      RegisteringAgain(logged, env, first);
    }
  }

  lemma StepKeepsProvenance(g: Agent, e: Event, first: Option<Secret>)
    requires Provenance(g, first)
    ensures Provenance(Step(g, e), first)
  {
    match e
    case Tick(_) =>
    case HeartbeatSent(answer, env) => Beating(g, answer, env, first);
    case Orphaned(env) =>
      Registering(g.(keys := AfterClear(g.keys, env.unlinked)), env.afresh, env.afreshTook, env.saveAfresh, first);
    case StartUp(env) =>
      Registering(g, env.afresh, env.afreshTook, env.saveAfresh, first);
      RegisteringAfresh(g, env, first);
  }

  lemma {:induction false} RunKeepsProvenance(g: Agent, events: seq<Event>, first: Option<Secret>)
    requires Provenance(g, first)
    ensures Provenance(Exec(g, events), first)
    decreases |events|
  {
    if events != [] {
      StepKeepsProvenance(g, events[0], first);
      RunKeepsProvenance(Step(g, events[0]), events[1..], first);
    }
  }

  // ---- Which refusal warrants a registration ----

  ghost predicate NoneBetween(log: seq<Entry>, j: nat, n: nat)
    requires n <= |log|
  {
    forall k :: j < k < n ==> !log[k].NewRegistration?
  }

  /** No registration leaves the agent a secret that it had before. */
  ghost predicate SecretsAreNew(log: seq<Entry>, first: Option<Secret>) {
    forall j, k :: 0 <= j <= k < |log| && log[k].NewRegistration? && log[k].secret.Some? ==>
      Issued(log[..j], first) != log[k].secret
  }

  lemma {:induction false} SameIssue(log: seq<Entry>, j: nat, n: nat, first: Option<Secret>)
    requires j < n <= |log| && !log[j].NewRegistration? && NoneBetween(log, j, n)
    ensures Issued(log[..n], first) == Issued(log[..j], first)
    decreases n
  {
    assert Init(log[..n]) == log[..n - 1] && Last(log[..n]) == log[n - 1];
    if j < n - 1 {
      SameIssue(log, j, n - 1, first);
    }
  }

  lemma {:induction false} LaterIssue(log: seq<Entry>, j: nat, n: nat, first: Option<Secret>) returns (k: nat)
    requires j < n <= |log| && !NoneBetween(log, j, n)
    ensures j < k < n && log[k].NewRegistration? && Issued(log[..n], first) == log[k].secret
    decreases n
  {
    assert Init(log[..n]) == log[..n - 1] && Last(log[..n]) == log[n - 1];
    if log[n - 1].NewRegistration? {
      k := n - 1;
    } else {
      k := LaterIssue(log, j, n - 1, first);
    }
  }

  /** In every run in which no registration gives a secret again: a registration after a revoke,
      sent while a secret is held, is warranted by a refusal of that very secret exactly when
      the agent was not registered otherwise since recover-key last called one void. */
  lemma WarrantedForTheSecretHeld(now: real, file: Option<Data>, registrationKey: Option<Secret>, events: seq<Event>,
                                  j: nat, i: nat)
    requires var g := Exec(Started(now, file, registrationKey), events);
             && SecretsAreNew(g.log, Started(now, file, registrationKey).keys.recoverySecret)
             && j < i < |g.log| && g.log[i].AgainTried? && g.log[i].held.Some? && g.log[j].SecretVoid?
    ensures var log := Exec(Started(now, file, registrationKey), events).log;
            && j < SentAt(log, i) <= i
            && (log[j].secret == log[i].held <==> NoneBetween(log, j, SentAt(log, i)))
  {
    var start := Started(now, file, registrationKey);
    RunKeepsProvenance(start, events, start.keys.recoverySecret);
    WarrantedInLog(Exec(start, events).log, start.keys.recoverySecret, j, i);
  }

  lemma WarrantedInLog(log: seq<Entry>, first: Option<Secret>, j: nat, i: nat)
    requires LogTrue(log, first) && SecretsAreNew(log, first)
    requires j < i < |log| && log[i].AgainTried? && log[i].held.Some? && log[j].SecretVoid?
    ensures j < SentAt(log, i) <= i
    ensures log[j].secret == log[i].held <==> NoneBetween(log, j, SentAt(log, i))
  {
    assert EntryTrue(log, j, first) && EntryTrue(log, i, first);
    var n: nat := SentAt(log, i);
    if NoneBetween(log, j, n) {
      SameIssue(log, j, n, first);
    } else {
      var k := LaterIssue(log, j, n, first);
      assert Issued(log[..j], first) != log[k].secret;
    }
  }

  // ---- The word outlives the secret ----

  /** Whoever registers an agent other than after a revoke, the word on its last secret stands, if there is one. */
  lemma VerdictOutlivesTheSecret(g: Agent, answer: RegisterAnswer, took: real, diskTakes: bool)
    requires answer.Registered?
    ensures var g' := Register(g, answer, took, diskTakes);
            && g'.secretRefused == g.secretRefused && g'.keys.agentId == Some(answer.id)
            && (answer.secret.Some? ==> g'.keys.recoverySecret == answer.secret)
  {
  }

  /** What the events below bring: recover-key's answer, and what registering after a revoke or
      after the server lost the agent would give. */
  function Bringing(recover: RecoverAnswer, registered: RegisterAnswer): Env {
    Env(recover, 0.0, true, registered, 0.0, true, true, registered, 0.0, true, true)
  }

  /** recover-key calls the secret void, and no registration succeeds. */
  const VOIDED := HeartbeatSent(Accepted(true, Some(true)), Bringing(Marked(RecoverySecretRefused), NotRegistered))

  /** recover-key gives a key. */
  const GIVEN := HeartbeatSent(Accepted(true, Some(false)), Bringing(Key("x"), NotRegistered))

  /** recover-key fails, and the server would register the agent anew. */
  function Failing(id: AgentId, secret: Secret): Event {
    HeartbeatSent(Accepted(true, Some(false)), Bringing(Failed, Registered(id, Some(secret))))
  }

  /** The server has lost the agent, and registers it anew. */
  function Lost(id: AgentId, secret: Secret): Event {
    Orphaned(Bringing(Failed, Registered(id, Some(secret))))
  }

  /** An agent with no wait running, told or not that its secret, or an earlier one, is void. */
  predicate Poised(g: Agent, id: AgentId, secret: Secret, told: bool) {
    && g.keys.agentId == Some(id) && g.configId == Some(id)
    && g.keys.recoverySecret == Some(secret) && secret != "" && g.registrationKey == Some("k")
    && MayRecover(g) && g.now >= g.registerAgainNotBefore && g.lastRecovered == None && g.secretRefused == told
  }

  /** What a heartbeat of an approved agent comes to before it asks for a key. */
  function Heard(g: Agent, keyAccepted: bool): Agent {
    NoteAnswer(Log(g, BeatOf(g)), Some(keyAccepted), SendsSecret(g), true)
  }

  lemma HeardPoised(g: Agent, keyAccepted: bool, id: AgentId, secret: Secret, told: bool)
    requires Poised(g, id, secret, told) && (keyAccepted ==> !Truthy(g.keys.apiKey))
    ensures var noted := Heard(g, keyAccepted);
            && Poised(noted, id, secret, told) && noted.now == g.now
                && !(Truthy(noted.keys.apiKey) && !noted.keyRefused)
            && |noted.log| == |g.log| + 2 && g.log <= noted.log
            && !noted.log[|g.log|].SecretVoid? && !noted.log[|g.log| + 1].SecretVoid?
  {
  }

  lemma ToldWhenVoid(g: Agent, id: AgentId, secret: Secret)
    requires Poised(g, id, secret, false) && !Truthy(g.keys.apiKey)
    ensures var g' := Step(g, VOIDED);
            && Poised(g'.(registerAgainNotBefore := g'.now), id, secret, true)
            && g'.now == g.now && g'.registerAgainNotBefore == g.now + 300.0
            && g'.log == Heard(g, true).log + [SecretVoid(Some(secret)), AgainTried(g.now, false, Some(secret))]
  {
    var noted := Heard(g, true);
    HeardPoised(g, true, id, secret, false);
    var asked := Recover(noted, VOIDED.env).0;
    assert asked == NoKey(Later(noted, 0.0), Marked(RecoverySecretRefused));
    var again := SendAgain(asked, VOIDED.env).0;
    assert again == AfterTry(Later(asked, 0.0), asked.now, false, Some(secret));
    assert Approve(noted, VOIDED.env) == again;
  }

  lemma PoisedAgain(g: Agent, id: AgentId, secret: Secret)
    requires Poised(g.(registerAgainNotBefore := g.now), id, secret, true) && g.registerAgainNotBefore == g.now + 300.0
    ensures Poised(Step(g, Tick(300.0)), id, secret, true) && Step(g, Tick(300.0)).log == g.log
    ensures Step(g, Tick(300.0)).now == g.now + 300.0
  {
  }

  lemma LostPoised(g: Agent, id: AgentId, secret: Secret, newId: AgentId, newSecret: Secret)
    requires Poised(g, id, secret, true) && newSecret != "" && g.now >= 0.0
    ensures var g' := Step(g, Lost(newId, newSecret));
            Poised(g', newId, newSecret, true) && g'.log == g.log + [NewRegistration(Some(newSecret))]
                && g'.now == g.now
  {
  }

  lemma GivenPoised(g: Agent, id: AgentId, secret: Secret)
    requires Poised(g, id, secret, true)
    ensures var g' := Step(g, GIVEN);
            && Poised(g'.(lastRecovered := None), id, secret, true) && g'.keys.apiKey == Some("x") && g'.now == g.now
            && g'.log == Heard(g, false).log + [Recovered(g.now, "x")]
  {
    HeardPoised(g, false, id, secret, true);
    assert Step(g, GIVEN)
        == TakeKey(Later(Heard(g, false), 0.0), id, "x", true).(keyRefused := false, beatSecretRefused := false);
  }

  /** A told agent that meets a failing recover-key is registered anew. */
  lemma ToldRegistersAgain(g: Agent, id: AgentId, secret: Secret, newId: AgentId, newSecret: Secret)
    requires Poised(g.(lastRecovered := None), id, secret, true)
    ensures var g' := Step(g, Failing(newId, newSecret));
            && g'.keys.agentId == Some(newId)
            && g'.log == Heard(g, false).log + [NewRegistration(Some(newSecret)), AgainTried(g.now, true, Some(secret))]
  {
    var noted := Heard(g, false);
    assert noted.(lastRecovered := None) == Heard(g.(lastRecovered := None), false);
    HeardPoised(g.(lastRecovered := None), false, id, secret, true);
    var env := Failing(newId, newSecret).env;
    var asked := Recover(noted, env).0;
    assert asked == Later(noted, 0.0);
    var again := SendAgain(asked, env).0;
    assert again.keys.agentId == Some(newId) && again.keys.recoverySecret == Some(newSecret);
    assert Approve(noted, env) == again;
  }

  /** A state a run reaches in which recover-key has called the secret void and, five minutes
      later, nothing holds the agent back: the one `RecoveryKeepsTheVerdict` starts from. */
  ghost predicate Told(events: seq<Event>) {
    var g := Exec(START, events);
    && Poised(g, 1, "s", true) && CanRecover(g) && g.now == 300.0
    && (forall i :: 0 <= i < |g.log| && g.log[i].SecretVoid? ==> g.log[i].secret == Some("s"))
  }

  lemma VerdictIsReached() returns (events: seq<Event>)
    ensures Told(events)
  {
    events := [VOIDED, Tick(300.0)];
    ExecTwo(START, VOIDED, Tick(300.0));
    assert Poised(START, 1, "s", false);
    HeardPoised(START, true, 1, "s", false);
    ToldWhenVoid(START, 1, "s");
    PoisedAgain(Step(START, VOIDED), 1, "s");
  }

  lemma ExecMore(g: Agent, events: seq<Event>, e: Event, f: Event)
    ensures Exec(g, events + [e, f]) == Step(Step(Exec(g, events), e), f)
  {
    ExecAppend(g, events, [e, f]);
    ExecTwo(Exec(g, events), e, f);
  }

  /** What a log ends with is still in it when two more entries follow what it has grown to. */
  lemma StillIn(log: seq<Entry>, grown: seq<Entry>, before: seq<Entry>, last: Entry, e: Entry, f: Entry)
    requires log == before + [last] && log <= grown
    ensures last in grown + [e, f] && Last(grown + [e, f]) == f
  {
    assert (grown + [e, f])[|before|] == last;
  }

  lemma GivenThenFailing(g: Agent)
    requires Poised(g, 1, "s", true)
    ensures var g' := Step(Step(g, GIVEN), Failing(2, "t"));
            && g'.keys.agentId == Some(2) && g'.log != [] && Last(g'.log) == AgainTried(g.now, true, Some("s"))
                && Recovered(g.now, "x") in g'.log
  {
    GivenPoised(g, 1, "s");
    var given := Step(g, GIVEN);
    ToldRegistersAgain(given, 1, "s", 2, "t");
    assert given.log <= Heard(given, false).log;
    StillIn(given.log, Heard(given, false).log, Heard(g, false).log, Recovered(g.now, "x"),
            NewRegistration(Some("t")), AgainTried(g.now, true, Some("s")));
  }

  /** A run in which an agent is registered anew for a secret recover-key gave it a key with
      since it called it void. */
  lemma RegisteredAnewWithAGoodSecret() returns (events: seq<Event>)
    ensures var g := Exec(START, events);
            && g.keys.agentId == Some(2) && g.log != [] && Last(g.log) == AgainTried(300.0, true, Some("s"))
                && Recovered(300.0, "x") in g.log
  {
    var told := VerdictIsReached();
    GivenThenFailing(Exec(START, told));
    ExecMore(START, told, GIVEN, Failing(2, "t"));
    events := told + [GIVEN, Failing(2, "t")];
  }

  lemma LostThenFailing(g: Agent)
    requires Poised(g, 1, "s", true) && g.now >= 0.0
    requires forall i :: 0 <= i < |g.log| && g.log[i].SecretVoid? ==> g.log[i].secret == Some("s")
    ensures var g' := Step(Step(g, Lost(2, "t")), Failing(3, "u"));
            && g'.keys.agentId == Some(3) && g'.log != [] && Last(g'.log) == AgainTried(g.now, true, Some("t"))
            && (forall i :: 0 <= i < |g'.log| && g'.log[i].SecretVoid? ==> g'.log[i].secret == Some("s"))
  {
    LostPoised(g, 1, "s", 2, "t");
    var lost := Step(g, Lost(2, "t"));
    HeardPoised(lost, false, 2, "t", true);
    ToldRegistersAgain(lost, 2, "t", 3, "u");
  }

  /** A run in which an agent the server has lost and registered is registered a third time,
      though recover-key never called its secret void. */
  lemma RegisteredAThirdTime() returns (events: seq<Event>)
    ensures var g := Exec(START, events);
            && g.keys.agentId == Some(3) && g.log != [] && Last(g.log) == AgainTried(300.0, true, Some("t"))
            && (forall i :: 0 <= i < |g.log| && g.log[i].SecretVoid? ==> g.log[i].secret == Some("s"))
  {
    var told := VerdictIsReached();
    LostThenFailing(Exec(START, told));
    ExecMore(START, told, Lost(2, "t"), Failing(3, "u"));
    events := told + [Lost(2, "t"), Failing(3, "u")];
  }
}
