/** The life of an agent's credentials: registering, recovering a key, registering again
    after a revoke, and the heartbeats that drive them (registration.py, heartbeat.py,
    core.py). A step is one heartbeat or one check fetch; the server's answers, what the
    disk takes and how long a request lasts are its inputs. */
module Recovery {
  import opened Results
  import opened Credentials

  // ---- What the server can answer ----

  /** The mark the server puts on a refusal of its own (a 401 or 403). */
  datatype Mark = RecoverySecretRefused | AgentKeyRefused | RegistrationKeyRefused | OtherRefused

  datatype RecoverAnswer =
    | Key(key: Secret)                          // 200; an empty key is none
    | Marked(mark: Mark)                        // a 401 or 403 the server marked
    | Unmarked                                  // a 401 or 403 it did not
    | TooMany(retryAfter: Option<real>)         // 429; the finite number its header names, if any
    | Failed                                    // anything else

  datatype RegisterAnswer = Registered(id: AgentId, secret: Option<Secret>) | NotRegistered

  datatype BeatAnswer =
    | Accepted(active: bool, keyAccepted: Option<bool>)   // 200
    | Garbled                                             // 200 that does not parse
    | Refused(mark: Mark)                                 // a marked 401 or 403
    | Other                                               // any other status
    | Silent                                              // no answer

  /** Everything one heartbeat, or one orphaned check fetch, can meet. */
  datatype Env = Env(
    recover: RecoverAnswer, recoverTook: real, saveKey: bool,
    afresh: RegisterAnswer, afreshTook: real, saveAfresh: bool, unlinked: bool,
    again: RegisterAnswer, againTook: real, saveAgain: bool,
    saveHeld: bool)

  // ---- The waits ----

  const DEFAULT_RETRY_AFTER := 60.0
  const MAX_RETRY_AFTER := 3600.0
  const REPEAT_WINDOW := 3600.0
  const MIN_GAP := 60.0
  const REGISTER_AGAIN_WAIT := 300.0

  function RetryAfter(header: Option<real>): (wait: real)
    ensures 1.0 <= wait <= MAX_RETRY_AFTER
  {
    match header
    case None => DEFAULT_RETRY_AFTER
    case Some(seconds) => MinReal(MaxReal(1.0, seconds), MAX_RETRY_AFTER)
  }

  /** The wait a recovery sets before the next, from the one it follows. */
  function NextGap(gap: real, soon: bool): real {
    if soon then MinReal(MaxReal(gap * 2.0, MIN_GAP), REPEAT_WINDOW) else 0.0
  }

  // ---- The agent ----

  /** What the outside could have recorded of a run. */
  datatype Entry =
    | Recovered(at: real, given: Secret)          // recover-key gave this key
    | SecretVoid(secret: Option<Secret>)          // recover-key refused this secret, marked
    | NewRegistration(secret: Option<Secret>)     // the server registered the agent, which now holds this one
    | AgainTried(at: real, registered: bool, held: Option<Secret>)
                                                  // register_again_after_revoke sent a registration, holding this one
    | Beat(secretBesideKey: bool, key: Option<Secret>)
                                                  // a heartbeat went out, this key held
    | KeyRefused(key: Option<Secret>)             // a marked refusal of the key held, or agent_key_accepted false
    | KeyTaken                                    // an answer that took the key

  datatype Agent = Agent(
    now: real,
    keys: Keys,
    authKey: Option<Secret>,
    configId: Option<AgentId>,
    registrationKey: Option<Secret>,
    // AgentRegistration
    recoveryRefused: bool,
    recoveryNotBefore: real,
    lastRecovered: Option<real>,
    recoveryGap: real,
    secretRefused: bool,
    registerAgainNotBefore: real,
    // HeartbeatSender
    keyRefused: bool,
    beatSecretRefused: bool,
    log: seq<Entry>)

  /** An agent as its process starts: its credentials loaded, if there are any. */
  function Started(now: real, file: Option<Data>, registrationKey: Option<Secret>): Agent {
    var keys := AfterLoad(Keys(None, None, None, false, file));
    Agent(now, keys, if Truthy(keys.apiKey) then keys.apiKey else registrationKey, keys.agentId, registrationKey,
          false, 0.0, None, 0.0, false, 0.0, false, false, [])
  }

  function Log(g: Agent, entry: Entry): Agent {
    g.(log := g.log + [entry])
  }

  function Later(g: Agent, took: real): Agent {
    g.(now := g.now + MaxReal(took, 0.0))
  }

  // ---- Registering ----

  /** The server took the registration: its id and secret are kept, and no wait stands. */
  function TakeRegistration(g: Agent, id: AgentId, secret: Option<Secret>, diskTakes: bool): Agent {
    var keys := if diskTakes then AfterSave(g.keys, id, None, secret, true)
        else AfterHoldRegistration(g.keys, id, secret);
    Log(g, NewRegistration(keys.recoverySecret)).(
      keys := keys, configId := Some(id),
      recoveryRefused := false, recoveryNotBefore := 0.0, lastRecovered := None, recoveryGap := 0.0)
  }

  function Register(g0: Agent, answer: RegisterAnswer, took: real, diskTakes: bool): Agent {
    match answer
    case NotRegistered => Later(g0, took)
    case Registered(id, secret) => TakeRegistration(Later(g0, took), id, secret, diskTakes)
  }

  /** `_register_afresh`: the stored credentials are dropped first. */
  function RegisterAfresh(g: Agent, env: Env): Agent {
    Register(g.(keys := AfterClear(g.keys, env.unlinked), configId := None), env.afresh, env.afreshTook, env.saveAfresh)
  }

  // ---- Recovering a key ----

  function HoldBack(g: Agent): Agent {
    var soon := g.lastRecovered.Some? && g.now - g.lastRecovered.value < REPEAT_WINDOW;
    var gap := NextGap(g.recoveryGap, soon);
    g.(recoveryGap := gap,
       recoveryNotBefore := if soon then g.now + gap else g.recoveryNotBefore,
       lastRecovered := Some(g.now))
  }

  function TakeKey(g: Agent, id: AgentId, key: Secret, diskTakes: bool): Agent {
    var held := HoldBack(Log(g, Recovered(g.now, key)));
    held.(keys := if diskTakes then AfterSave(g.keys, id, Some(key), None, true) else AfterHoldKey(g.keys, key),
          authKey := Some(key))
  }

  /** Whether a recovery is asked for at all. */
  predicate MayRecover(g: Agent) {
    !g.recoveryRefused && g.now >= g.recoveryNotBefore
  }

  /** Whether the agent has what a recovery needs; without a secret it registers afresh. */
  predicate CanRecover(g: Agent) {
    Truthy(g.keys.recoverySecret) && g.configId.Some? && Truthy(g.registrationKey)
  }

  /** An answer that gives no key. */
  function NoKey(g: Agent, answer: RecoverAnswer): Agent {
    match answer
    case Unmarked => g.(recoveryNotBefore := g.now + DEFAULT_RETRY_AFTER)
    case Marked(mark) => (
      match mark
      case RecoverySecretRefused => Log(g, SecretVoid(g.keys.recoverySecret)).(secretRefused := true)
      case RegistrationKeyRefused => g.(recoveryRefused := true)
      case _ => g
    )
    case TooMany(retryAfter) => g.(recoveryNotBefore := g.now + RetryAfter(retryAfter))
    case _ => g
  }

  predicate GivesKey(answer: RecoverAnswer) {
    answer.Key? && answer.key != ""
  }

  function AnswerRecover(g0: Agent, env: Env): (Agent, bool)
    requires g0.configId.Some?
  {
    var g := Later(g0, env.recoverTook);
    if GivesKey(env.recover) then (TakeKey(g, g.configId.value, env.recover.key, env.saveKey), true)
    else (NoKey(g, env.recover), false)
  }

  function Recover(g: Agent, env: Env): (Agent, bool) {
    if !MayRecover(g) then (g, false)
    else if !Truthy(g.keys.recoverySecret) then (RegisterAfresh(g, env), false)
    else if !CanRecover(g) then (g, false)
    else AnswerRecover(g, env)
  }

  // ---- Registering again after a revoke ----

  /** After a registration sent at `at`, in place of the one a revoke voided: a failed one is
      tried again after a wait, and a new agent proves itself with the registration key. */
  function AfterTry(tried: Agent, at: real, registered: bool, held: Option<Secret>): Agent {
    var logged := Log(tried, AgainTried(at, registered, held));
    if registered then logged.(secretRefused := false, authKey := tried.registrationKey)
    else logged.(registerAgainNotBefore := tried.now + REGISTER_AGAIN_WAIT)
  }

  function SendAgain(g: Agent, env: Env): (Agent, bool) {
    var tried := Register(g, env.again, env.againTook, env.saveAgain);
    (AfterTry(tried, g.now, env.again.Registered?, g.keys.recoverySecret), env.again.Registered?)
  }

  function RegisterAgain(g: Agent, env: Env): (Agent, bool) {
    if g.now < g.registerAgainNotBefore then (g, false)
    else if g.secretRefused then SendAgain(g, env)
    else
      var (asked, recovered) := Recover(g, env);
      if recovered || !asked.secretRefused then (asked, false) else SendAgain(asked, env)
  }

  // ---- Heartbeats ----

  predicate SendsSecret(g: Agent) {
    Truthy(g.keys.recoverySecret) && (!Truthy(g.keys.apiKey) || g.keyRefused)
  }

  /** What is recorded of a heartbeat as it goes out. */
  function BeatOf(g: Agent): Entry {
    Beat(SendsSecret(g) && Truthy(g.keys.apiKey), g.keys.apiKey)
  }

  /** What a 200 says of the agent's own key. */
  function OwnKeyRefused(g: Agent, keyAccepted: Option<bool>, sentSecret: bool): Option<bool> {
    if !Truthy(g.keys.apiKey) then Some(false)
    else if keyAccepted.Some? then Some(!keyAccepted.value)
    else if !sentSecret then Some(false)
    else None
  }

  function NoteAnswer(g: Agent, keyAccepted: Option<bool>, sentSecret: bool, diskTakes: bool): Agent {
    match OwnKeyRefused(g, keyAccepted, sentSecret)
    case Some(true) => Log(g, KeyRefused(g.keys.apiKey)).(keyRefused := true)
    case Some(false) => Log(g, KeyTaken).(keyRefused := false, keys := AfterRetry(g.keys, diskTakes))
    case None => g
  }

  /** The approval callback: recover a key, or register again when the secret is void. */
  function Approve(g: Agent, env: Env): Agent {
    if Truthy(g.keys.apiKey) && !g.keyRefused then g
    else
      var (asked, recovered) := Recover(g, env);
      if recovered then asked.(keyRefused := false)
      else if asked.secretRefused then RegisterAgain(asked, env).0
      else asked
  }

  function ReadRefusal(g: Agent, mark: Mark, sentSecret: bool): Agent {
    if !sentSecret then
      if Truthy(g.keys.apiKey) && (mark == AgentKeyRefused || mark == RegistrationKeyRefused)
      then Log(g, KeyRefused(g.keys.apiKey)).(keyRefused := true) else g
    else if mark == RecoverySecretRefused then g.(beatSecretRefused := true)
    else g
  }

  function RegisterAgainIfRefused(g: Agent, env: Env): Agent {
    if !g.beatSecretRefused then g
    else
      var (asked, registered) := RegisterAgain(g, env);
      if registered then asked.(beatSecretRefused := false, keyRefused := false) else asked
  }

  function Heartbeat(g0: Agent, answer: BeatAnswer, env: Env): Agent {
    var sent := SendsSecret(g0);
    var g := Log(g0, BeatOf(g0));
    match answer
    case Silent => g
    case Accepted(active, keyAccepted) =>
      var noted := NoteAnswer(g, keyAccepted, sent, env.saveHeld);
      var approved := if active then Approve(noted, env) else noted;
      approved.(beatSecretRefused := false)
    case Garbled => g.(beatSecretRefused := false)
    case Refused(mark) => RegisterAgainIfRefused(ReadRefusal(g, mark, sent), env)
    case Other => RegisterAgainIfRefused(g, env)
  }

  // ---- Runs ----

  datatype Event =
    | Tick(dt: real)
    | HeartbeatSent(answer: BeatAnswer, env: Env)
    | Orphaned(env: Env)                              // the check fetch met a 404
    | StartUp(env: Env)                               // what the run does before its first heartbeat

  /** The check fetch's 404: credentials cleared, and registered again if that went well. */
  function Orphan(g: Agent, env: Env): Agent {
    var cleared := g.(keys := AfterClear(g.keys, env.unlinked));
    if g.keys.file.Some? && !env.unlinked then cleared
    else Register(cleared, env.afresh, env.afreshTook, env.saveAfresh)
  }

  /** Without credentials the agent registers, and with ones it could never complete, afresh. */
  function EnsureRegistered(g: Agent, env: Env): Agent {
    if g.keys.agentId.None? then Register(g, env.afresh, env.afreshTook, env.saveAfresh)
    else if Truthy(g.keys.apiKey) || Truthy(g.keys.recoverySecret) then g
    else RegisterAfresh(g, env)
  }

  function Step(g: Agent, e: Event): Agent {
    match e
    case Tick(dt) => Later(g, dt)
    case HeartbeatSent(answer, env) => Heartbeat(g, answer, env)
    case Orphaned(env) => Orphan(g, env)
    case StartUp(env) => EnsureRegistered(g, env)
  }

  function Exec(g: Agent, events: seq<Event>): Agent
    decreases |events|
  {
    if events == [] then g else Exec(Step(g, events[0]), events[1..])
  }
}
