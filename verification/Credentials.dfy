/** The agent's credentials in memory and what the file holds of them (credentials.py).
    The file is what it decodes to; a save replaces it by a rename or leaves it alone. */
module Credentials {
  import opened Results

  type AgentId = nat
  type Secret = string

  /** What a credentials file decodes to. */
  datatype Data = Data(agentId: AgentId, apiKey: Option<Secret>, recoverySecret: Option<Secret>)

  /** Python's truth of an optional string: set, and not empty. */
  predicate Truthy(s: Option<Secret>) {
    s.Some? && s.value != ""
  }

  function Kept(s: Option<Secret>): Option<Secret> {
    if Truthy(s) then s else None
  }

  /** The credentials object's fields, and the file. */
  datatype Keys = Keys(
    agentId: Option<AgentId>,
    apiKey: Option<Secret>,
    recoverySecret: Option<Secret>,
    unsaved: bool,
    file: Option<Data>)

  /** The recovery secret a save writes: the one passed or, for the agent held and with none passed,
      the one held. */
  function SecretToSave(k: Keys, agentId: AgentId, secret: Option<Secret>): Option<Secret> {
    if secret == None && k.agentId == Some(agentId) then k.recoverySecret else secret
  }

  function AfterSave(k: Keys, agentId: AgentId, apiKey: Option<Secret>, secret: Option<Secret>, diskTakes: bool): Keys {
    var toSave := SecretToSave(k, agentId, secret);
    if diskTakes
    then Keys(Some(agentId), apiKey, toSave, false, Some(Data(agentId, Kept(apiKey), Kept(toSave))))
    else k
  }

  function AfterHoldKey(k: Keys, apiKey: Secret): Keys {
    k.(apiKey := Some(apiKey), unsaved := true)
  }

  function AfterHoldRegistration(k: Keys, agentId: AgentId, secret: Option<Secret>): Keys {
    k.(agentId := Some(agentId), apiKey := None, recoverySecret := secret, unsaved := true)
  }

  function AfterRetry(k: Keys, diskTakes: bool): Keys {
    if !k.unsaved || k.agentId.None? then k
    else AfterSave(k, k.agentId.value, k.apiKey, k.recoverySecret, diskTakes)
  }

  function AfterClear(k: Keys, unlinked: bool): Keys {
    Keys(None, None, None, false, if unlinked then None else k.file)
  }

  function AfterLoad(k: Keys): Keys {
    match k.file
    case None => k
    case Some(d) => k.(agentId := Some(d.agentId), apiKey := d.apiKey, recoverySecret := d.recoverySecret)
  }

  /** The file read with an empty string as no value, as every use of one reads it. */
  function Read(d: Data): Data {
    Data(d.agentId, Kept(d.apiKey), Kept(d.recoverySecret))
  }

  /** An id held and nothing unsaved: the file decodes to what memory holds. */
  ghost predicate FileTrue(k: Keys) {
    k.agentId.Some? && !k.unsaved ==>
      k.file.Some? && Read(k.file.value) == Read(Data(k.agentId.value, k.apiKey, k.recoverySecret))
  }

  /** What a file this code wrote never holds. */
  ghost predicate NoEmptyValues(k: Keys) {
    k.apiKey != Some("") && k.recoverySecret != Some("")
      && (k.file.Some? ==> k.file.value.apiKey != Some("") && k.file.value.recoverySecret != Some(""))
  }

  /** Byte for byte the file is what memory holds as long as no value is the empty string. */
  lemma FileIsMemory(k: Keys)
    requires FileTrue(k) && k.agentId.Some? && !k.unsaved && NoEmptyValues(k)
    ensures k.file == Some(Data(k.agentId.value, k.apiKey, k.recoverySecret))
  {
  }

  /** Every operation keeps the file true to memory, whether or not the disk takes it. */
  lemma OperationsKeepFileTrue(k: Keys, agentId: AgentId, apiKey: Option<Secret>, secret: Option<Secret>, ok: bool)
    requires FileTrue(k)
    ensures FileTrue(AfterSave(k, agentId, apiKey, secret, ok))
    ensures apiKey.Some? ==> FileTrue(AfterHoldKey(k, apiKey.value))
    ensures FileTrue(AfterHoldRegistration(k, agentId, secret))
    ensures FileTrue(AfterRetry(k, ok))
    ensures FileTrue(AfterClear(k, ok))
    ensures !k.unsaved ==> FileTrue(AfterLoad(k))
  {
  }

  /** A save writes exactly what memory then holds unless one of the values is the empty
      string, which the file leaves out and memory keeps. */
  lemma SavedExactlyUnlessEmpty(k: Keys, agentId: AgentId, apiKey: Option<Secret>, secret: Option<Secret>)
    ensures var saved := AfterSave(k, agentId, apiKey, secret, true);
            (saved.file == Some(Data(agentId, saved.apiKey, saved.recoverySecret))
             <==> apiKey != Some("") && SecretToSave(k, agentId, secret) != Some(""))
  {
  }

  /** Saving or holding a recovered key for the agent held keeps its recovery secret. */
  lemma KeyKeepsSecret(k: Keys, apiKey: Secret, ok: bool)
    requires k.agentId.Some?
    ensures var saved := AfterSave(k, k.agentId.value, Some(apiKey), None, ok);
            var used := if ok then saved else AfterHoldKey(saved, apiKey);
            && used.recoverySecret == k.recoverySecret && used.apiKey == Some(apiKey) && used.unsaved == !ok
            && used.file == if ok then Some(Data(k.agentId.value, Kept(Some(apiKey)), Kept(k.recoverySecret)))
                else k.file
  {
  }

  /** What a save the disk refused still owes is written whole by the first retry it takes: a
      restart then loads the credentials the agent was using, an empty value as none. */
  lemma RetryThenRestart(k: Keys)
    requires k.agentId.Some? && k.unsaved
    ensures var saved := AfterRetry(k, true);
            var restarted := AfterLoad(Keys(None, None, None, false, saved.file));
            && restarted.agentId == k.agentId && restarted.apiKey == Kept(k.apiKey)
            && restarted.recoverySecret == Kept(k.recoverySecret) && !restarted.unsaved && !saved.unsaved
  {
  }

  /** The object itself. */
  class AgentCredentials {
    var agentId: Option<AgentId>
    var apiKey: Option<Secret>
    var recoverySecret: Option<Secret>
    var unsaved: bool
    var file: Option<Data>

    ghost function View(): Keys
      reads this
    {
      Keys(agentId, apiKey, recoverySecret, unsaved, file)
    }

    constructor (file: Option<Data>)
      ensures View() == Keys(None, None, None, false, file)
      ensures FileTrue(View())
    {
      agentId, apiKey, recoverySecret, unsaved := None, None, None, false;
      this.file := file;
    }

    method Load() returns (loaded: bool)
      modifies this
      ensures View() == AfterLoad(old(View())) && loaded == old(file).Some?
    {
      if file.None? { return false; }
      agentId, apiKey, recoverySecret := Some(file.value.agentId), file.value.apiKey, file.value.recoverySecret;
      return true;
    }

    method Save(id: AgentId, key: Option<Secret>, secret: Option<Secret>, diskTakes: bool) returns (saved: bool)
      modifies this
      ensures View() == AfterSave(old(View()), id, key, secret, diskTakes) && saved == diskTakes
      ensures old(FileTrue(View())) ==> FileTrue(View())
    {
      var toSave := secret;
      if toSave == None && agentId == Some(id) { toSave := recoverySecret; }
      var data := Data(id, None, None);
      if Truthy(key) { data := data.(apiKey := key); }
      if Truthy(toSave) { data := data.(recoverySecret := toSave); }
      if !diskTakes { return false; }
      file := Some(data);
      agentId, apiKey, recoverySecret, unsaved := Some(id), key, toSave, false;
      return true;
    }

    method HoldUnsaved(key: Secret)
      modifies this
      ensures View() == AfterHoldKey(old(View()), key)
    {
      apiKey, unsaved := Some(key), true;
    }

    method HoldUnsavedRegistration(id: AgentId, secret: Option<Secret>)
      modifies this
      ensures View() == AfterHoldRegistration(old(View()), id, secret)
    {
      agentId, apiKey, recoverySecret, unsaved := Some(id), None, secret, true;
    }

    method RetryUnsaved(diskTakes: bool)
      modifies this
      ensures View() == AfterRetry(old(View()), diskTakes)
      ensures old(FileTrue(View())) ==> FileTrue(View())
    {
      if !unsaved || agentId.None? { return; }
      var saved := Save(agentId.value, apiKey, recoverySecret, diskTakes);
      if saved { unsaved := false; }
    }

    method Clear(unlinked: bool) returns (ok: bool)
      modifies this
      ensures View() == AfterClear(old(View()), unlinked)
      ensures ok == (old(file).None? || unlinked)
    {
      agentId, apiKey, recoverySecret, unsaved := None, None, None, false;
      if file.None? { return true; }
      if unlinked { file := None; }
      return unlinked;
    }
  }
}
