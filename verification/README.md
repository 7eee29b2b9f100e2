# LuxSwirl: delivery, credentials, address ranges, log lines and stored items, verified

This project models the parts of LuxSwirl in which a mistake would be hard to see by
reading one function, and proves what they promise. `dafny verify dfyconfig.toml` checks
all of it.

- **Result delivery.** `Posting` is one POST with its retries. `Splitting` is the loop that
  sends a batch the size limit refused in halves; `Passes` is what repeated replay of such a
  row delivers. `Store` is the two SQLite tables. `Protocol` is the reporter as a state
  machine whose steps are what one task does between two awaits, so results arriving, any
  number of flushes, the replay task and the prunes interleave freely; `Conservation` proves
  that no run loses a result and `Progress` that a waiting row leaves the queue or is held within
  so many passes; `LimitedReplay` follows one row through a run against a server that limits the
  request size, and `Rounds` bounds the passes until its results are delivered, held rows
  included, while nothing new is stored. `Reporting` is the
  reporter as an object whose methods change its batch and its tables in place, proved against
  the same functions.
- **Credentials.** `Credentials` is the credentials object and its file, `AtomicWrite` the
  replacement of that file over a file system that can crash. `Recovery` is the agent's
  registration, key recovery and heartbeats as a state machine driven by the server's answers,
  the disk and the clock; `Lifecycle` proves what every run keeps and `Secrecy` beside which keys the
  recovery secret is sent. `Backoff` is the arithmetic
  of the waits between recoveries and `Schedules` the runs that meet it; `Waiting` proves that no
  wait is cut short and `Warrants` which refusal a registration after a revoke rests on.
  `AgentProcess` is the agent as an object whose methods are those steps.
- **Address ranges.** `Ssrf` is the cloud-metadata test of one address and of a whole network,
  through the IPv6 forms that carry IPv4 (section 2.5.5.2 of RFC 4291, section 2 of RFC 3056,
  sections 2.1 and 2.2 of RFC 6052). `NetworkScan` is which addresses a scan probes.
- **Log lines.** `LogLine` and `JsonLine` are the JSON form with its substitutions over the
  finished text, and a reader of RFC 8259. `LogRecord` is the renaming of caller fields that
  collide with a record's attributes; `TextLine` is the text form. Texts are integer code
  points, surrogates among them.
- **Status page items.** `Uuids` is Python's reading of a UUID text and `StatusPage` is the
  migration that rewrites a page's stored items.
- **Smaller loops.** `CheckRetry` is one run of a check with its retries, `JobQueue` the job
  queue and its counters, `SchemaClosure` the schemas an OpenAPI document keeps, `Renames` the
  pairing of a removal and an addition into a rename.

The server, the disk, the network and the clock are parameters: a server is a function of the
number of the POST and its body, a run is a sequence of events that carry every answer. A main
result is a statement over every such function and every such run.

## What was found

Where the code and its own text disagree the model follows the code.

- A `max_queue_size` of 1 never thins the queue: the slice of its last 0 results keeps all of
  them (`Conservation.LimitOfOneNeverThins`); the limit holds from 2 on and only then
  (`Conservation.QueueBound`).
- recover-key calling a secret void is remembered until a registration *after a revoke* succeeds,
  and nothing else takes it back. A key recovered in between does not, though it shows the
  secret to be good: the next refusal registers again without asking, where the docstring of
  `register_again_after_revoke` reads as if it asked (`Lifecycle.RecoveryKeepsTheVerdict`; a run
  that does it is `Warrants.RegisteredAnewWithAGoodSecret`). Nor does a registration for any
  other reason: an agent the server lost and registered anew is registered a third time though
  no one called its new secret void (`Warrants.RegisteredAThirdTime`). A registration after a
  revoke is warranted by a refusal of the secret then held exactly when the agent was not
  registered otherwise since the last such refusal (`Warrants.WarrantedForTheSecretHeld`).
- The recovery secret can leave the agent beside a key the server has not refused, where the
  docstring of `_auth_headers` (heartbeat.py:765-785) says it never does while the server accepts
  the key. When a heartbeat's secret was refused, `register_again_after_revoke` asks recover-key,
  and a key it gives is answered with False (registration.py:266-267); `_register_again_if_refused`
  (heartbeat.py:706-714) then leaves the mark of the old key on the new one, and the next
  heartbeat carries both (`Secrecy.SecretBesideANewKey`). It happens exactly when a key is
  recovered there while the last one stands refused, and a heartbeat follows before the key is
  lost (`Secrecy.SecretBesideRefusedKeysOnly`).
- Repeated recovery is not held to one an hour: with heartbeats e seconds apart at least, a run
  recovers seven keys in 31 minutes and e, and eight in 63 minutes and e
  (`Schedules.EightFitInSixtyThreeMinutes`); no run recovers eight sooner
  (`Schedules.EightRecoveriesSpan`). The next recovery is held back a full hour exactly when each
  of the last seven came within an hour of the one before it (`Schedules.HeldBackAnHourInRuns`).
- A save leaves an empty string out of the file and keeps it in memory
  (`Credentials.SavedExactlyUnlessEmpty`); without empty strings the file is exactly what memory
  holds in every run (`Lifecycle.FileIsExact`).
- The counts of finished jobs are reset when a heartbeat is built (heartbeat.py:194), before it is
  sent: those of a lost one are never told (`JobQueue.LostCountIsNeverTold`), and what the
  server was told and the current counts are the totals exactly when no lost heartbeat carried
  a count (`JobQueue.ToldAddsUp`).
- A chunked scan reports two hosts more than it probed for every /24 after the first
  (`NetworkScan.ReportedIsProbed`), 510 too many for 10.0.0.0/16
  (`NetworkScan.TenIsScannedInChunks`).
- The status-page migration makes a group whose page could not be drawn, with a null filter
  say, show the checks it lists; no group of a page that could be drawn comes out wider
  (`StatusPage.WidensExactly`).
- A constraint whose name is in the database and in the models can still be reported as renamed
  (`Renames.NameOnBothSidesIsPaired`). It happens to no name of a key exactly when, with h the
  place of the key's first removed name that is also added, the first h additions are of no
  removed name and all later ones are of that removed name (`Renames.NoSharedNameIsPaired`).

## Model

| member | source | states |
|---|---|---|
| Posting.PostBatch | apps/agent/app/agent/reporter.py:598-680 | Over all answers and stops: the POST ends at the first answer that decides, after its last retry or where the reporter is found stopped; it is transient exactly when no attempt made decided; and a permanent refusal always comes with a 400 or 422 |
| Splitting.AnsweredCost | apps/agent/app/agent/reporter.py:566-588 | Every answer lowers the number of POSTs the parts still to try can cost, so the splitting ends |
| Splitting.RunTracks | apps/agent/app/agent/reporter.py:560-591 | Loop invariant against every server: settled parts, untried results and remaining work are the batch in order, and every variable tells the truth about the POSTs made |
| Splitting.SplitSummary | apps/agent/app/agent/reporter.py:530-596 | For n >= 2 results at most 2n - 2 parts are posted; what was settled and then what was untried is the batch in order; what comes back is the untried and the refused; and the outcome says which classes are empty |
| Splitting.SettledIsSentOrRefused | apps/agent/app/agent/reporter.py:566-588 | With nothing refused for good, a settled result was sent or was refused alone |
| Passes.UnstoppedPassDelivers | apps/agent/app/agent/reporter.py:571-596 | Against any size limit, a pass over a row that does not stop delivers every result that fits alone |
| Passes.StoppedPassTurnsByTwo | apps/agent/app/agent/reporter.py:579-591 | A stopped pass delivers nothing and moves exactly the row's first two results, both over the limit, to its end |
| Passes.DeliveredWithin | apps/agent/app/agent/reporter.py:940-956 | A stored row with b results over the limit has every other result delivered within b/2 + 1 passes |
| Passes.LeadingOversizedWait | apps/agent/app/agent/reporter.py:940-956 | The bound is met: 2p oversized results at the head cost p passes that deliver nothing |
| LimitedReplay.StepKeepsComing | apps/agent/app/agent/reporter.py:940-1007 | Among flushes, other rows and other passes, every step keeps a result of a row that fits the limit alone on its way, and a pass that settles the row and has not delivered it has two oversized results fewer before it |
| LimitedReplay.SettledOftenIsDelivered | apps/agent/app/agent/reporter.py:816-1007 | In every run against a size limit, once passes have settled a stored row with b oversized results b/2 + 1 times the server has every other result of it, unless the cap took the row |
| Rounds.StepLowers | apps/agent/app/agent/reporter.py:816-1048 | While nothing new is stored and the limit answers, a complete pass takes one from the passes enough for a result, and no other event adds one, though held rows are let go in between |
| Rounds.DeliveredAfterPasses | apps/agent/app/agent/reporter.py:816-1048 | In every run that stores no new row: when n passes of the read window have room for all the rows, n (b/2 + 1) complete passes deliver every result that fits alone out of a row with b oversized ones, and n more when the row is held to begin with |
| Store.OldestInOrder | apps/agent/app/agent/reporter.py:849-856 | Rows are read oldest first |
| Store.OldestFirst | apps/agent/app/agent/reporter.py:849-856 | No row that was left out of a read is older than one in it |
| Store.StoreConserves | apps/agent/app/agent/reporter.py:749-791 | After a store and its prune, the results in the table and in the pruned rows are exactly those there were and the new ones |
| Store.StoreKeepsCap | apps/agent/app/agent/reporter.py:764-775 | After every store the pending table is within its cap |
| Store.LetterConserves | apps/agent/app/agent/dead_letter.py:108-142 | After a dead letter and its prune, the results kept and those the cap took are exactly those there were and the new ones, and the table is within its cap |
| Conservation.StepKeepsInv | apps/agent/app/agent/reporter.py:404-989 | Every step of every task keeps: each result added is accounted for, each batch the replay holds is what its row holds or the row is gone, and a row is only shortened by what is settled |
| Conservation.NoResultLost | apps/agent/app/agent/reporter.py:404-989 | After every run of every interleaving, the results added are exactly those in the batch, in flight, pending, dead-lettered, accepted or evicted |
| Conservation.EvictedOnlyByCaps | apps/agent/app/agent/reporter.py:436-446 | A run in which no cap is met evicts nothing |
| Conservation.NothingEvictedWithoutOverflow | apps/agent/app/agent/reporter.py:749-791 | After a run in which no cap is met, every result added is still held, dead-lettered or accepted |
| Conservation.QueueBound | apps/agent/app/agent/reporter.py:436-449 | For a limit of at least 0: adding brings every queue, also one longer than the limit, within it if and only if the limit is at least 2 |
| Conservation.LimitOfOneNeverThins | apps/agent/app/agent/reporter.py:445-449 | With a limit of 1 every result is kept |
| Progress.StepTracks | apps/agent/app/agent/reporter.py:915-1007 | Every step keeps: each row a pass has read is in its hands, gone or held |
| Progress.CompletePassDealsWithAll | apps/agent/app/agent/reporter.py:991-1007 | A pass that runs to its end leaves every row it read deleted, dead-lettered or held |
| Progress.HeldReadOnlyAlone | apps/agent/app/agent/reporter.py:816-856 | Held rows are read again exactly when the table holds no other row, and then none is held any more |
| Progress.StepNears | apps/agent/app/agent/reporter.py:816-856 | No step puts a row ahead of a waiting one, and a complete pass takes a read window of rows from before it |
| Progress.NoRowWaitsLong | apps/agent/app/agent/reporter.py:816-1007 | In every run, a row with n rows up to and including it still waits after k complete passes of window w only if w * k < n |
| Reporting.GroupsStayWithin | apps/agent/app/agent/reporter.py:991-1007 | A combined POST of two rows or more stays within the batch size, and the next row would not have fitted |
| Reporting.PostsAreAnswers | apps/agent/app/agent/reporter.py:564-588 | Each outcome of a split is the server's answer to that POST |
| Reporting.TransientWasMet | apps/agent/app/agent/reporter.py:586-593 | A split reports a transient failure only when one of its POSTs met one |
| Reporting.Reporter.AddResult | apps/agent/app/agent/reporter.py:436-449 | The batch after an add: at the limit its newest results, and the new one |
| Reporting.Reporter.Flush | apps/agent/app/agent/reporter.py:464-506 | The whole batch leaves memory in one delivery, and what the server did not take of it is in the tables |
| Reporting.Reporter.Deliver | apps/agent/app/agent/reporter.py:508-528 | What the server does not take is one new pending row or dead letters, and the outcome is the delivery's |
| Reporting.Reporter.PostParts | apps/agent/app/agent/reporter.py:560-588 | The loop over the work, its lists and counters is `Splitting.Run`, and parts refused for good are dead-lettered in turn |
| Reporting.Reporter.SendInParts | apps/agent/app/agent/reporter.py:530-596 | The outcome, the unsent results and the POSTs are those `SplitSummary` speaks of; a single result is refused unposted |
| Reporting.Reporter.StoreBatch | apps/agent/app/agent/reporter.py:749-791 | The new row under a fresh id, less the rows the cap takes |
| Reporting.Reporter.DeadLetterBatch | apps/agent/app/agent/reporter.py:682-717 | The letters with the new one, less those the cap takes |
| Reporting.Reporter.ReadStoredReports | apps/agent/app/agent/reporter.py:816-847 | The oldest rows not held; the held ones are let go when there is no other |
| Reporting.Reporter.RewriteStored | apps/agent/app/agent/reporter.py:858-872 | The row keeps its time and place with its new results; without the row nothing is written |
| Reporting.Reporter.MoveToDeadLetters | apps/agent/app/agent/reporter.py:883-913 | The row as stored becomes a letter of its own time and is deleted; a row that is gone leaves no letter |
| Reporting.Reporter.ReplayInParts | apps/agent/app/agent/reporter.py:940-959 | What a split leaves of a row stays in that row with its time, the row is held when a size refusal is what left it, and only a transient failure ends the pass |
| Reporting.Reporter.ReplayGroup | apps/agent/app/agent/reporter.py:915-989 | A group that does not meet a transient failure is deleted, dead-lettered or held row by row, and no other row is touched |
| Reporting.Reporter.ReplayPending | apps/agent/app/agent/reporter.py:991-1007 | Every row of a fetch is dealt with unless a POST met a transient failure |
| Reporting.Reporter.ReplayPass | apps/agent/app/agent/reporter.py:1009-1048 | One pass reads the window and leaves none of it waiting when no POST met a transient failure |
| Credentials.OperationsKeepFileTrue | apps/agent/app/agent/credentials.py:229-411 | Saving, holding, retrying, clearing and loading keep: with an id held and nothing unsaved the file decodes to what memory holds, an empty string read as none |
| Credentials.SavedExactlyUnlessEmpty | apps/agent/app/agent/credentials.py:261-308 | A save writes exactly what memory then holds if and only if neither value is the empty string |
| Credentials.KeyKeepsSecret | apps/agent/app/agent/registration.py:356-371 | Taking a recovered key keeps the recovery secret in memory whether or not the save succeeds, and in the file when it does |
| Credentials.RetryThenRestart | apps/agent/app/agent/credentials.py:350-378 | The first retry the disk takes writes all a refused save owed: a restart then loads the credentials in use, an empty string as none |
| Credentials.AgentCredentials.Save | apps/agent/app/agent/credentials.py:229-308 | Memory and file after a save, taken or not, and the file stays true to memory |
| Credentials.AgentCredentials.RetryUnsaved | apps/agent/app/agent/credentials.py:367-374 | Memory and file after a retry, which saves only what is unsaved |
| Credentials.AgentCredentials.Load | apps/agent/app/agent/credentials.py:156-227 | Memory is what a readable file decodes to; without one nothing changes |
| Credentials.AgentCredentials.Clear | apps/agent/app/agent/credentials.py:380-411 | Memory is empty, and the call fails exactly when a file is still there |
| AtomicWrite.FileSystem.WriteAtomically | apps/agent/app/agent/credentials.py:310-348 | At every crash point of every save, done or failed, the target is whole old or whole new content; a done one reads as the new content, and a failed one leaves what was there |
| AtomicWrite.RenameBeforeFlushTears | apps/agent/app/agent/credentials.py:330-342 | A save that renamed before it flushed could leave the target with only the beginning of the new content, which is neither old nor new |
| Recovery.RetryAfter | apps/agent/app/agent/registration.py:50-59 | Whatever the header, a wait lies between a second and an hour |
| Lifecycle.VoidSinceMeans | apps/agent/app/agent/registration.py:244-281 | A verdict on a secret stands exactly when recover-key gave one, marked, and no registration after a revoke succeeded since; a registration for another reason does not end it |
| Lifecycle.RefusedSinceMeans | apps/agent/app/agent/heartbeat.py:645-677 | Read step by step, the log says a refusal stands exactly when some answer refused the key held then, whichever that was, and no answer took one since |
| Lifecycle.StepKeeps | apps/agent/app/agent/heartbeat.py:148-392 | Every heartbeat, orphaned fetch, start and tick keeps the credential invariant, whatever the server answers and the disk takes |
| Lifecycle.EveryRun | apps/agent/app/agent/registration.py:139-413 | In every state of every run: a key held is the key in use, the id held the id in use, the file true to memory (an empty string read as none), every registration after a revoke sent with a verdict standing and five minutes after a failed one, the secret sent beside a key only after a refusal of a key with no answer since that took one, and no wait longer than an hour |
| Secrecy.SecretBesideRefusedKeysOnly | apps/agent/app/agent/heartbeat.py:706-785 | In every run in which no key is recovered while registering again with the key marked refused and then carried into a heartbeat, every heartbeat that carries the secret beside a key does so beside one an answer refused and none took since; in runs whose keys are new, only then |
| Secrecy.StepKnows | apps/agent/app/agent/heartbeat.py:645-743 | Every step keeps: while the agent takes its key to be refused, an answer refused that very key, or the key was recovered since the last answer that took or refused one |
| Secrecy.Beating | apps/agent/app/agent/heartbeat.py:670-743 | A heartbeat records itself as it goes out, and leaves the next one exposed when it carries a key over, and otherwise only if it went out exposed itself |
| Secrecy.BesideUnrefused | apps/agent/app/agent/heartbeat.py:765-785 | A heartbeat that carries the secret beside a key: the key stands refused unless the state is exposed, and with new keys only then |
| Secrecy.SecretBesideANewKey | apps/agent/app/agent/heartbeat.py:706-714 | The run that shows it: the key refused, the secret refused beside it, a new key recovered, and the secret sent beside the new key |
| Lifecycle.FileIsExact | apps/agent/app/agent/credentials.py:229-378 | In every run without empty strings: with an id held and nothing unsaved the file is exactly the id, key and secret in memory |
| Warrants.StepKeepsProvenance | apps/agent/app/agent/registration.py:139-413 | Every step keeps: the secret held is the one the last registration gave or none, a verdict is on the secret issued last, and a registration after a revoke records the one then held |
| Warrants.WarrantedForTheSecretHeld | apps/agent/app/agent/registration.py:244-281 | In every run in which no registration gives a secret again, a registration after a revoke is warranted by a refusal of the secret then held if and only if the agent was not registered otherwise since the last refusal |
| Warrants.VerdictOutlivesTheSecret | apps/agent/app/agent/registration.py:199-205 | A registration for another reason gives a new id, and a new secret if there is one, and leaves the verdict standing |
| Warrants.VerdictIsReached | apps/agent/app/agent/registration.py:382-401 | A run reaches the state in which a verdict stands, no wait runs and a key can be recovered |
| Warrants.RegisteredAnewWithAGoodSecret | apps/agent/app/agent/registration.py:244-281 | A run registers an agent anew for a secret that has given it a key since it was called void |
| Warrants.RegisteredAThirdTime | apps/agent/app/agent/core.py:235-266 | A run registers a third time an agent the server had lost and registered, though its secret was never called void |
| Backoff.GapIsOfStreak | apps/agent/app/agent/registration.py:110-137 | The gap after any recoveries is a minute doubled with each recovery of the last streak of soon ones, an hour at most, and none after a pause of an hour |
| Backoff.HeldBackAnHour | apps/agent/app/agent/registration.py:110-137 | The gap is a full hour if and only if each of the last seven recoveries came within an hour of the one before it |
| Backoff.EightSpan | apps/agent/app/agent/registration.py:110-137 | Any eight recoveries that keep the gaps, each at least e after the last, span at least 3780 s and e, for e up to a minute |
| Lifecycle.EightRecoveriesSpan | apps/agent/app/agent/registration.py:110-137 | In every run, any eight recoveries in a row within one registration span at least 3780 s |
| Schedules.RecoveriesAreTheSpacedTimes | apps/agent/app/agent/registration.py:289-371 | For every least time e between heartbeats: a list of times is that of the recoveries of some run if and only if it keeps the gaps and no two are closer than e |
| Schedules.EightRecoveriesSpan | apps/agent/app/agent/registration.py:110-137 | In every run whose heartbeats are at least e apart, any eight recoveries in a row within one registration span at least 3780 s and e |
| Schedules.EightFitInSixtyThreeMinutes | apps/agent/app/agent/registration.py:110-137 | The bound is met: a run with heartbeats e apart recovers eight keys in 3780 s and e, the first seven in 1860 s and e |
| Schedules.HeldBackAnHourInRuns | apps/agent/app/agent/registration.py:110-137 | In every state of every run, the next recovery is held back an hour if and only if each of the last seven came within an hour of the one before it |
| Waiting.NoWaitShortened | apps/agent/app/agent/registration.py:110-413 | Whatever an event brings, as long as it registers nothing each wait stands, or was over and a later one stands |
| Waiting.NoWaitShortenedInRuns | apps/agent/app/agent/registration.py:110-413 | The same over every stretch of every run |
| Lifecycle.AgentIdNeverChanges | apps/agent/app/agent/registration.py:225-281 | In every run with no marked void secret and no orphaned fetch, an agent that holds a secret keeps its id and its secret |
| Lifecycle.AgainSendsExactly | apps/agent/app/agent/registration.py:244-281 | For every agent, with a secret or without: a registration after a revoke is sent exactly when the wait is over and recover-key has, or now does, call the secret void |
| Lifecycle.FailedAgainChangesNothing | apps/agent/app/agent/registration.py:139-223 | A registration after a revoke that fails leaves credentials and configuration as they were when it was sent, whatever recover-key answered first |
| Lifecycle.RecoveryKeepsTheVerdict | apps/agent/app/agent/registration.py:244-281 | A key recovered after the secret was called void does not take the word back: the next refusal registers again without asking |
| AgentProcess.LuxSwirlAgent.RegisterWithServer | apps/agent/app/agent/registration.py:139-223 | The object's whole new state is the step's, and what every run keeps still holds |
| AgentProcess.LuxSwirlAgent.HoldBackRepeatedRecovery | apps/agent/app/agent/registration.py:110-137 | The gap, the wait and the time of the last recovery are the step's |
| AgentProcess.LuxSwirlAgent.RecoverAgentKey | apps/agent/app/agent/registration.py:289-413 | Result and whole new state are the step's, for every answer, and what every run keeps still holds |
| AgentProcess.LuxSwirlAgent.RegisterAgainAfterRevoke | apps/agent/app/agent/registration.py:244-281 | Result and whole new state are the step's, and what every run keeps still holds |
| AgentProcess.LuxSwirlAgent.ReadOwnKey | apps/agent/app/agent/heartbeat.py:645-677 | What a 200 says of the agent's own key, and the retried save, are the step's |
| AgentProcess.LuxSwirlAgent.HandleAgentApproval | apps/agent/app/agent/heartbeat.py:716-743 | Result of an approval: a key recovered, or the agent registered again when the secret is void; what every run keeps still holds |
| AgentProcess.LuxSwirlAgent.SendHeartbeat | apps/agent/app/agent/heartbeat.py:292-392 | The whole new state after a heartbeat is the step's, for every answer, and what every run keeps still holds |
| Ssrf.InIsInterval | apps/shared/ssrf.py:207-216 | The prefix test of an address is a test of an interval |
| Ssrf.CarrierCarries | apps/shared/ssrf.py:115-135 | Every address of a carrier part embeds the IPv4 address its distance from the start of the part gives |
| Ssrf.CarriesMonotone | apps/shared/ssrf.py:153-163 | A later address of a carrier part embeds no earlier IPv4 address |
| Ssrf.Carrying | apps/shared/ssrf.py:153-163 | Every IPv4 address between those a carrier part's ends carry is carried by an address of the part |
| Ssrf.RefusedIsReached | apps/shared/ssrf.py:138-171 | A network the test refuses holds an address that reaches a blocked range |
| Ssrf.ReachedIsRefused | apps/shared/ssrf.py:138-171 | A network with such an address is refused |
| Ssrf.NetworkTestIsExact | apps/shared/ssrf.py:138-171 | For every network the test refuses it if and only if some address of it falls in a cloud-metadata range, through mapped, 6to4 and NAT64 forms too |
| Ssrf.FirstHolding | apps/shared/ssrf.py:212-216 | The range named holds the address or the IPv4 address it carries; none named means none holds it |
| Ssrf.RefusedExactlyWhenNoneIsAllowed | apps/shared/ssrf.py:246-275 | A host is refused if and only if it resolves and every address is blocked; else exactly its unblocked addresses are used |
| NetworkScan.Hosts | apps/shared/jobs/network_scan.py:195-214 | A direct scan's addresses: each host of the network once, in order |
| NetworkScan.ChunksTile | apps/shared/jobs/network_scan.py:25-33 | A network scanned in chunks is IPv4, and its /24s tile it |
| NetworkScan.ScanChunked | apps/shared/jobs/network_scan.py:316-359 | A chunked scan's addresses: each address that is neither first nor last of its /24, once |
| NetworkScan.Execute | apps/shared/jobs/network_scan.py:137-240 | Every accepted subnet has exactly its targets probed, each once; a refused one none |
| NetworkScan.TargetsAreSafe | apps/shared/jobs/network_scan.py:74-97 | No target of an accepted subnet lies outside it or in a cloud-metadata range |
| NetworkScan.ReportedIsProbed | apps/shared/jobs/network_scan.py:316-320 | The number reported is the number probed if and only if the scan was not chunked, and how far off it is |
| NetworkScan.TenIsScannedInChunks | apps/shared/jobs/network_scan.py:316-320 | 10.0.0.0/16 is accepted, scanned in chunks, and reported with 510 hosts too many |
| LogLine.LineReadsBack | apps/agent/app/core/logging_config.py:370-384 | Every text, whatever follows it, reads back from its line with each surrogate as its six-character escape and all else as it was |
| LogLine.ReadsBackUnchanged | apps/agent/app/core/logging_config.py:370-384 | It reads back unchanged if and only if it holds no surrogate |
| LogLine.EscapedIsOneLine | apps/agent/app/core/logging_config.py:370-384 | What is written holds no surrogate, control character or line break |
| JsonLine.ReadsBack | apps/agent/app/core/logging_config.py:284-298 | Every JSON value reads back from its line, whatever follows it |
| JsonLine.WholeLineReadsBack | apps/agent/app/core/logging_config.py:284-298 | A whole log line reads back as the record, its strings and names as above |
| JsonLine.LineIsOneLine | apps/agent/app/core/logging_config.py:284-298 | No log line holds a surrogate, a control character or a line break |
| LogRecord.FreeKey | apps/agent/app/core/logging_config.py:186-189 | It ends, at the least number of prefixes that frees the name |
| LogRecord.MakeRecord | apps/agent/app/core/logging_config.py:192-229 | Each caller field has an attribute of its own with its own value, no two the same, and no attribute of the record is overwritten |
| LogRecord.ExtrasGiveBack | apps/agent/app/core/logging_config.py:394-415 | However names collide, a line carries every caller field but the dropped ones under its own name with its own value, and every attribute the record's maker added |
| TextLine.SplitJoin | apps/agent/app/core/logging_config.py:349-367 | Lines joined and split again are the same lines |
| TextLine.OnlyTracebacksAddLines | apps/agent/app/core/logging_config.py:335-367 | A record is one line and one more for each line of a traceback, and every line after the first starts with four spaces |
| Uuids.CanonicalReadsBack | apps/backend/alembic/versions/015_status_page_item_shapes.py:71-97 | A canonical UUID text reads as the number it was made of, and is one of the stored forms |
| Uuids.UuidIsIdempotent | apps/backend/alembic/versions/015_status_page_item_shapes.py:83-97 | The canonical form of any accepted text names the same UUID and is its own canonical form |
| StatusPage.Normalize | apps/backend/alembic/versions/015_status_page_item_shapes.py:170-183 | The loop over the items computes what the lemmas below speak of; a value that is no list has no items |
| StatusPage.NormalizeIsIdempotent | apps/backend/alembic/versions/015_status_page_item_shapes.py:170-183 | On every list of JSON values, normalising twice is normalising once |
| StatusPage.NumberedInOrder | apps/backend/alembic/versions/015_status_page_item_shapes.py:170-183 | Items are numbered 0, 1, 2 and so on |
| StatusPage.KnownItemsKeepTheirOrder | apps/backend/alembic/versions/015_status_page_item_shapes.py:170-183 | Every check with a UUID and every group is kept, in order, a check with the UUID it had, and nothing is added |
| StatusPage.FilterIsKept | apps/backend/alembic/versions/015_status_page_item_shapes.py:112-140 | A filter is kept if and only if every field it sets has a value that field takes |
| StatusPage.FilterAgain | apps/backend/alembic/versions/015_status_page_item_shapes.py:112-140 | A fixed filter is kept as it is |
| StatusPage.ChecksAgain | apps/backend/alembic/versions/015_status_page_item_shapes.py:143-147 | A group's checks are at most 1000 canonical ids, each once, and are kept as they are |
| StatusPage.IdIsKept | apps/backend/alembic/versions/015_status_page_item_shapes.py:143-147 | Every UUID listed is among the ids before the cut at 1000 |
| StatusPage.KeptExactlyWithin | apps/backend/alembic/versions/015_status_page_item_shapes.py:143-147 | The ids kept name a check if and only if some listed text does with fewer than 1000 different ids before it |
| StatusPage.GroupAgain | apps/backend/alembic/versions/015_status_page_item_shapes.py:150-167 | A normalised group is normalised to itself |
| StatusPage.GroupComesInShape | apps/backend/alembic/versions/015_status_page_item_shapes.py:16-32 | Whatever was stored, a group comes out in the shape the admin API stores: its head's fields, and either a filter in shape or at most 1000 canonical check ids, each once |
| StatusPage.UnchangedExactlyInShape | apps/backend/alembic/versions/015_status_page_item_shapes.py:150-167 | The groups left alone are exactly those in that shape under their place's number |
| StatusPage.FixedIsDrawable | apps/backend/alembic/versions/015_status_page_item_shapes.py:150-167 | Every group comes out one the page can be drawn with |
| StatusPage.NeverWidens | apps/backend/alembic/versions/015_status_page_item_shapes.py:9-34 | Whatever group: if its page could be drawn, it comes out showing a subset of what it showed |
| StatusPage.WidensExactly | apps/backend/alembic/versions/015_status_page_item_shapes.py:9-34 | A group comes out showing a check it did not show before if and only if its filter is no object, some listed text is the check's id with fewer than 1000 other ids listed before it, and the page could not be drawn with it, the filter key being there or something listed being neither string nor null |
| StatusPage.NullFilterWidens | apps/backend/alembic/versions/015_status_page_item_shapes.py:150-167 | A group with a null filter and a listed check is one |
| SchemaClosure.Referenced | apps/backend/app/core/admin_openapi.py:22-38 | The worklist ends on every schema graph, cycles included, with exactly the known schemas reached from the node |
| SchemaClosure.LookComesToAnEnd | apps/backend/app/core/admin_openapi.py:26-37 | Each item looked at finds a new schema or leaves less to look at |
| SchemaClosure.AdminDocument | apps/backend/app/core/admin_openapi.py:53-63 | The document keeps the admin paths and exactly the schemas they reach |
| SchemaClosure.KeptIsClosed | apps/backend/app/core/admin_openapi.py:58-63 | What a kept path or schema refers to, if it was known, is kept |
| SchemaClosure.KeptIsLeast | apps/backend/app/core/admin_openapi.py:58-63 | Every closed choice of schemas holds those kept |
| SchemaClosure.KeptIsKept | apps/backend/app/core/admin_openapi.py:58-63 | Restricting the kept document again keeps the same schemas |
| CheckRetry.EveryRunIsSound | apps/agent/app/agent/check_executor.py:61-129 | In every run: each retry is expected to be over by the next run, the expectation bounds the timeout and every earlier attempt, attempts follow each other a pause apart, all but the last failed, and the run stops only on success, with no retry left, or with no time for one |
| CheckRetry.RetryEndsInTime | apps/agent/app/agent/check_executor.py:61-129 | A retry no longer than the timeout or than an earlier attempt ends by the check's next run |
| CheckRetry.RetriesFitTheInterval | apps/agent/app/agent/check_executor.py:97-106 | The retries made times the pause, and one timeout, fit in the interval, however many were asked for |
| CheckRetry.CheckExecutor.RunOnce | apps/agent/app/agent/check_executor.py:131-175 | An attempt's answer is a result however it ends, and the longest attempt so far includes it |
| CheckRetry.CheckExecutor.Attempt | apps/agent/app/agent/check_executor.py:113-129 | A retry runs exactly when its slot came in time, and gives the slot back |
| CheckRetry.CheckExecutor.Record | apps/agent/app/agent/check_executor.py:189-218 | One report more in the queue, each count one more where it belongs, and the counts still agree |
| CheckRetry.CheckExecutor.RunCheck | apps/agent/app/agent/check_executor.py:61-111 | The method makes the run spoken of, queues exactly one report with the last answer, the attempts made and the time it began, and holds no slot while it waits |
| JobQueue.FirstAt | apps/agent/app/agent/job_processor.py:178-191 | The entry handed out comes before every other |
| JobQueue.EveryRun | apps/agent/app/agent/job_processor.py:158-318 | In every run of arrivals, jobs and heartbeats, also between the posting of a result and its counting: no job is lost or taken twice, each one taken was the best then waiting, each one dealt with posted one result and counts once, and what was put into reports and is still to be adds up to the totals |
| JobQueue.ToldAddsUp | apps/agent/app/agent/heartbeat.py:192-194 | In every run, with any heartbeats lost: what the server was told and the current counts are the totals if and only if no lost heartbeat carried a count |
| JobQueue.LostCountIsNeverTold | apps/agent/app/agent/job_processor.py:392-410 | A run in which a job completes and the server is never told |
| JobQueue.EqualsInArrivalOrder | apps/agent/app/agent/job_processor.py:172-176 | Of two jobs of one priority the earlier is taken first |
| JobQueue.JobProcessor.EnqueueJobs | apps/agent/app/agent/job_processor.py:158-176 | Every job is queued under its negated priority and the next number |
| JobQueue.JobProcessor.ExecuteJob | apps/agent/app/agent/job_processor.py:218-318 | However a job ends, one result is posted and one count goes up, in the order of the branch |
| JobQueue.JobProcessor.GetStats | apps/agent/app/agent/job_processor.py:392-410 | The report is what was counted since the last one, and those counts start again |
| Renames.EachOperationOnce | apps/backend/scripts/verify_migration_chain.py:198-219 | The operations left and twice the lines are as many as the operations there were |
| Renames.PairsAreRenames | apps/backend/scripts/verify_migration_chain.py:198-219 | Every pair is a removal and an addition of one key under two names |
| Renames.NoRenameIsMissed | apps/backend/scripts/verify_migration_chain.py:198-219 | When a removal and an addition of one key are both left, the addition has a name that is on both sides |
| Renames.NoSharedNameIsPaired | apps/backend/scripts/verify_migration_chain.py:198-219 | No pair of a key takes a name that is on both sides if and only if the additions up to the first shared removal are of no removed name and all later ones are of that removal's name |
| Renames.NameOnBothSidesIsPaired | apps/backend/scripts/verify_migration_chain.py:206-208 | The input that shows it: a name on both sides reported as renamed |
| Renames.Renames | apps/backend/scripts/verify_migration_chain.py:180-219 | The two loops make those pairs, one line each, and leave the other operations in their order |

## Left out

- Two stores at once: insert, count and prune are one step here and separate statements there, so two flushes that store at the same moment can prune a row more than the cap asks for.
- The read of pending rows and the release of the held ones are one step here; a store between the two statements is not modelled.
- Rows of one `created_at` are read in id order, which SQLite does not promise.
- Stopping: in `Protocol` the stop flag shortens a replay pass between two groups (`ReplayStop`), and in `Posting` one POST between two attempts; task cancellation is not modelled.
- The outcome of a POST in `Protocol` and `Reporting` is the one `Posting.PostBatch` returns; its single attempts do not interleave with other tasks there.
- Local storage switched off, database writes that fail, rows that cannot be decoded, and the migration of the old JSON files (which inserts rows without pruning).
- Metrics, the batch-threshold signal, the flush timer, and the fitting of a single result to the server's limits.
- gzip, JSON and Fernet of stored payloads and of the credentials file are taken to read back what was written.
- `_write_in_place`, the fallback where a file cannot be renamed: it is documented as not atomic.
- AtomicWrite.FileSystem.WriteAtomically: it starts where the temporary file can be made (a directory that takes none leaves everything as it was); a write that keeps only part of its content and still reports success is not modelled, and neither is a failed clean-up of the temporary file.
- Lifecycle.EveryRun: it does not say which key is in use when no agent key is held, because the orphaned and the fresh registration leave the old one in the configuration; it does not say which key was refused when the secret is sent beside one, which `Secrecy.SecretBesideRefusedKeysOnly` decides; and the verdict it speaks of can be on an earlier secret, which `Warrants.WarrantedForTheSecretHeld` decides.
- Credentials.OperationsKeepFileTrue: it reads an empty string as none, as every use of one does; `Lifecycle.FileIsExact` says when the file is exact.
- Credentials.AgentCredentials.Load: a file that cannot be read or decrypted, and the encrypting of one still in plain text, are not modelled.
- LimitedReplay.SettledOftenIsDelivered: it counts the passes that settle the row; `Progress.NoRowWaitsLong` says how long an unheld row waits to be read, and `Rounds.DeliveredAfterPasses` how many passes all of it takes while nothing new is stored. While new rows keep coming a held row need never be read, as held rows are read only when there is no other.
- The rest of a heartbeat's answer (intervals, versions, jobs, check synchronisation), the callbacks' rebuilding of clients, and the shutdown heartbeat.
- DNS resolution, target parsing (`extract_hosts`) and the policy switch of `assert_target_allowed`; IP texts are taken as parsed.
- The probing itself, its concurrency and its progress reports; a scan here is the addresses it enumerates.
- Redaction of log records, the `_plain` form of odd values, float formatting (a number is its token) and the fallback line after a formatting error; the time stamp of the text form holds no line break.
- `int(text, 16)` on texts that are not plain hex digits, the characters refused in plain text, and the order an object lists its keys in are parameters of the migration; the 1000-row cap of a filter group's query is not modelled, and neither is the update of the stored rows.
- CheckRetry.CheckExecutor.RunCheck: between the deadline test in a slot and the start of the attempt no time passes, as no await lies between them; the log of configuration errors and a full result queue are not modelled.
- JobQueue.JobProcessor.ExecuteJob: start notices, shutdown and a job cancelled midway are not modelled.
- Renames.Renames: the texts of the other drifts are not modelled, and a line is its parts.
- Check types, web routers, settings, alerting, the scheduler and the maintenance jobs.
