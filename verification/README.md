# Verified models of the AuraGrid example applications

The example applications are small distributed programs over a grid SDK: a ledger that
writes under a lease, an auditor and a chat that read by cursor, a sentinel that watches
tokens and sequence numbers, a telemetry stream with acknowledgements, a provocateur that
runs attacks in order, a training service and a beacon. This project models the code
between the SDK calls and proves what that code guarantees over every run, every
interleaving and every pattern of failures.

`dafny verify dfyconfig.toml` checks everything.

## How it is built

| file | what it holds |
|---|---|
| Values, Decimal, TopicLog | JSON values and payloads, transaction-id printing, the append-only topic and its cursor |
| Audit, Chat | the two cursor consumers |
| LedgerSystem, LedgerInvariant, LedgerTheorems, LedgerAudit, LedgerVerdicts, LedgerFencing, LedgerProgram | any number of ledgers, the lease, the topic and one auditor as a step system; its invariant; the theorems about runs, about the audited topic and its verdicts and about lost leases; and the two loops, proved to make such runs |
| Invariants, Sentinel | the invariant checker and the service that feeds it |
| Torrent, TorrentProgram | the telemetry stream as a step system, and the client's and worker's variables |
| EventBus, Attacks, Playbook | the bus the attacks share with everybody else, the five attacks, the playbook |
| Foundry, Beacon | the training service and the beacon |

A run of a step system is a sequence of steps between two `await`s. The imperative members
(`RunLedger`, `RunAuditor`, `Listener`, `InvariantChecker`, `Service`, `Session`, the
attacks, `AttackPlaybook`, `ModelFoundryService`) follow the program's loops and fields;
other processes act at every `await`, and every call may fail, be refused or be cut off.

## Assumptions about the grid

The grid's code is not in the repository. The model uses only this of it:

- `publish` appends; the sequence number is above all earlier ones of the topic, and the
  first one is at least 1. A publish that raises or is cut off may have landed all the
  same; if so, it has by the time the caller goes on.
- `consume(after, count)` returns the first `count` records above `after`, in order.
- A granted lease carries a token above all earlier ones; the grid may take a lease away or
  grant it to somebody else at any time.
- A renewal succeeds only for the current token, and may fail for it too; releasing a stale
  token changes nothing.
- Nobody but the ledgers puts a fencing token into the records of the ledger topic. Other
  writers may put anything else there.

A payload is its text together with its JSON value, or the fact that it has none. The text
is concrete where a scan reads it, in the telemetry records of the flood; a record arriving
from elsewhere has any text.

## What the code does that its documentation does not say

- The ledger's README says that storage rejects writes after a lost lease. `publish` is not
  given the token, so up to five transactions per lost lease do land (`StaleWritesBounded`,
  and `BoundIsReached` for every number of losses). From any point of any run on, the promise
  holds for an instance that has lost its lease if and only if the instance stands at a
  renewal, is releasing or has exited (`SafeIffNoWriteLeft`).
- Transaction ids restart at TX-0001 with every holder. They are unique on the topic exactly
  as long as one holder has written; together with the token they always are.
- A lease granted to a task that is cancelled before it sees the reply is never released.
- The sentinel samples an environment variable that does not change while it lives, and so
  reports floor(n / 3) token violations after n health cycles of a healthy grid.
- The phantom attack scans the first 100 telemetry records only. In the fixed order the
  flood comes first, so its verdict is settled before the phantom is registered.
- The false-tattle verdict cannot see a revocation once the target has published anything.
- An emergency stop ends no training job: the stopped job still releases its model. It also
  clears the flag under a job started since; while a job is active, the flag is right exactly
  as long as no job has ended since the last accepted start (`FlagWhileActive`).
- The sentinel's event monitors report records that come twice or out of order, and never a
  gap.
- The beacon's heartbeat count counts attempts. It is the number of published heartbeats
  exactly if no publish was lost.

## Model

| member | source | states |
|---|---|---|
| LedgerInvariant.Reachable | tier3-sovereign-ledger/ledger.py:41-94 | after every run of any number of instances: the topic is ordered, every token's records are TX 1..m, every instance's counter, markers and release count agree with its records, tokens are distinct, the auditor is in step |
| LedgerTheorems.AtMostFiveStaleWrites | tier3-sovereign-ledger/ledger.py:52-94 | no instance puts more than five transactions on the topic after it lost its lease, whatever the others do |
| LedgerTheorems.StaleWritesBounded | tier3-sovereign-ledger/ledger.py:52-94 | a run that loses k leases has at most 5k stale transactions in all |
| LedgerTheorems.BoundIsReached | tier3-sovereign-ledger/ledger.py:79-86 | for every k there is a run with exactly k losses and 5k stale transactions |
| LedgerTheorems.StaleForGood | tier3-sovereign-ledger/ledger.py:82-86 | a lost lease stays lost for the rest of the run, and the instance keeps its token |
| LedgerTheorems.StaleWritesLeft | tier3-sovereign-ledger/ledger.py:52-94 | from any point of any run on, an instance that has lost its lease writes at most what is left of its budget, and some continuation writes all of it |
| LedgerTheorems.SafeIffNoWriteLeft | tier3-sovereign-ledger/ledger.py:78-94 | no continuation of a run writes under a lost lease if and only if the instance stands at a renewal, is releasing or has exited |
| LedgerFencing.AtMostFiveLateRecords | tier3-sovereign-ledger/ledger.py:52-94 | on the topic of any run, at most five records of a token lie behind any record of a newer token |
| LedgerAudit.AuditIsExact | tier3-sovereign-ledger/auditor.py:28-56 | over interleaved ledgers and one auditor: verdicts are those of exactly the records up to the cursor, once and in order; per token the audited ids are TX 1..m, and m never exceeds what the holder published |
| LedgerAudit.AuditCatchesUp | tier3-sovereign-ledger/auditor.py:28-59 | after enough quiet polls every record is judged and each holder's audited ids are TX 1..published |
| LedgerAudit.OwnIsPublished | tier3-sovereign-ledger/ledger.py:58-73 | the records under an instance's token are as many as the instance published, counted over the run |
| LedgerAudit.MarkersTrackRecords | tier3-sovereign-ledger/ledger.py:78-86 | the m-th marker is the number of the instance's record 5m; markers strictly increase; at most five of its records lie beyond the last one |
| LedgerAudit.RenewsAtMultiplesOfFive | tier3-sovereign-ledger/ledger.py:79-82 | an instance renews exactly after every fifth transaction and hands over the number of its latest record |
| LedgerAudit.ReleasedExactlyOnce | tier3-sovereign-ledger/ledger.py:43-45 | no more than one release; exactly one by the time of exit if and only if the grant was seen |
| LedgerFencing.LostGrantIsNeverReleased | tier3-sovereign-ledger/ledger.py:41-49 | after a grant whose reply is lost, in every continuation the instance never releases, and the lease stays with a token nobody knows until the grid takes or grants it |
| LedgerAudit.TokenAndIdAreAKey | tier3-sovereign-ledger/ledger.py:58-64 | two records of the topic never share both token and transaction id |
| LedgerAudit.IdsDistinctIffOneWriter | tier3-sovereign-ledger/ledger.py:53-59 | ids alone are distinct on the topic if and only if at most one token has written |
| LedgerProgram.RunLedger | tier3-sovereign-ledger/ledger.py:22-94 | the loop, under any schedule, makes a run of the step system, exits, and releases once if it saw the grant, after which an answered release has left the lease; it stops only at a call not answered as hoped, or at a multiple of five when a renewal was refused because the lease was no longer its own, so never by the latter if nobody else and not the grid moves the lease |
| LedgerProgram.Iterate | tier3-sovereign-ledger/ledger.py:54-88 | one iteration goes on if publish, due renewal and sleep were answered as hoped, unless the renewal was refused for a lost lease, and only then |
| LedgerProgram.RunAuditor | tier3-sovereign-ledger/auditor.py:17-59 | the loop, under any schedule, judges the first records of the topic, none missing, none repeated, one batch per turn; a verdict passes iff its record has a signature and a certificate |
| LedgerVerdicts.VerdictsFollowSteps | tier3-sovereign-ledger/auditor.py:35-56 | in every run a verdict passes iff the step that put its record on the topic attached signature and certificate; a transaction is labelled with an id that reads back to its number, a record that is no object INVALID, one without an id UNKNOWN |
| LedgerVerdicts.AllPassIffAllSigned | tier3-sovereign-ledger/auditor.py:42-56 | all verdicts pass iff every record judged so far came with signature and certificate |
| Decimal.TxIdRoundTrip | tier3-sovereign-ledger/ledger.py:59 | reading back a printed id gives the counter, for every counter, also past 9999 |
| Decimal.TxIdWidth | tier3-sovereign-ledger/ledger.py:59 | ids have the fixed width exactly up to 9999 |
| Decimal.TxIdExamples | tier3-sovereign-ledger/ledger.py:59 | TX-0001, TX-0120, TX-12345 |
| TopicLog.ConsumeAt | tier3-sovereign-ledger/auditor.py:30-33 | a read at a cursor gives exactly the next records |
| EventBus.TopicsGrow | tier2-grid-gauntlet/provocateur/attacks/event_flood.py:42-54 | as the bus grows every topic only gains records, at least those the attacks put there |
| Audit.PollKeepsStep | tier3-sovereign-ledger/auditor.py:28-56 | one batch of the auditor judges the next ten records, or all that are left, and leaves the cursor right behind them |
| Audit.QuietBacklogDrains | tier3-sovereign-ledger/auditor.py:28-59 | with a quiet backlog of n the n-th poll comes back empty if and only if ceil(n/10) polls were made, and then all is judged |
| Chat.Listener.ShowOne | tier5-signed-chat/chat.py:66-82 | one event gets its fate: shown, skipped as no object, or lost when printing fails |
| Chat.Listener.ShowBatch | tier5-signed-chat/chat.py:65-82 | a batch is the next five records, or all that are left; they meet their fates up to and including the first that cannot be printed |
| Chat.Listener.Listen | tier5-signed-chat/chat.py:60-88 | under any failures every record up to the cursor met exactly one fate, at most one is lost per round, every successful read makes progress, and each line of the screen is, in log order, that of a record up to the cursor: verified iff its signature is a non-empty string, with its fields user and msg or their defaults |
| Chat.FateExact | tier5-signed-chat/chat.py:66-82 | a record that is no object is skipped; of the others those that cannot be printed are lost and the rest are shown, each with the line its fields and signature give |
| Chat.ScreenFollowsFates | tier5-signed-chat/chat.py:66-82 | the screen is the shown records in log order: nothing twice, nothing out of order, and every shown record is on it |
| Chat.ScreenFollowsLog | tier5-signed-chat/chat.py:66-82 | every line shows what its record says, and the cursor is past that record |
| Invariants.InvariantChecker.CheckFencingToken | tier2-grid-gauntlet/sentinel/invariants.py:24-35 | the new state is that of the trace with this call added; a token that exceeds the stored one is stored, any other is recorded with it as a violation |
| Invariants.InvariantChecker.CheckEventOrdering | tier2-grid-gauntlet/sentinel/invariants.py:37-49 | the same per topic |
| Invariants.InvariantChecker.IsHealthy | tier2-grid-gauntlet/sentinel/invariants.py:78-80 | healthy iff every stream fed so far was strictly increasing and no lease was missing |
| Invariants.TokensExact | tier2-grid-gauntlet/sentinel/invariants.py:24-35 | after any trace the stored token is the maximum fed, and the violations are the tokens that are no strict left-to-right maxima, each with the maximum it failed to exceed |
| Invariants.TopicExact | tier2-grid-gauntlet/sentinel/invariants.py:37-49 | the same for every topic |
| Invariants.LeasesExact | tier2-grid-gauntlet/sentinel/invariants.py:51-61 | the lease violations are the checks that found no lease, in order |
| Invariants.HealthyIffAllIncreasing | tier2-grid-gauntlet/sentinel/invariants.py:78-80 | no violation at all iff all streams are strictly increasing and the lease was always present |
| Invariants.SharedCheckerIsSeparable | tier2-grid-gauntlet/sentinel/app.py:106-115 | one checker shared by all monitors finds per stream what a checker of its own would |
| Invariants.InterleavingIsIrrelevant | tier2-grid-gauntlet/sentinel/app.py:174-181 | two interleavings of the same streams give the same stored values, findings and health |
| Sentinel.Service.CheckToken | tier2-grid-gauntlet/sentinel/app.py:94-103 | an unset or unparsable variable is skipped, a number is fed to the checker |
| Sentinel.Service.Live | tier2-grid-gauntlet/sentinel/app.py:149-213 | tokens are sampled at startup and at every third tick; the token findings are the samples that set no new maximum, the findings of each topic the events that set none, and there is no violation at all iff both kinds of stream strictly increase; cycles count ticks and direct calls; the tattles kept are exactly the telemetry objects whose masId is this service, in order and as often as they came |
| Sentinel.EvidenceIsPrivate | tier2-grid-gauntlet/sentinel/app.py:123-131 | services of different names never keep the same evidence |
| Sentinel.UnchangedTokenIsReported | tier2-grid-gauntlet/sentinel/app.py:94-103 | an unchanged token is reported exactly floor(n/3) times after n ticks |
| Sentinel.SampleAt | tier2-grid-gauntlet/sentinel/app.py:191-206 | sample k is the variable at tick 3k |
| Sentinel.MonitorFindsRepeatsOnly | tier2-grid-gauntlet/sentinel/app.py:106-115 | on any topic of the grid the findings of a monitor are empty iff the records it was handed came in log order and none twice |
| Torrent.ReachableConserves | tier4-telemetry-torrent/src/TorrentWorker/Program.cs:31-41 | in every reachable state acknowledgements received, in flight, chunk held and chunks in flight read 0..written-1, the channels keep their bounds, and the worker has counted the chunks that left the request channel |
| Torrent.EveryRunEnds | tier4-telemetry-torrent/src/TorrentClient/Program.cs:49-81 | for all capacities of at least one, every interleaving has at most 4n+3 steps, cannot stop before the client is done, and without a fault acknowledges every chunk once in order |
| Torrent.NeverStuck | tier4-telemetry-torrent/src/TorrentClient/Program.cs:49-81 | until the client is done some task can move |
| Torrent.AcksAreAPrefix | tier4-telemetry-torrent/src/TorrentWorker/Program.cs:29-52 | also after a fault the acknowledgements counted are those of the first chunks |
| Torrent.ReadToTheEnd | tier4-telemetry-torrent/src/TorrentClient/Program.cs:49-57 | a reader that came to the end counted the acknowledgements of all chunks the worker counted, but for one it may still hold |
| Torrent.ConcurrentReaderIsNeeded | tier4-telemetry-torrent/src/TorrentClient/Program.cs:49-57 | a client that read acknowledgements only after writing can get stuck if and only if the chunks exceed the room in both channels and the worker's hand |
| TorrentProgram.WithinOneChunk | tier4-telemetry-torrent/src/TorrentClient/Program.cs:59-62 | the bytes sent are within one chunk of the target if and only if the chunk count fits an int |
| TorrentProgram.Session.WorkerStep | tier4-telemetry-torrent/src/TorrentWorker/Program.cs:26-52 | the worker's next move is a step of the system, and it has none only when blocked |
| TorrentProgram.Session.WriterStep | tier4-telemetry-torrent/src/TorrentClient/Program.cs:70-80 | the writer's next move, likewise |
| TorrentProgram.Session.ReaderStep | tier4-telemetry-torrent/src/TorrentClient/Program.cs:49-57 | the reader's next move, likewise |
| TorrentProgram.RunTorrent | tier4-telemetry-torrent/src/TorrentClient/Program.cs:46-88 | the program ends under every schedule, by an exception only after a fault; otherwise the worker's bytes are those of the acknowledged chunks or of one more, and without a fault acks equal chunks |
| Attacks.ScanForTransfer | tier2-grid-gauntlet/provocateur/attacks/lease_race.py:68-82 | not held iff a transfer record lies before any value that aborts the scan; undecodable records are skipped; accepted is the negation of held |
| Attacks.ScanServiceState | tier2-grid-gauntlet/provocateur/attacks/lease_race.py:65-87 | the verdict and evidence about the first 50 records: the counters are kept only if nothing ended the scan, and a failed read counts as held |
| Attacks.ExecuteLeaseRace | tier2-grid-gauntlet/provocateur/attacks/lease_race.py:22-100 | the bid goes out before the scan and is on the topic iff it landed; lost iff the read got through and a transfer record lies in the first 50 records of the topic before any value that ends the scan; an executor that does not return was stopped by its last call |
| Attacks.RaceVerdictMeans | tier2-grid-gauntlet/provocateur/attacks/lease_race.py:68-87 | an answered verdict is lost iff one of the first 50 records is an object with masId the target and holderNodeId provocateur-node, with no JSON value but objects before it |
| Attacks.StateRecords | tier2-grid-gauntlet/provocateur/attacks/lease_race.py:42-61 | the fields of the records the attacks write to the service-state topic; none names a lease holder |
| Attacks.FloodLoop | tier2-grid-gauntlet/provocateur/attacks/event_flood.py:41-60 | however the loop ends, the records it leaves are the events that landed, each with its number; if it completes, published is one past the last success, errors the failures, and there were ceil(n/100) pauses |
| Attacks.FloodAccounting | tier2-grid-gauntlet/provocateur/attacks/event_flood.py:42-56 | successes <= published <= count, published + errors >= count, with equality iff all successes come first |
| Attacks.SuccessesLand | tier2-grid-gauntlet/provocateur/attacks/event_flood.py:42-56 | successes <= landed events <= count, and they are the successes iff no publish that raised has landed |
| Attacks.FloodIsComplete | tier2-grid-gauntlet/provocateur/attacks/event_flood.py:42-56 | a flood of n that returns made exactly n publishes behind its announcement, and telemetry has grown by those of them that landed |
| Attacks.LandedEventAt | tier2-grid-gauntlet/provocateur/attacks/event_flood.py:42-54 | event k, if it landed, stands behind the earlier ones that did |
| Attacks.FloodEventIsNumbered | tier2-grid-gauntlet/provocateur/attacks/event_flood.py:44-53 | event k carries the number k in its fields, and its text reads back to k |
| Attacks.FloodNeverMentions | tier2-grid-gauntlet/provocateur/attacks/event_flood.py:44-53 | no flood event contains the phantom's name |
| Attacks.ExecuteEventFlood | tier2-grid-gauntlet/provocateur/attacks/event_flood.py:23-96 | held iff the first read after the flood is answered; counters from how the publishes were answered, records from which of them landed, the latter also when the attack is cut off |
| Attacks.ExecuteFalseTattle | tier2-grid-gauntlet/provocateur/attacks/false_tattle.py:21-83 | the counter is the number of the last report that was answered; held iff the read got through and the topic of the target is not empty |
| Attacks.TattleVerdictIsInsensitive | tier2-grid-gauntlet/provocateur/attacks/false_tattle.py:55-70 | once the target has published anything, the verdict holds iff the read got through |
| Attacks.ExecuteStaleInvoke | tier2-grid-gauntlet/provocateur/attacks/stale_invoke.py:23-97 | a returned result is always both held and a trigger; nothing is read, and the fake invocation is on the topic iff it landed |
| Attacks.ExecutePhantomRegistration | tier2-grid-gauntlet/provocateur/attacks/phantom_registration.py:23-122 | registration, sleep, scan and clean-up, each record on the topic iff it landed; held iff the read got through and one of the first 100 telemetry records at that moment mentions the phantom |
| Attacks.PhantomVerdictMeans | tier2-grid-gauntlet/provocateur/attacks/phantom_registration.py:76-91 | an answered verdict is held iff one of the first 100 telemetry texts at that moment is a + "PhantomService" + b, and the evidence is the number of such texts |
| Playbook.AttackPlaybook.ExecuteWithTimeout | tier2-grid-gauntlet/provocateur/playbook.py:85-135 | a timeout or exception is entered under the name of the scenario as a lost defence that triggers; there is no result exactly if the last call was answered by a shutdown |
| Playbook.AttackPlaybook.ExecuteAll | tier2-grid-gauntlet/provocateur/playbook.py:63-73 | results of the enabled scenarios in registration order; a prefix only after a shutdown |
| Playbook.AttackPlaybook.ExecuteOne | tier2-grid-gauntlet/provocateur/playbook.py:75-83 | runs the first scenario of that name, enabled or not; no result only if there is none or after a shutdown |
| Playbook.AttackPlaybook.Summary | tier2-grid-gauntlet/provocateur/playbook.py:137-152 | the totals are the numbers of results that hold and that trigger; held + triggers = total + returned stale invocations, and no more are held than attacks returned, over any history of calls |
| Playbook.PlaybookLaw | tier2-grid-gauntlet/provocateur/playbook.py:137-142 | the same law, as a statement about histories |
| Playbook.OnlyReturnedHold | tier2-grid-gauntlet/provocateur/playbook.py:108-135 | in any history a result holds only if its attack returned; a failed one triggers and is lost |
| Playbook.HeldAreReturned | tier2-grid-gauntlet/provocateur/playbook.py:137-142 | no more defences count as held than attacks returned, and every other step counts as a trigger |
| Playbook.FloodFillsWindow | tier2-grid-gauntlet/provocateur/attacks/event_flood.py:41-56 | a flood of which 100 events landed leaves at least 100 telemetry records, also if it was cut off |
| Playbook.CountersShowFlood | tier2-grid-gauntlet/provocateur/attacks/event_flood.py:42-56 | 100 answered publishes, or a returned flood with at most 900 errors, mean that 100 events landed |
| Playbook.FloodSealsPhantom | tier2-grid-gauntlet/provocateur/attacks/phantom_registration.py:72-94 | in any history, after a flood of which 100 events landed, returned or not, a returned phantom verdict is held iff its read got through and the first 100 telemetry records as the flood left them mention the phantom |
| Playbook.PhantomVerdictSettled | tier2-grid-gauntlet/provocateur/attacks/phantom_registration.py:76-91 | once 100 records are there, no later record changes the verdict of a scan that gets through |
| Playbook.PhantomVerdictExact | tier2-grid-gauntlet/provocateur/attacks/phantom_registration.py:76-91 | with at most 100 records a scan that gets through misses nothing |
| Playbook.PhantomNeedsOthers | tier2-grid-gauntlet/provocateur/attacks/phantom_registration.py:76-85 | a held phantom verdict needs a telemetry record that mentions the phantom and was committed by somebody other than the attacks |
| Playbook.RaceNeedsOthers | tier2-grid-gauntlet/provocateur/attacks/lease_race.py:72-80 | the playbook's own writes never trigger the lease-race alarm: a lost verdict needs a record naming the attacker as holder that somebody else committed |
| Playbook.ProvocateurService.RunPlaybook | tier2-grid-gauntlet/provocateur/app.py:54-59 | a completed run has five results under the registered names in order, and a flood that got through seals the phantom verdict |
| Foundry.ModelFoundryService.StartTraining | tier4-model-foundry/foundry.py:37-48 | starts a job iff none is flagged |
| Foundry.ModelFoundryService.EmergencyStop | tier4-model-foundry/foundry.py:51-55 | clears the flag and leaves every job pending |
| Foundry.ModelFoundryService.FinishTraining | tier4-model-foundry/foundry.py:57-61 | clears the flag, releases v2 and ends one job |
| Foundry.StatusExact | tier4-model-foundry/foundry.py:37-61 | the flag holds iff some accepted start has had no stop or completion since; pending jobs are starts minus completions; v2 iff a job completed |
| Foundry.StopsAllowJobs | tier4-model-foundry/foundry.py:50-61 | pending jobs are at most the stops, plus one while the flag is set |
| Foundry.StopFreeIsExclusive | tier4-model-foundry/foundry.py:39-46 | without stops there is never a second job and the flag tells whether one runs |
| Foundry.JobsPileUp | tier4-model-foundry/foundry.py:54 | k stops allow k + 1 jobs at once, for every k |
| Foundry.StoppedJobStillReleases | tier4-model-foundry/foundry.py:51-60 | after a stop the job is still pending and still releases its model |
| Foundry.FlagWhileActive | tier4-model-foundry/foundry.py:37-61 | while a job is neither stopped nor ended, the flag is set iff no job has ended since the last accepted start |
| Foundry.OnlyStoppedJobsMislead | tier4-model-foundry/foundry.py:50-61 | as long as no stopped job has ended, at most one job is active and the flag says whether one is |
| Foundry.FlagStaysMisled | tier4-model-foundry/foundry.py:37-61 | start, stop, start and the end of the first job clear the flag under the second; a third job may then start beside it, and the end of the second clears the flag under the third |
| Beacon.Service.HeartbeatLoop | tier1-sovereign-beacon/app.py:153-175 | the counter is the number of heartbeats tried; those on the bus are the ones that landed |
| Beacon.Service.Live | tier1-sovereign-beacon/app.py:126-204 | startup, landed heartbeats, shutdown with the count; nothing after a cancelled startup |
| Beacon.LandedFacts | tier1-sovereign-beacon/app.py:164-175 | landed counts increase; there are as many as were counted iff no publish was lost |

## Left out

- SDK internals, signing, certificates, transport, service decorators: not part of this model; signatures and certificates are optional strings whose presence is read.
- Clocks, sleep durations and timeouts in seconds: a sleep is a step, a timeout is an answer that can come at any `await`.
- JSON text and byte encoding, but for transaction ids and the flood's telemetry text; fields that nobody reads are dropped from payloads.
- Log lines, the texts of `observed_behavior` and of violations, `get_status`, `get_violations`, `list_attacks` and `get_evolution_triggers`: they report fields.
- The chat's input loop and the partial output of a failed `print`: a record counts as shown only if printing and flushing both succeed.
- The shutdown of the sentinel and the provocateur, and their lifecycle events.
- Executors other than the five attacks: the playbook law is about the attacks it registers.
- Unparsable texts that `int()` accepts with signs, blanks or underscores are a number to the model as well: the environment decides which of the three cases a text is.
- GridTestRunner, the scenario scripts, the cognitive beacon, the entropy engine, the orchestrator, the resource glutton, packaging scripts and manifests: plumbing or members with one branch.
- LedgerSystem.Step: the amount, timestamp and payload text of a transaction are not modelled, since no code reads them.
