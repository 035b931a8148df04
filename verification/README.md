# SentinelNet: verification model

A Dafny model of the parts of SentinelNet that keep state over time: the engine that turns rule
findings into evidence, incidents and conclusions; the single-writer queue under it; the store of MAC
sightings; the crash-safe import of the inventory; the printers and parsers of device
configurations; and the smaller pieces of state around them (network map, event projection,
listeners, counters, rate limit). Every file verifies on its own proofs; `dafny verify dfyconfig.toml`
checks the whole project.

How it is laid out:

| files | what they model |
|---|---|
| `Evidence`, `Correlator` | the evidence table; one correlation cycle: confirmation, findings, retractions |
| `Incidents`, `Grouping`, `Conclusions`, `Reasons` | the grouping of evidence, the incident rows as aggregates, reasoning and the archive of conclusions, and what a conclusion says in terms of the rows |
| `IncidentEngine`, `IncidentRuns` | the same operations as the program performs them on its tables; whole runs of the engine |
| `WriteQueue`, `FlowAggregation` | the bounded queue, batches, replay and supervision; flow buckets and the aggregating upsert |
| `IfaceNames`, `MacHistory`, `IfaceMigration` | interface-name expansion; the sighting table against the journal of scans; the key migration |
| `InventoryMigration` | the one-shot import as file operations, with a crash between any two |
| `Text`, `FortiConfig`, `VlanRanges` | text primitives; FortiOS stanza printer and parser; VLAN lists and the VLAN side of the C1200 conversion |
| `Projection`, `Events` | the projection of logs and snapshots in passes, and what the event table holds in terms of them |
| `LinkMap`, `Listeners`, `IfaceCounters`, `RateLimiter` | the remaining stateful pieces |

In each file a specification function says what an operation makes of the tables, a method performs it
step by step as the program does and is proved equal to that function, and lemmas prove what the
program promises about the function. A table is a sequence of rows whose position is the row id, or a
map where a unique key identifies a row; a statement on a table is atomic. Clocks are parameters:
`now` is the time a cycle is run for, `clock` the time a row is written. Times are integers of seconds,
except in `RateLimiter`, where they are reals.

Arbitrary here, and therefore quantified over in every statement: what the correlation rules produce
from the events, which outputs a rule declares, maintenance windows, topology and VLAN lookups, base
confidences (`Context`, `World`); what a database statement does and whether it fails (`exec`); what is
read out of a log message or a device snapshot (`Reader`); port normalization and channel-groups
(`Facts`); which binds succeed.

## What the code does differently from what it says

- A dead writer: the message in `core/db.py` says that new writes will be dropped, but the queue goes on
  accepting them until it is full, whatever else happens (`DeadWriterStillAccepts`); six crashing batches
  in a row get it there (`CrashesKillTheWriter`).
- Flows without a protocol or destination port: the unique key of the aggregation contains columns that
  may be NULL, so such flows never aggregate and each gets a row (`AggregationConserves`).
- An incident whose evidence is all retracted keeps its last cause and confidence in its own row, while
  its conclusion says that nothing stands: exactly then the two disagree
  (`RowAgreesWhileEvidenceStands`). An interface that comes back up more than GAP_S, and at most the
  window of the retraction, after it went down gets there (`RowOutlivesItsEvidence`).
- Two scans of one switch within a second: a position only the first found reads as found by the last
  (`SameSecondHidesDeparture`).
- Late rows: an incident closed for quiet takes no more rows, so a row that comes to grouping within
  GAP_S of a closed incident is split from it (`BlockedRowBreaks`, `PromptnessIsTight`).
- Rows dated back: the query has no upper bound in time, so a row more than GAP_S before an open incident
  of its entity is pulled into it over the gap (`StragglerIsPulled`, `OrderIsNeeded`). Statistical
  evidence is dated at the start of its hour and comes in this way. `RowKeepsPartition` says exactly when
  a row, late or not, in order or not, leaves the incidents equal to splitting the timelines at the gaps.
- `verdict` reports a port as clean while corrupt frames are being counted, if the total they are part
  of stands still (`HiddenGrowthLooksClean`).
- A shutdown leaves the shown status of an open listener active, and it stays so until a call wants the
  listener again (`StatusIsTruthful`).
- Waiting exactly as long as the rate limiter suggests is not enough (`RetryAfterTheWait`).
- A compact VLAN list with a run of more than 5000 numbers does not expand back (`CompactExpands`).

Two further failures are limits for arbitrary rules that the shipped ones do not meet: findings of one
event dated differently make the order of the rules visible (`IncoherentOrderMatters`; not for rules that
take time and tenant from the event, `RulesOnEventsAreOrderFree`), and a retraction that targets its own
rule has its proof taken back by the next cycle over the same window (`TargetedProofIsRetractedNextTime`;
not when the targeted rules retract nothing, `RepeatIsIdleInTwoLayers`).

## Model

| member | source | states |
|---|---|---|
| `Correlator.CorrelateKeeps` | observability/correlator.py:69-217 | whatever the rules produce, a cycle keeps dedup keys unique, keeps every row and every retraction already made, and leaves each retracted row pointing to a row that exists |
| `Correlator.FindingsBirths` | observability/correlator.py:189-217 | pass one changes no existing row, adds only rows of confirmed, declared, unsuppressed findings whose key the table did not hold, and misses none of them |
| `Correlator.BirthsAreConfirmed` | observability/correlator.py:176-194 | each row pass one adds belongs to a group seen on at least the required number of distinct events, however often an event is repeated |
| `Correlator.RetractionsFate` | observability/correlator.py:96-120 | after pass two a row is retracted exactly when it was before or a declared retraction covers it; the rows added are the proofs of declared retractions |
| `Correlator.FateDecided` | observability/correlator.py:159-227 | the outcome of a cycle for every non-proof key: standing, withdrawn or absent, with findings born in the cycle already in reach of its retractions |
| `Correlator.RetractionsAreExplained` | observability/correlator.py:96-120 | each row a cycle retracts, one born in the same cycle included, is selected by a declared retraction of the input (the first in order, for rows that are not proofs themselves), carries its rule, reason and time, and names the row with the dedup key of that retraction's proof |
| `Correlator.AddedRowsStateTheInput` | observability/correlator.py:69-217 | each row a cycle adds states field by field a finding that is backed by enough different events, declared and not under maintenance, or the proof of a declared retraction; every such finding has a row with its key |
| `Correlator.RulesOnEventsAreOrderFree` | observability/correlator.py:159-227 | when findings made from one event carry its time and its tenant, as every rule in `observability/rules.py` makes them, the standing, withdrawn and absent findings after a cycle are the same for every order of the produced items; rows registered as proofs of retractions are left out, since which proofs are registered depends on the order |
| `Correlator.TwoPassOrderFree` | observability/correlator.py:159-227 | for arbitrary rules: apart from the rows registered as proofs, which the order does decide, the outcome is the same for every order of the produced items if and only if findings of one new key are either all covered by a retraction or none |
| `Correlator.IncoherentOrderMatters` | observability/correlator.py:69-120 | the limit for arbitrary rules: two findings of one event dated differently, which the shipped rules do not produce, and a retraction between them make the order visible |
| `Correlator.RepeatIsIdleInTwoLayers` | observability/correlator.py:69-227 | reading the same window again changes nothing at all when no declared retraction targets a rule that itself retracts, as no retraction in `observability/rules.py` does |
| `Correlator.RepeatIsIdle` | observability/correlator.py:69-227 | for arbitrary rules: reading the same window again changes nothing at all if and only if no retraction registers, at its turn, a proof that some declared retraction targets but none produced later does |
| `Correlator.RepeatIsIdleOnTheTable` | observability/correlator.py:96-120 | the same read off the table: a second reading is idle exactly when the first leaves no active row that a declared retraction covers |
| `Correlator.RepeatChangesNothing` | observability/correlator.py:69-227 | in particular a second reading is idle when no proof is itself a target of a retraction |
| `Correlator.TargetedProofIsRetractedNextTime` | observability/correlator.py:96-120 | the limit for arbitrary rules: a retraction that targets its own rule, which no shipped one does, has the proof it registered retracted by the second cycle |
| `Correlator.InsertFinding` | observability/correlator.py:69-93 | the row of the finding's dedup key, inserted unless the key is there, and the number of rows added |
| `Correlator.ApplyRetraction` | observability/correlator.py:96-120 | registers the proof only if something is targeted, then retracts exactly the active targets by it, in place; each row retracted names the row that holds the proof |
| `Correlator.Observe` | observability/correlator.py:176-181 | the dictionary holds for each group of findings exactly the distinct event ids it was seen on |
| `Correlator.FindingPass` | observability/correlator.py:182-217 | the first loop leaves the table that pass one specifies, with the counts of rows added and of findings left out as unconfirmed or suppressed |
| `Correlator.RetractionPass` | observability/correlator.py:218-227 | the second loop leaves the table that pass two specifies and counts the proofs added |
| `Correlator.CorrelateOnce` | observability/correlator.py:157-227 | both loops in place equal the specified cycle, and the returned count is the growth of the table |
| `Incidents.ByTimeOrdered` | observability/incidents.py:54-62 | the selection of free evidence lists each row exactly once, by time of the fact and then id |
| `Incidents.MatchOpen` | observability/incidents.py:84-95 | the query finds an open incident of the entity within reach with the smallest opening time, and finds one whenever there is one |
| `Incidents.PrimaryTrigger` | observability/incidents.py:191-199 | the trigger with the smallest (severity, time, id) among the triggers given, none exactly when there is no trigger |
| `Grouping.SoundAfterAssignAll` | observability/incidents.py:79-119 | after any assignments each incident holds evidence of one tenant and entity, its count is their number, its opening, last time and severity their minimum, maximum and minimum |
| `Grouping.AssignAllRows` | observability/incidents.py:79-119 | every listed row with an entity ends in an incident, and nothing else about any row changes |
| `Grouping.TimelineIsSplit` | observability/incidents.py:74-119 | two grouped rows of an entity share an incident exactly when no gap over GAP_S lies between them, if and only if the spans of the incidents of an entity are more than a gap apart and none has a gap inside |
| `Grouping.RowKeepsPartition` | observability/incidents.py:84-119 | a row of any date keeps the incidents equal to splitting the timelines at the gaps if and only if the incidents within GAP_S of it are one open incident, or there are none and no open one lies ahead |
| `Grouping.JoinsNeighbour` | observability/incidents.py:84-119 | after such a row neighbours in the timeline of an entity share an incident exactly when the gap between them is at most GAP_S |
| `Grouping.BlockedRowBreaks` | observability/incidents.py:84-95 | a row of any date within GAP_S of a closed incident of its entity is split from it |
| `Grouping.StragglerIsPulled` | observability/incidents.py:84-95 | a row with no incident within GAP_S and an open one further ahead is put into one ahead, over the gap |
| `Grouping.NewestFits` | observability/incidents.py:84-95 | for a row met in time order that condition is: no closed incident of its tenant and entity reaches to within GAP_S of it |
| `Grouping.PromptIsNotBlocked` | observability/incidents.py:135-149 | an incident closed for quiet is out of reach of every row that is grouped at most QUIET_S - GAP_S late |
| `Grouping.BatchKeepsPartition` | observability/incidents.py:79-119 | a batch in any order leaves the partition right after each of its rows if and only if it was right before and each row fits when its turn comes |
| `Grouping.OrderedBatch` | observability/incidents.py:79-119 | after a batch in time order the partition is right if and only if it was right before and no row of the batch is blocked by a closed incident |
| `Conclusions.RecordKeeps` | observability/incidents.py:272-297 | recording leaves exactly one conclusion in force for the incident, archives the one before only when it differs, and touches no other incident |
| `Conclusions.RecordWrites` | observability/incidents.py:289-297 | what recording writes: the new conclusion with its time, and that time on the conclusion of the incident that it replaces, nothing else |
| `Conclusions.LiveIsLast` | observability/incidents.py:283-288 | the query for the conclusion in force finds the last one recorded |
| `Conclusions.RethinkKeeps` | observability/incidents.py:202-269 | one recomputation relabels its incident, brings its conclusion up to date, and changes nothing else |
| `Conclusions.RethinkAllKeeps` | observability/incidents.py:121-130 | the sweep does this for exactly the touched incidents |
| `Conclusions.RethinkConcludes` | observability/incidents.py:202-297 | after an incident has been reasoned about, the conclusion in force for it cites exactly its active evidence, by time and id, or counts the retracted pieces when none is active; what is in force for other incidents stays |
| `Reasons.SourcesAdduceFacts` | observability/incidents.py:152-188 | each kind of corroboration is listed, once and in the fixed order, if and only if its own fact holds of the standing rows: a row of the role, two different rules, a switch port, a device state of the tenant and of an address of the rows within 300 s, a known VLAN |
| `Reasons.RethinkSaysWhy` | observability/incidents.py:202-269 | after reasoning, the conclusion in force and the incident row name the standing trigger with the smallest severity, time and id with its version and parameters, the catalogue's base for its rule (40 if absent, 25 without a trigger), the corroborations that hold, base + 8 points for each up to 95, rules, evidence by role and the title |
| `Reasons.GroupSaysWhy` | observability/incidents.py:74-132 | after a whole grouping cycle the same holds of every incident that received a row or lost one within the hour and still has standing evidence |
| `Reasons.GroupTakes` | observability/incidents.py:54-62 | grouping takes exactly the active rows with an entity recorded within the last hour and in no incident yet |
| `Conclusions.GroupSettles` | observability/incidents.py:74-132 | a grouping cycle within its lookback of every retraction leaves each incident with one conclusion in force resting on exactly its active evidence |
| `Conclusions.RegroupIsIdle` | observability/incidents.py:74-132 | grouping again with no new evidence, and with devices, VLANs, topology and base confidences as they were, adds no conclusion and changes no table |
| `Conclusions.CorroborationOnlyHelps` | observability/incidents.py:152-242 | evidence that triggers nothing leaves the cause, never lowers the confidence, and the confidence stays at or under 95 whatever the base |
| `Conclusions.GroupCorroborates` | observability/incidents.py:74-132 | over a whole cycle: if no free evidence of the incident's own tenant and entity is a trigger, the conclusion recorded names the cause the standing evidence already had, with at least the confidence it gave |
| `IncidentEngine.CorroboratingSources` | observability/incidents.py:152-188 | the appended list is the list of source kinds present, in their fixed order; `Reasons.SourcesAdduceFacts` says what each stands for |
| `IncidentEngine.GroupByRole` | observability/incidents.py:244-246 | the dictionary filled row by row holds for each role its evidence ids in order |
| `IncidentEngine.RecordConclusion` | observability/incidents.py:272-297 | the in-place update of the archive equals the specified one |
| `IncidentEngine.ReasonAbout` | observability/incidents.py:202-269 | the in-place recomputation of an incident equals the specified one, every early return included, and leaves a conclusion and a row that the standing evidence justifies |
| `IncidentEngine.AssignRow` | observability/incidents.py:84-119 | creating or extending the incident and linking the row leave the specified tables |
| `IncidentEngine.GroupOnce` | observability/incidents.py:74-132 | the loop over free evidence and the sweep over touched incidents leave the specified tables; the result counts the linked rows |
| `IncidentEngine.CloseStale` | observability/incidents.py:135-149 | sets the closing time of exactly the open incidents whose last row is more than QUIET_S old, changes nothing else and counts them |
| `IncidentRuns.EveryRunIsSound` | observability/incidents.py:74-149 | in every state reachable by correlation, grouping and closing in any order, incident rows are the aggregates of their evidence, keys are unique, proofs exist, each incident has at most one conclusion in force, never equal to the one before, and its row says what that conclusion says unless it says that nothing stands |
| `IncidentRuns.HistoryIsKept` | observability/correlator.py:96-120 | over any run a retraction is never undone and a row never leaves its incident |
| `IncidentRuns.ConclusionsFollowRetractions` | observability/incidents.py:121-130 | whenever grouping runs within LOOKBACK_S of the correlations before it, after each grouping every incident has exactly one conclusion in force and it rests on exactly the evidence that stands |
| `IncidentRuns.RowAgreesWhileEvidenceStands` | observability/incidents.py:222-269 | after every grouping of a run whose groupings keep up with the correlations, an incident row agrees with the conclusion in force if and only if some of its evidence still stands |
| `IncidentRuns.RowOutlivesItsEvidence` | observability/incidents.py:222-269 | an interface seen down and, within the window of the retraction, up again: the first incident has no standing evidence and its row disagrees with its conclusion exactly when more than GAP_S lies between, so that the proof begins an incident of its own |
| `IncidentRuns.GreedyGroupingSplitsAtGaps` | observability/incidents.py:74-149 | in every run, ordered or not: after every operation and every single assignment the incidents are exactly what splitting each entity's timeline at gaps over GAP_S gives, if and only if each row fits at its turn |
| `IncidentRuns.OrderedGroupingSplitsAtGaps` | observability/incidents.py:74-149 | every run that meets the rows of an entity in time order ends with that partition if and only if no row came to grouping with a closed incident of its entity in its reach |
| `IncidentRuns.PromptGroupingSplitsAtGaps` | observability/incidents.py:74-149 | in particular every run in time order that groups each row at most QUIET_S - GAP_S after its time ends with that partition, quiet closing included |
| `IncidentRuns.ClosingsAreQuiet` | observability/incidents.py:135-149 | in every run a closed incident had been quiet for more than QUIET_S when it was closed |
| `IncidentRuns.PromptnessIsTight` | observability/incidents.py:135-149 | runs in time order of two rows GAP_S apart, the second grouped late and after a closing: the partition holds, and no row is blocked, exactly up to a delay of QUIET_S - GAP_S |
| `IncidentRuns.OrderIsNeeded` | observability/incidents.py:84-119 | runs of two rows with the incident of the first still open: the partition holds exactly when the second is dated no more than GAP_S before the first |
| `IncidentRuns.TwoSeenSplits` | observability/incidents.py:74-149 | every run of two sightings with a closing between them: exactly which dates and closings end with the right partition |
| `IncidentRuns.LaterRowMends` | observability/incidents.py:84-119 | a partition broken by a row pulled over a gap is right again after a later row dated inside the gap |
| `WriteQueue.RunKeeps` | core/db.py:262-375 | in every reachable state processed statements are, in order, among those taken from the queue, and the counters and the database are what processing them gives |
| `WriteQueue.EveryAttemptIsAccounted` | core/db.py:262-375 | attempts = committed + dropped full + dropped error + queued + in flight + lost to crashes, and at most a batch is lost per restart |
| `WriteQueue.CrashFreeRunLosesNothing` | core/db.py:355-375 | statements that never raise anything but database errors never restart the writer, and no payload is lost |
| `WriteQueue.BatchingIsInvisible` | core/db.py:317-352 | for every split into batches and every failing statement: exactly when no payload was lost to a crash, the processed statements are the accepted ones in queue order, and then the database is these applied one by one, failing ones skipped and counted |
| `WriteQueue.TransactionIsSkipping` | core/db.py:336-340 | a batch that commits gives what applying its statements one by one gives |
| `WriteQueue.TransactionOutcome` | core/db.py:336-340 | a batch whose statements all go through and whose commit does is written; one in which a statement raises anything but a database error leaves the database untouched, however far it got, is lost whole and costs a restart, the sixth of which kills the writer |
| `WriteQueue.ReplayOutcome` | core/db.py:341-352 | after a rollback the statements run again from the database as it was, the refused ones dropped and counted, up to the first that raises anything else, from which on they are lost |
| `WriteQueue.DeadWriterStillAccepts` | core/db.py:262-271 | whatever happens after the writer is dead, it stays dead and changes nothing, and the queue goes on accepting, in order, exactly as many payloads as it has room for |
| `WriteQueue.CrashesKillTheWriter` | core/db.py:355-375 | payloads that raise something other than a database error, one batch each: the writer is dead after exactly MAX_WRITER_RESTARTS + 1 of them |
| `WriteQueue.Writer.EnqueueWrite` | core/db.py:262-271 | appends and accepts, or drops and counts when QUEUE_MAX payloads wait |
| `WriteQueue.Writer.TakeBatch` | core/db.py:322-335 | takes the first payloads in order, as many as found and at most BATCH_SIZE |
| `WriteQueue.Writer.Execute` | core/db.py:336-352 | one commit for all, or rollback and replay on a database error, or the supervisor on any other |
| `WriteQueue.Writer.ReplayBatch` | core/db.py:341-352 | one transaction per payload, dropping and counting only those that fail |
| `WriteQueue.Writer.Supervise` | core/db.py:355-375 | counts the restart, loses the batch in flight, and declares the writer dead after MAX_WRITER_RESTARTS |
| `FlowAggregation.WindowStart` | core/db.py:274-287 | the minute containing the exporter time if it is within 300 s of reception, else containing the reception time |
| `FlowAggregation.AggregationConserves` | core/db.py:290-302 | bytes, packets and flow count stored under a key are the sums over the flows of the key; a key without NULLs has one row, another one row per flow |
| `FlowAggregation.LastFlowIsNamed` | core/db.py:290-302 | exporter and source stored under a key are those of its last flow |
| `FlowAggregation.OrderDoesNotMatter` | core/db.py:290-302 | the stored sums are the same for every order of the flows |
| `FlowAggregation.StoredFlowsAreTheSums` | core/db.py:305-352 | through queue, batches and writer: what is stored under a key is the sum of the flows processed |
| `IfaceNames.ExpandIsIdempotent` | collectors/mac_collector.py:51-69 | expanding an expanded interface name changes nothing, for every text |
| `IfaceNames.EveryFormExpands` | collectors/mac_collector.py:51-69 | no abbreviation hides another: a text that reads as one of the table in any case, in front of a digit, becomes the name of its own entry |
| `IfaceNames.AbbreviationsExpand` | collectors/mac_collector.py:55-64 | what Gi, Te, XGi, 10Ge, Twe, 25Ge, Fo, 40Ge, Hu, 100Ge, Fa, fe, Eth, Et, e and Po stand for |
| `MacHistory.ReplayIndexes` | collectors/mac_history.py:278-320 | the table is an index of the journal: one row per position ever found, first and last time found, number of sightings |
| `MacHistory.RowsTellLastSighting` | collectors/mac_history.py:278-320 | the table has a row for exactly the positions sighted, by address, switch, interface and VLAN, and the row shows the uplink, the channel and the time of the last sighting |
| `MacHistory.NormalMac` | collectors/mac_history.py:42-54 | a normalized address is the twelve hexadecimal digits of the raw text in lower case and pairs; two texts give the same one exactly when their digits agree, and normalizing again changes nothing |
| `MacHistory.LastRowsAreLastScan` | collectors/mac_history.py:323-341 | the rows at MAX(last_seen) are the last non-empty scan's positions if and only if no earlier scan of that second found anything else |
| `MacHistory.PortHistoryIsTheJournals` | collectors/mac_history.py:1305-1332 | with strictly later scan times, a MAC of a port is new, present or gone exactly as the journal of scans says, and no other MAC is listed |
| `MacHistory.SameSecondHidesDeparture` | collectors/mac_history.py:323-341 | two scans in one second make a departed position read as current |
| `MacHistory.PortMacHistory` | collectors/mac_history.py:1305-1332 | the loop over rows collapses each access MAC to its widest span and gives it its status |
| `MacHistory.Store.RecordSightings` | collectors/mac_history.py:278-320 | the loop over rows leaves the table that the scan specifies and counts new, updated and unreadable rows |
| `IfaceMigration.MigrateStep` | collectors/mac_history.py:167-184 | each turn of the loop over the stale snapshot keeps uniqueness, expansion of the rows behind, and the totals per expanded key |
| `IfaceMigration.Store.MigrateUnexpanded` | collectors/mac_history.py:167-184 | afterwards every row is expanded, positions are unique, each expanded key has the same total of sightings and the same latest one, and its channel is the expanded channel of the last row moved there, or its own |
| `IfaceMigration.ExpandMayBeUsed` | collectors/mac_collector.py:51-69 | the expansion in use meets the one assumption of the migration |
| `InventoryMigration.CrashesLoseNothing` | core/inventory_migration.py:37-103 | after any crashes: until the database exists all sources are untouched; then it is the complete import; every source survives under one of its two names and no backup is overwritten |
| `InventoryMigration.DatabaseHoldsTheSources` | core/inventory_migration.py:61-94 | the database that a directory ends up with after any crashes: a device for exactly the address and group pairs of the host file, with its last row, without its location when there is no locations file; the same for decommissioned ones; the organizations of the groups file and an empty one for each that only a location names; the locations |
| `InventoryMigration.ImportsUnlessRefused` | core/inventory_migration.py:51-103 | a run that finishes after any crashes leaves such a database unless there is nothing to import or a host row names a location the locations file lacks |
| `InventoryMigration.CrashesLeaveNoTrace` | core/inventory_migration.py:51-103 | a run that finishes after any number of crashes leaves exactly what an uninterrupted run leaves |
| `InventoryMigration.RefusalTouchesNothing` | core/inventory_migration.py:54-79 | with nothing to import or an orphan location, no run performs any file operation |
| `InventoryMigration.DataDir.Consume` | core/inventory_migration.py:37-48 | renames, in order, exactly the sources without a backup |
| `InventoryMigration.DataDir.Migrate` | core/inventory_migration.py:51-103 | performs exactly the planned file operations in their order, refuses exactly when a host row names a location that does not exist, and otherwise leaves the database that holds the sources |
| `FortiConfig.FortiTree` | fw_analyzers/fortios.py:40-71 | the loop builds the specified tree and on any text never pops the root |
| `FortiConfig.HandleLine` | fw_analyzers/fortios.py:46-70 | one line pushes, pops or sets as its kind says |
| `FortiConfig.RenderStanza` | ai/config_analyzer.py:1021-1029 | the appended lines joined are the specified text of the stanza |
| `FortiConfig.SetLineFolds` | fw_analyzers/fortios.py:60-70 | a set line with a key in any case is read under the key in lower case, with exactly its values |
| `FortiConfig.SetLineReads` | ai/config_analyzer.py:1025-1027 | a printed set line read back sets its key to exactly its list of values, blanks and empty values included |
| `FortiConfig.DocumentReads` | fw_analyzers/fortios.py:40-71 | reading printed stanzas one after the other grafts each onto the tree, a later one of the same name overriding key by key |
| `FortiConfig.RoundTrip` | ai/config_analyzer.py:1021-1029 | printing stanzas with distinct (section, key) and parsing the text gives back exactly their sections, keys and value lists |
| `Text.SplitJoined` | fw_analyzers/fortios.py:46 | splitting lines joined by line feeds gives the lines back |
| `VlanRanges.ExpandVlanList` | ai/config_analyzer.py:32-51 | the loop over chunks gives the specified list, malformed, reversed and over-long ranges skipped |
| `VlanRanges.ListDenotes` | ai/config_analyzer.py:32-51 | the expanded list names exactly the numbers that some piece between commas denotes, as its digits or as one between two ends in order and less than 5000 apart |
| `VlanRanges.Compact` | ai/convert_c1200.py:333-342 | extending the last run in place gives the maximal runs of the sorted set and their text |
| `VlanRanges.RunsCover` | ai/convert_c1200.py:333-342 | the runs list exactly the numbers, and no two of them touch |
| `VlanRanges.CompactExpands` | ai/config_analyzer.py:32-51 | expanding the compact text gives the ascending list of the set if and only if no run has more than 5000 numbers |
| `VlanRanges.ConversionCovers` | ai/convert_c1200.py:269-370 | every VLAN that some interface block has as access, native, voice or SVI VLAN or in an allowed list of at most 256 entries, or that show vlan names, is built in or created by some emitted vlan line, if and only if there are no 5001 consecutive VLANs to be added |
| `VlanRanges.CreatedExactly` | ai/convert_c1200.py:269-370 | the emitted lines create exactly the VLANs some vlan block defines and those to be added, except in stretches of more than 5000 |
| `VlanRanges.PortsEmittedOnce` | ai/convert_c1200.py:287-296 | every physical port some interface converts to is emitted, and none twice |
| `VlanRanges.ConvertBlock` | ai/convert_c1200.py:280-304 | one block adds its vlan line and the numbers it defines, or its port unless taken and the VLANs that its own fields use |
| `VlanRanges.ConvertVlans` | ai/convert_c1200.py:269-370 | the loop over the blocks gives the vlan lines of the blocks, one compact line of the missing VLANs if there are any, and the ports in the order emitted |
| `LinkMap.CollectIsWhatWasAnnounced` | core/core_engine.py:2460-2508 | the accumulator holds one entry for exactly the unordered pairs announced, with each end's own ports, guessed ports and aggregates being exactly what was announced |
| `LinkMap.ArrivalOrderIsInvisible` | core/core_engine.py:2460-2561 | the same announcements in any order and repetition give the same pairs, per-end ports and aggregate names, aggregate flag and member count, up to swapping the two ends |
| `LinkMap.PairsAreUnordered` | core/core_engine.py:2470 | the key of two devices does not depend on who announces, and two pairs share it only if they are the same pair |
| `LinkMap.CollectLinks` | core/core_engine.py:2357-2508 | the nested loops over devices and neighbours fill the specified accumulator |
| `LinkMap.EmitLinks` | core/core_engine.py:2510-2561 | one link for each pair announced and for no other, each the function of what its two ends announced |
| `Projection.CutsAreInvisible` | observability/normalize.py:307-392 | however arrivals are cut into capped passes, the events are those of one uncapped pass over the rows up to the cursor, each projected once and in order |
| `Projection.SameProgressSameEvents` | observability/normalize.py:307-392 | two runs over the same snapshots that got equally far hold the same events but for ingestion time |
| `Projection.EveryLogHasItsFate` | observability/normalize.py:174-205 | each syslog row is projected exactly once, still ahead, or passed over for good, and the last exactly when the first fruitful pass left it behind as too old |
| `Projection.LaterRowsDoNotMatter` | observability/normalize.py:342-349 | what a snapshot gives rise to does not depend on snapshots that arrive after it |
| `Projection.ImageIsTheFacts` | observability/normalize.py:64-80 | no event is overwritten and none invented: the table holds exactly the facts of the projected rows |
| `Events.EventsAreGiven` | observability/normalize.py:174-392 | after any arrivals and capped passes the table holds an event, with its content field by field, if and only if a row gone over gives rise to it: its log or state event, a change event for each of the first 20 fields that differ from the latest earlier snapshot of the same device and kind, with both values, and an event for each interface |
| `Events.PreviousPrecedes` | observability/normalize.py:343-347 | the snapshot compared with is the one with the greatest id below that of the row among those of its device and kind |
| `Projection.FactsAreTagged` | observability/normalize.py:321-388 | the facts of one row have distinct keys that carry its id |
| `Projection.PassAdvances` | observability/normalize.py:307-392 | a pass projects the next pending rows up to the cap, silent polls included, and leaves exactly the others pending |
| `Projection.PassesDrain` | observability/normalize.py:307-392 | enough capped passes leave nothing pending |
| `Projection.StillLater` | observability/normalize.py:174-184 | once the cursor has moved no pass is a first pass again, so its time filter never applies again |
| `Projection.Store.Emit` | observability/normalize.py:64-108 | inserts an event, or replaces only the metrics of the one with its key |
| `Projection.Store.FindChanges` | observability/normalize.py:350-354 | the fields in both snapshots with another value, in order, at most 20 |
| `Projection.Store.EmitSnapshot` | observability/normalize.py:318-388 | state, change and interface events of a row in their order, a silent poll giving one event only; `Events.EventsAreGiven` says what they are |
| `Projection.Store.Project` | observability/normalize.py:174-205 | the loop over the selected rows and the saved cursor equal the specified pass |
| `Listeners.RunKeeps` | observability/listener_manager.py:55-209 | after any calls and failed binds: recorded handles and addresses are those open, none is open twice, a poller task exists exactly when its interval is positive, and only recorded tasks are alive |
| `Listeners.StoppedBeforeRestart` | observability/listener_manager.py:65-98 | between two starts of a listener its first handle is stopped |
| `Listeners.NoTaskIsDropped` | observability/listener_manager.py:137-180 | every task ever created is cancelled unless it is the recorded one |
| `Listeners.ApplyReaches` | observability/listener_manager.py:55-180 | which listeners run after a call, bind by bind, that one running as wanted is not touched, and that pollers and services run as configured |
| `Listeners.ApplyObeysSettings` | observability/listener_manager.py:55-180 | after a call a listener is open exactly if the master switch and its own are on and it binds or ran there already, at the configured address; pollers run at the configured intervals and services while enabled |
| `Listeners.CleanApplyReaches` | observability/listener_manager.py:55-98 | when every wanted bind succeeds the call reaches the configuration |
| `Listeners.RepeatIsIdle` | observability/listener_manager.py:107-180 | repeating a call does nothing if and only if the first one brought up every wanted listener |
| `Listeners.StatusIsTruthful` | observability/listener_manager.py:55-209 | after any calls, failed binds and shutdowns a listener status says active exactly when the listener is open, at its address, if and only if no shutdown closed it while open without a later call wanting it |
| `Listeners.ShutdownLeavesStatus` | observability/listener_manager.py:182-209 | starting and shutting down reaches such a state: exactly the listeners the call opened are shown active afterwards |
| `Listeners.Manager.ApplyListeners` | observability/listener_manager.py:55-104 | the three loops, in any dictionary order, leave each listener as specified |
| `Listeners.Manager.ApplyConfig` | observability/listener_manager.py:107-180 | the call leaves the specified state of listeners, pollers and services |
| `Listeners.Manager.ShutDown` | observability/listener_manager.py:182-209 | cancels every task and stops every listener |
| `IfaceCounters.CountersOf` | observability/iface_errors.py:71-79 | the numeric counters, without the details that exceed their total, whatever is deleted first |
| `IfaceCounters.AddUp` | observability/iface_errors.py:82-104 | the nested loops, in any field order, give the specified growth and reset flag |
| `IfaceCounters.CutsAddUp` | observability/iface_errors.py:82-104 | cutting a window at a shared sample: growths add up and a reset is in one half or the other |
| `IfaceCounters.Balance` | observability/iface_errors.py:82-104 | for a counter always present, last = first + growth - drops |
| `IfaceCounters.ResetMeansDrop` | observability/iface_errors.py:82-104 | the reset flag is set exactly when some counter goes down at some step |
| `IfaceCounters.GrowthIsReported` | observability/iface_errors.py:93-103 | a counter has a growth, never negative, exactly when two samples in a row carry it |
| `IfaceCounters.VerdictOf` | observability/iface_errors.py:107-132 | the loops, in any dictionary order, give the specified verdict |
| `IfaceCounters.StatusMeans` | observability/iface_errors.py:107-132 | exactly which growths make a port erroring, discards or clean; a detail whose read total stands still is not seen |
| `IfaceCounters.WorstIsMostUrgent` | observability/iface_errors.py:107-132 | the class named is the most urgent of those with a growing counter, named for exactly the erroring and discarding ports |
| `IfaceCounters.WorstByCounter` | observability/iface_errors.py:22-45 | the class named, counter by counter |
| `IfaceCounters.ErrorCountByCounter` | observability/iface_errors.py:122-127 | the error count, counter by counter: for each direction the growth of the total, or else of its details |
| `IfaceCounters.ReadableByCounter` | observability/iface_errors.py:71-79 | the counters kept, counter by counter |
| `IfaceCounters.ConsistentCleanMeansQuiet` | observability/iface_errors.py:107-132 | while no detail outgrows its total, clean means exactly that nothing grew |
| `IfaceCounters.HiddenGrowthLooksClean` | observability/iface_errors.py:56-132 | two sound readings with growing CRC errors and a standing total give clean |
| `IfaceCounters.HiddenGrowthNamesTheClass` | observability/iface_errors.py:107-132 | with discards beside them the status is discards under the class physical |
| `IfaceCounters.DetailsAreNotCountedTwice` | observability/iface_errors.py:122-127 | a detail beside its total never moves the error count |
| `IfaceCounters.TotalsDecide` | observability/iface_errors.py:122-127 | with both totals read the error count is what they grew by |
| `RateLimiter.PruningIsFiltering` | ai/ai_assistant.py:199-213 | over any calls and reconfigurations on a monotone clock, pruning the deque answers, waits included, as filtering the whole history would |
| `RateLimiter.NoMinuteExceedsTheLimit` | ai/ai_assistant.py:195-213 | no closed minute holds more requests allowed under a limit than the highest limit in force |
| `RateLimiter.ConstantLimitHolds` | ai/ai_assistant.py:199-213 | with a constant positive limit no closed minute sees more than that many requests accepted |
| `RateLimiter.RetryAfterTheWait` | ai/ai_assistant.py:209-211 | exactly when a refused request is accepted if asked again; up to and including the end of the suggested wait it is refused |
| `RateLimiter.SlidingWindow.Allow` | ai/ai_assistant.py:199-213 | popping from the left in place gives the specified state and answer |
| `RateLimiter.SlidingWindow.Reconfigure` | ai/ai_assistant.py:195-197 | changes the limit and nothing else |

## Left out

- Correlator.RulesOnEventsAreOrderFree: the rules themselves (`observability/rules.py`) are not part of this model; that each takes event id, time and tenant of a finding from one event is the hypothesis here.
- Conclusions.GroupSettles: does not extend to `cause_kind` and `confidence` of the incident row, which the code leaves alone when nothing stands; `RowAgreesWhileEvidenceStands` says exactly when they agree.
- IncidentRuns.GreedyGroupingSplitsAtGaps: exact for the partition being right at every moment; whether a partition once broken is right again at the end of an unordered run is not characterised, `LaterRowMends` shows that it can be.
- WriteQueue.EveryAttemptIsAccounted: does not model stopping and draining the writer, nor a statement that succeeds whose own commit fails, which counts as a failing statement.
- MacHistory.PortHistoryIsTheJournals: without pruning by retention, and before `reclassify_sightings` reassigns uplinks on reading; the order in which the entries are listed is not stated.
- FortiConfig.RoundTrip: for section names without surrounding blanks, names without outer quotes or line breaks, lower-case ASCII keys without blanks, and values without quotes or whitespace other than the space; other texts are parsed by the model but need not read back.
- FortiConfig.SetLineReads: for the same keys and values; a key with letters outside ASCII is parsed by the model without changing their case, which the program may change.
- VlanRanges.ExpandVlanList: digits are the ASCII ones; the digits of other scripts, which `int` reads too, are not modelled.
- VlanRanges.ConvertVlans: covers VLANs and port collisions only; the port an interface converts to and the VLANs it uses are fields of the block, and the conversion of interface and global commands is not modelled.
- LinkMap.ArrivalOrderIsInvisible: compares ports by normalized name; the spelling shown, the order of the lists, the first port shown and an aggregate label taken from a port name do depend on the order.
- Projection.CutsAreInvisible: rows are never deleted between passes; flows and quarantined exporters are projected without a row cursor and are not modelled.
- Listeners.RunKeeps: calls do not overlap, since the program takes no lock across its awaits; a stop that raises counts as stopped; an error of a bind other than an operating-system error is not modelled.
- IfaceCounters.CountersOf: counters are integers; the truncation of floating-point numbers and unknown counter names are not modelled.
- IfaceNames.ExpandIsIdempotent: letters are compared case-insensitively in ASCII only, and digits are the ASCII ones.
- Dedup hashes and the texts of reasoning and parameters: compared as values.
- Columns carried along unread: switch name, vendor, tenant, probe and uplink target of a sighting; addresses, port and protocol of a log event.
- SQL itself: tables are sequences and maps with atomic statements; a connection that fails between statements is not modelled.
- Target resolution in the network map (host names, same-name devices, discovered nodes): announcements arrive resolved.
- Retention, exports, the routes, the collectors' transport and vendor-specific command parsing: input and output around the modelled state.
- Messages collected in `steps` by the inventory migration, and malformed JSON or CSV, which abort it before any file is touched.
