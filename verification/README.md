# A verified model of the replication control plane

The operator keeps PostgreSQL objects in line with Kubernetes resources by
repeating passes, any of which may fail at any call. This project models the
parts of it in which much depends on what earlier passes left behind, and
proves what they keep over all runs.

| files | what they model |
|---|---|
| `Catalog`, `Eligibility` | which tables a replication may publish, judged against both catalogs |
| `Apply`, `NoStarvation`, `Gate`, `Mirror` | a small semantics of the publisher and of the sequential apply worker, and what a publishable verdict means in it |
| `Publication`, `PublicationRuns` | converging a publication's tables under refusals, and how it settles over passes |
| `Claims`, `ClaimRuns` | which of several replications into one target publishes a table |
| `Paths`, `CycleRuns` | refusing a replication that would close a loop, under interleaved creation and passes |
| `Lifecycle`, `Reconcile`, `Trace`, `LifecycleRuns` | one pass as single steps over two servers and the status, the same pass as the code carries it out, and what passes stopped anywhere and retried leave |
| `Logins`, `LoginRuns` | swapping the replication login |
| `Teardown`, `TeardownRuns` | removing everything from the record alone, in repeated attempts |
| `Deletion` | both together: what is left once a replication is deleted |
| `SlotOrdering` | why the slot is made before the subscription |
| `Health`, `HealthRuns` | the health states, their hysteresis and the inactivity stamp |
| `Retention`, `Memberships`, `Parameters` | schemas and extensions, group memberships and default roles, database settings |
| `Locks`, `Cache` | the reference-counted lock table and the single-flight cache, under interleaved tasks |
| `Wrappers` | option and result types |

Parts that change servers, dictionaries or results step by step are classes and
methods proved against pure functions; the theorems over runs are about those
functions. A call that may fail is modelled by a number of answers after which
the servers fall silent, by a set of refused statements, or by a run whose
passes stop after so many steps.

## Where a property fails

Each of these is proved, with a concrete case or the exact condition.

- The gate asks nothing of the target when the source sends whole rows
  (`REPLICA IDENTITY FULL`), but a target with a primary key looks rows up by
  it all the same: `NoStarvation.ChangesTaken`, `NoStarvation.FullIdentityCanStall`.
- A key with a generated column, before PostgreSQL 18: `NoStarvation.GeneratedKeyCanStall`.
- A replacement that is refused, or a table only kept, is recorded with the new
  filter's hash, and the old filter then stays: `PublicationRuns.RecordHonestIff`;
  exactly when: `PublicationRuns.OldFilterStaysIff`.
- The cycle check overlooks replications being deleted or not resolving:
  `CycleRuns.DeletionHidesALoop`, `CycleRuns.ResolutionHidesALoop`; exactly when that
  lets a cycle in: `CycleRuns.AcyclicThroughoutIff`.
- The inactivity stamp has whole seconds, so a stall can be reported up to a
  second early: `HealthRuns.ReportedWhen`, `HealthRuns.ReportedEarly`.
- Stopping between an object's creation and its comment makes every later pass
  refuse the object: `LifecycleRuns.RefusesItsOwnIff`, `LifecycleRuns.RefusedForGood`.
- A publication that is found and adopted is not recorded until a later stage
  is, so two interruptions can hide two stages: `LifecycleRuns.TwoStagesMayBeMissing`;
  exactly how long, and what else is then missing: `LifecycleRuns.AdoptedStaysUnrecordedIff`,
  `LifecycleRuns.TwoStagesMissingIff`.
- A membership given to a provided login just before an interruption is taken
  for somebody else's afterwards: `LifecycleRuns.CompletedRecordsAll`, `LifecycleRuns.ProvidedGrantMissed`.
- Recording a publication that had to be made again writes an empty login; a
  teardown that then follows returns with the login left:
  `LifecycleRuns.LoginForgottenIff`, `TeardownRuns.NamelessLoginSurvives`; exactly when
  the name stays lost past the login's own stage: `LifecycleRuns.LostIff`, `LifecycleRuns.LoginOffRecordIff`. That record, and
  the one of a login that has changed, also removes the subscription's number:
  `LifecycleRuns.NumberForgottenIff`, `TeardownRuns.UnnumberedSyncSlotsStay`. A pass that
  completes regains both: `LifecycleRuns.CompletionRecovers`.
- Table-sync slots are matched by a subscription's number alone, which two
  targets may share: `TeardownRuns.OthersSyncSlotsSurviveIff`, `TeardownRuns.AnothersSyncSlotIsTaken`.
- A swap of logins that fails after it is recorded forgets the old login, or its
  Secret, and one that fails before forgets the new: `LoginRuns.InterruptedSwapIff`,
  `LoginRuns.SecretStays`, `LoginRuns.UnrecordedLoginStays`; exactly what is left over any
  run: `LoginRuns.OwnLoginLeftIff`, `LoginRuns.GrantLeftIff`; and a credential may name the operator's own
  login: `LoginRuns.ConservedThroughoutIff`.
- A failed pass leaves schemas, memberships and default roles on no record:
  `Retention.AbandonedAttemptLeaks`, `Memberships.AbandonedGrantStays`; exactly when that
  matters: `Retention.FailedLeavesNoMarkIff`, `Memberships.FailedLeavesNoMarkIff`,
  `Memberships.FailedLeavesNoDefaultIff`.
- A recorded membership need not be one the operator granted, contrary to the
  comment at its revocation: `Memberships.RevokedWithoutBeingGranted`,
  `Memberships.RevokedWithoutBeingGrantedIff`.
- Policies of earlier passes matter for an extension the server has ceased to
  offer: `Retention.PoliciesMatter`, `Retention.PoliciesMatterIff`.
- Unquoting takes any value in quotes for a quoted one: `Parameters.ReadsBackIff`,
  `Parameters.EntryComesBackIff`.

## Model

| member | source | states |
|---|---|---|
| Eligibility.Candidates | src/pg_operator/reconcile/eligibility.py:129-156 | the candidates are exactly the tables listed one by one, as they are listed, and the ordinary or partitioned, permanent tables of the selected schemas that are neither excluded nor partitions |
| Eligibility.Judge | src/pg_operator/reconcile/eligibility.py:171-392 | a verdict holds an issue if and only if its condition is raised, for every reason, table and early return |
| Eligibility.IdentityIssues | src/pg_operator/reconcile/eligibility.py:443-518 | an issue is listed exactly when a published relation raises it: no identity, a filter or a list it does not cover, a generated column in it |
| NoStarvation.IdentityRaisedIff | src/pg_operator/reconcile/eligibility.py:443-518 | one of those is raised for a relation if and only if the publisher would refuse its updates and deletes |
| Eligibility.TargetIssues | src/pg_operator/reconcile/eligibility.py:312-368 | each relation applied into is reported exactly for what the target lacks: the table, columns, emptiness, an owner, values, a key that is sent |
| NoStarvation.WritesAccepted | src/pg_operator/reconcile/eligibility.py:261-276 | the source accepts every write to every relation of a publishable table: no update or delete is refused for its identity, filter or list |
| NoStarvation.ChangesTaken | src/pg_operator/reconcile/eligibility.py:309-368 | the target can take a published change exactly when it need not look a row up or finds the columns it looks rows up by in the key sent |
| NoStarvation.NeverStarves | src/pg_operator/reconcile/eligibility.py:399-440 | for every stream of inserts, updates and deletes into a publishable table whose lookup columns are sent, nothing is refused and apply never stops |
| NoStarvation.LookupSentByKey | src/pg_operator/reconcile/eligibility.py:443-518 | the gate's own checks imply that the lookup columns are sent where the identity is a key and either the source is 18 or later, a column list is given or no generated column is in the key |
| NoStarvation.FullIdentityCanStall | src/pg_operator/reconcile/eligibility.py:399-440 | counterexample: with REPLICA IDENTITY FULL a target keyed on a column of its own passes the gate and stops at the first delete |
| NoStarvation.GeneratedKeyCanStall | src/pg_operator/postgres/publication.py:267-299 | counterexample: before 18, a key with a generated column passes the gate and stops apply |
| Gate.KeepsIff | src/pg_operator/reconcile/eligibility.py:112-126 | a verdict keeps membership if and only if the source's catalog is in order, the publisher refuses no update and delete of it and no older replication has it: stated over the catalog, whatever the target holds |
| Gate.PublishableIff | src/pg_operator/reconcile/eligibility.py:171-392 | a table is publishable if and only if it may stay and, for each relation applied, the target's table is there, takes every column and key the worker needs, and the copy finds no rows |
| Gate.KeptAcceptsWrites | src/pg_operator/reconcile/eligibility.py:112-126 | the source accepts every write to every relation of a table that keeps its membership, whatever its target lacks and whether or not it goes through its root |
| Gate.IdentityReasons | src/pg_operator/reconcile/eligibility.py:443-518 | an identity issue names just what the publisher would say of an update or delete |
| Gate.ShapeReasons | src/pg_operator/reconcile/eligibility.py:203-392 | an unknown column, a filter or list that a leaf would not have, a leaf that is never decoded and a claim are reported if and only if the catalog has them |
| Gate.AccessReasons | src/pg_operator/reconcile/eligibility.py:278-308 | ownership, reading and row security, of the table and its leaves, are reported if and only if they stand in the way |
| Gate.RowReasons | src/pg_operator/reconcile/eligibility.py:312-345 | an issue on the target names why the worker would stop at an insert, or that the initial copy would meet rows |
| Gate.KeyReasons | src/pg_operator/reconcile/eligibility.py:346-368 | and one about the target's key names why it would stop at a delete whose key is sent in whole |
| Mirror.StepMirrors | src/pg_operator/postgres/publication.py:373-385 | one write leaves the target the projection of the source, given equal keys, no filter and a start as a copy |
| Mirror.MirrorsThroughout | src/pg_operator/reconcile/eligibility.py:171-392 | after every prefix of every possible stream the target is the projection of the source |
| Mirror.TargetMirrorsSource | src/pg_operator/reconcile/eligibility.py:171-392 | the mirror holds for every publishable ordinary or partitioned table judged with equal keys and no filter, with nothing refused, stalled or in conflict |
| Publication.ServerPublication.ReplaceTable | src/pg_operator/postgres/publication.py:516-532 | a refused replacement leaves the publication as it was |
| Publication.ConvergeTables | src/pg_operator/reconcile/replication.py:989-1059 | for every starting membership and pattern of refusals: membership is the publishable tables but refused additions, and the kept ones, which Gate.PublishedIff gives over the catalogs; the rest is excluded; a refused replacement keeps the old shape; a refused drop fails the pass with nothing added |
| Publication.ConvergeTable | src/pg_operator/reconcile/replication.py:1010-1049 | one table's turn: kept, excluded, left alone, added or replaced, others untouched |
| Publication.DropUnfit | src/pg_operator/reconcile/replication.py:1003-1008 | every published table that is neither publishable nor kept goes, before anything is added |
| Gate.PublishedIff | src/pg_operator/reconcile/replication.py:1003-1049 | after a pass a table is published if and only if its source side is in order and unclaimed, and it was published before or its target fits too and the server adds it; it is reported as kept if and only if only the target stands in the way |
| PublicationRuns.MatchIsRight | src/pg_operator/reconcile/replication.py:1062-1080 | a member that matches an honest record has exactly the spec's columns and filter |
| PublicationRuns.RecordHonestIff | src/pg_operator/reconcile/replication.py:1051-1059 | a pass writes a misleading record exactly when it leaves an old filter in place and records the new filter's hash beside it |
| PublicationRuns.OldShapesAreReported | src/pg_operator/reconcile/replication.py:1025-1049 | a publishable table left without the spec's shape is reported, and one so reported was refused and has its old shape |
| PublicationRuns.OldFilterStaysIff | src/pg_operator/reconcile/replication.py:1025-1080 | whenever a pass with an honest record leaves an old filter and any number of later ones want the spec's shape and meet no refusal, the table is still without that shape if and only if the spec has a filter and the columns were right already |
| PublicationRuns.OnlyRowsEvolve | src/pg_operator/reconcile/eligibility.py:332-344 | row counts and subscription progress change a verdict in no way but the one about an empty target |
| PublicationRuns.NothingLost | src/pg_operator/reconcile/replication.py:989-1059 | with spec, catalogs and claims fixed the published set only grows |
| PublicationRuns.AdditionsBounded | src/pg_operator/reconcile/replication.py:1010-1049 | over any number of passes each candidate is added at most once |
| PublicationRuns.ShapeSettles | src/pg_operator/reconcile/replication.py:1062-1080 | a table publishable in two passes has the spec's shape after the first and is left alone by the second |
| PublicationRuns.QuietOnceConverged | src/pg_operator/reconcile/replication.py:1025-1049 | a pass after an accepted one issues statements only for tables that newly qualify |
| Claims.OlderIsTotalOrder | src/pg_operator/reconcile/replication.py:848-881 | rank is irreflexive, transitive and total, so that of two replications exactly one is the older |
| Claims.StampsCompare | src/pg_operator/reconcile/replication.py:855-867 | stamps compare as strings just as the moments they stand for do, from the year down |
| Claims.EarlierIsOlder | src/pg_operator/reconcile/replication.py:855-867 | age is creation: whatever the names, of two moments written as stamps the earlier makes the older replication |
| Claims.NamesDecideTies | src/pg_operator/reconcile/replication.py:855-867 | created in the same second, the namespace decides and then the name, by the first character in which they differ |
| Claims.ClaimsElsewhere | src/pg_operator/reconcile/replication.py:848-881 | claims are exactly the tables older live replications into the same physical target say they publish: all that any created earlier does, and nothing for one created before all others |
| ClaimRuns.ClaimedIsClaimsElsewhere | src/pg_operator/reconcile/replication.py:858-881 | what a pass finds claimed in the listing is what older replications' status holds at that moment |
| ClaimRuns.VerdictsAreJudged | src/pg_operator/reconcile/eligibility.py:171-392 | with its spec and both catalogs fixed, a replication's verdicts publish exactly the tables nothing else speaks against that are neither filled nor claimed, and keep exactly the unclaimed ones with target-side issues or rows alone: the arbitration's model of a pass follows from the gate |
| ClaimRuns.MembershipIsConverged | src/pg_operator/reconcile/replication.py:989-1059 | the membership a pass leaves in the arbitration is what converging its tables leaves, by such verdicts and whichever ADDs are refused, a refused table counting as one with rows |
| ClaimRuns.RefusedDropIsHalfway | src/pg_operator/reconcile/replication.py:1003-1008 | a pass that a refused DROP stops leaves a membership between the one before and the one after, as a pass halted in the arbitration may |
| ClaimRuns.PassSettles | src/pg_operator/reconcile/eligibility.py:385-391 | one complete pass, from its look at the rows to its status, settles a replication whose elders are settled, whatever others do and whichever of its tables fill up meanwhile |
| ClaimRuns.RoundsSettle | src/pg_operator/reconcile/replication.py:848-881 | after m rounds the m oldest are settled, however passes interleave and fail and target tables fill up |
| ClaimRuns.ArbitrationConverges | src/pg_operator/reconcile/replication.py:848-881 | k rounds of k replications end with each table in at most one publication per physical target, and in one if any replication wants it and can begin it, with no rows there; passes may fail half-way through converging |
| ClaimRuns.OldestNeverYields | src/pg_operator/reconcile/replication.py:848-881 | in every run the oldest replication into a target keeps every table it wants and has published |
| ClaimRuns.CreatedFirstIsOldest | src/pg_operator/reconcile/replication.py:855-867 | that is the one created before all others into the target |
| Paths.Path | src/pg_operator/reconcile/replication.py:589-606 | returns the labels of a shortest real path, and none exactly when the goal is unreachable |
| CycleRuns.RefuseCycles | src/pg_operator/reconcile/replication.py:543-587 | refuses exactly when the other replications that count lead from the target back to the source |
| CycleRuns.CheckIsRefuseCycles | src/pg_operator/reconcile/replication.py:557-580 | a pass that reads the listing refuses exactly when the protocol's check fails |
| CycleRuns.StepKeepsInv | src/pg_operator/reconcile/replication.py:543-587 | every step of creation, check, convergence and deletion keeps every checked replication without a way back among its elders |
| CycleRuns.NeverACycle | src/pg_operator/reconcile/replication.py:543-606 | with fixed resolution, in every run the graph of converged, live replications is acyclic |
| CycleRuns.LettingInClosesIff | src/pg_operator/reconcile/replication.py:557-587 | a check that lets a replication in closes a loop if and only if there is a way back along those that stand, then one it did not see |
| CycleRuns.AcyclicThroughoutIff | src/pg_operator/reconcile/replication.py:557-587 | in every run, with deletions and changing resolution, no cycle ever stands, those being deleted counted, if and only if no letting-in overlooks a way back |
| CycleRuns.AttentiveNeverACycle | src/pg_operator/reconcile/replication.py:557-587 | so none does if no replication is let in while another that stands is being deleted or does not resolve |
| CycleRuns.DeletionHidesALoop | src/pg_operator/reconcile/replication.py:562-563 | a run, with resolution fixed, in which one being deleted still streams one way and another has converged the other way: a cycle stands, though none of live replications, and a letting-in has overlooked a way back |
| CycleRuns.ResolutionHidesALoop | src/pg_operator/reconcile/replication.py:572-575 | a run in which one that did not resolve for a while leads to a cycle of live replications |
| Health.Assess | src/pg_operator/reconcile/health.py:48-121 | the state is the worst that applies, the stalls are exactly those that hold, and the health recorded is what was read |
| Health.StatesIff | src/pg_operator/reconcile/health.py:48-121 | each state if and only if what was read is so: no live slot, else switched off, else one of four causes with its figures, else a figure over its threshold or four fifths of it, else a table still copying, else none of all that |
| HealthRuns.StampIsOfFirst | src/pg_operator/reconcile/health.py:124-146 | the recorded stamp is that of the first observation of the current unbroken run without a consumer, and absent otherwise |
| HealthRuns.ReportedWhen | src/pg_operator/reconcile/health.py:88-90 | inactivity is reported exactly when the time since that observation, its fraction of a second counted in, exceeds the threshold: never late, early by less than a second |
| HealthRuns.StallsWhenInactive | src/pg_operator/reconcile/health.py:84-99 | on an enabled replication with a live slot that makes the state Stalled |
| HealthRuns.ErrorsSinceTheLast | src/pg_operator/reconcile/health.py:91-94 | with a consumer and a worker, a replication is stalled only if a counter has risen since the sighting before, and then it is unless lost or off |
| HealthRuns.ReportedEarly | src/pg_operator/reconcile/health.py:149-155 | a run reported before its threshold has passed, since the stamp has whole seconds |
| HealthRuns.ReentriesBounded | src/pg_operator/reconcile/health.py:101-111 | over any run measured throughout, re-entries into Lagging are at most five times the upward variation of both figures as shares of their thresholds |
| HealthRuns.BandNeverToggles | src/pg_operator/reconcile/health.py:101-111 | a figure above 80% and up to 100% of its threshold never toggles the state: lagging does not end, and begins only if the other figure is over its threshold |
| HealthRuns.UnreadFigureTogglesFreely | src/pg_operator/reconcile/health.py:107-109 | for every n a run that re-enters lagging n times while every figure that is read stays the same: the bound needs each figure read |
| Locks.ResourceLocks.Enter | src/pg_operator/reconcile/context.py:70-76 | entering counts one holder on the resource's entry, making the entry if there is none |
| Locks.ResourceLocks.Leave | src/pg_operator/reconcile/context.py:76-84 | leaving releases the lock and counts one holder off, deleting the entry with the last |
| Locks.StepKeepsInv | src/pg_operator/reconcile/context.py:70-84 | every interleaved step, cancellation included, keeps counts equal to tasks, one lock per entry, distinct locks and owners inside |
| Locks.MutualExclusion | src/pg_operator/reconcile/context.py:70-84 | at most one task is inside per resource in every run |
| Locks.OneLockPerKey | src/pg_operator/reconcile/context.py:70-84 | all tasks on a resource share one lock object across deletion and recreation of its entry |
| Locks.BlockedOnlyByItsOwn | src/pg_operator/reconcile/context.py:50-64 | a task that cannot go on waits for one inside on the same resource |
| Locks.TableIsWhatIsInUse | src/pg_operator/reconcile/context.py:62-64 | the table holds exactly the resources in use, each with its number of tasks |
| Cache.StateStore.Lookup | src/pg_operator/api/store.py:78-86 | the first look answers with a fresh entry, or waits for the key's lock |
| Cache.StateStore.UnderLock | src/pg_operator/api/store.py:87-90 | with the lock it looks again before loading |
| Cache.AnswersAreFresh | src/pg_operator/api/store.py:78-92 | every answer was loaded in that call or stored less than the time to live before |
| Cache.AnsweredAtOnceIff | src/pg_operator/api/store.py:78-92 | a call is answered from the cache if and only if the last successful load is younger than the time to live, also while a load is under way; else it waits, and with the lock starts a load |
| Cache.FailureStoresNothing | src/pg_operator/api/store.py:84-92 | a load that fails frees the lock, answers nobody and leaves the last success in the cache |
| Cache.LoadsNeverOverlap | src/pg_operator/api/store.py:84-92 | two loads of one key are never under way together, whether they succeed or fail, in any interleaving |
| Cache.LoadsAreSpaced | src/pg_operator/api/store.py:84-92 | after a load that succeeds the next starts no sooner than the time to live |
| Cache.LoadsBounded | src/pg_operator/api/store.py:78-92 | at most W/ttl + 1 loads that succeed start in any window of length W |
| Retention.Database.HandleOrphans | src/pg_operator/reconcile/database.py:394-444 | orphans are the recorded, undeclared, live names but the baseline; they are dropped, or kept and returned; a statement may fail at any point |
| Retention.Database.Converge | src/pg_operator/reconcile/database.py:134-161 | a pass that completes is the pure pass on schemas and on extensions; one that fails leaves the record and stays between what it drops and what it creates; with enough answers it completes |
| Retention.SchemasAfter | src/pg_operator/reconcile/database.py:394-444 | over names: what is declared and public are made; on dropping all else on record goes, on retaining it stays on record |
| Retention.ExtensionsAfter | src/pg_operator/reconcile/database.py:394-444 | over names: what is declared and offered is made; on dropping all else on record goes but plpgsql, on retaining it stays on record |
| Retention.DropSettles | src/pg_operator/reconcile/database.py:418-444 | for any history ending in a dropping pass and any name, whether it is left: declared and makeable, or declared and live until then, or there before and never declared |
| Retention.DropSettlesWholly | src/pg_operator/reconcile/database.py:418-444 | where the server can make what is declared at the end, exactly (initial, never declared) and (declared now) is left |
| Retention.RetainThenDrop | src/pg_operator/reconcile/database.py:145-161 | n retaining passes and one dropping pass leave what n + 1 dropping passes leave, for any mixture of policies, where the server can make what is declared at the end |
| Retention.PoliciesMatterIff | src/pg_operator/reconcile/database.py:418-444 | in general they leave the same if and only if they agree whether each name declared at the end and no longer offered had been dropped |
| Retention.PoliciesMatter | src/pg_operator/reconcile/database.py:369-376 | two histories that differ: an extension withdrawn by the server after it was made |
| Retention.OnlyTheRecordedIsDropped | src/pg_operator/reconcile/database.py:402-441 | anything a pass drops, failed or not, was recorded, not declared and not spared, under DROP |
| Retention.NeverDeclaredIsSafe | src/pg_operator/reconcile/database.py:402-441 | over histories with failures and outside changes, what no completed pass declared is never dropped |
| Retention.SparedIsSafe | src/pg_operator/reconcile/database.py:424-427 | a baseline extension is never dropped |
| Retention.BaselineIsSafe | src/pg_operator/reconcile/database.py:51 | so the extension plpgsql survives every history |
| Retention.PublicIsSafe | src/pg_operator/models.py:291-300 | the schema public survives every history, being in every declaration |
| Retention.LiveIsAccountedFor | src/pg_operator/reconcile/database.py:145-161 | whatever is live is recorded, spared, or came from outside or a failed pass and has not been declared since |
| Retention.RetriesFinish | src/pg_operator/reconcile/database.py:418-444 | a pass that completes after any number of failed ones with the same declaration leaves what it would have left at once |
| Retention.FailedLeavesNoMarkIff | src/pg_operator/reconcile/database.py:145-161 | failed passes leave a completed one what it would have left without them if and only if it makes or drops every name they made or dropped |
| Retention.AbandonedStays | src/pg_operator/reconcile/database.py:402-441 | a name a failed pass made and no completed pass declares stays, on no record, whatever follows |
| Retention.AbandonedAttemptLeaks | src/pg_operator/handlers/common.py:206-236 | counterexample: a schema made in a failed pass, and then no longer declared, is left by a completed pass that drops |
| Memberships.Login.ApplyMemberships | src/pg_operator/reconcile/user.py:265-293 | grants the wanted roles that exist, revokes the recorded ones no longer wanted, and names those missing |
| Memberships.Login.ApplyDefaultRoles | src/pg_operator/reconcile/user.py:296-346 | each database's default role is set, cleared, left or waited for as its owner grant says; a failure leaves each as before or as meant |
| Memberships.Login.Converge | src/pg_operator/reconcile/user.py:168-169 | the two phases together, and that the pass waits exactly when a role or database is missing |
| Memberships.HeldIff | src/pg_operator/reconcile/user.py:265-293 | role by role: one that an entry wants is held if it was or exists, any other if it was held and is on no record |
| Memberships.DefaultIff | src/pg_operator/reconcile/user.py:296-346 | entry by entry: the last one owning a database sets its default role once it exists; with none, it is cleared if the record had one and else untouched |
| Memberships.HeldAfterRun | src/pg_operator/reconcile/user.py:265-293 | after any run on existing roles: the first memberships never wanted or recorded earlier, and those wanted now |
| Memberships.DefaultsAfterRun | src/pg_operator/reconcile/user.py:296-346 | after any run: the current owner grant's role, none where there was an owner grant earlier, elsewhere as at first |
| Memberships.NeverWantedIsSafe | src/pg_operator/reconcile/user.py:290-293 | over histories with failures and outside changes, a membership no completed pass wanted is never revoked |
| Memberships.HeldIsAccountedFor | src/pg_operator/reconcile/user.py:703-730 | whatever is held is recorded, or came from outside or a failed pass and has not been wanted since |
| Memberships.RetriesFinish | src/pg_operator/reconcile/user.py:265-346 | failed attempts at one declaration leave no mark on what the completing pass makes |
| Memberships.FailedLeavesNoMarkIff | src/pg_operator/reconcile/user.py:265-293 | failed passes leave a completed one the memberships it would have left without them if and only if it gives or takes every role they granted or revoked |
| Memberships.FailedLeavesNoDefaultIff | src/pg_operator/reconcile/user.py:296-346 | and a default role they set or cleared differs in the end if and only if it differed then, and the completed pass neither sets it nor clears it |
| Memberships.AbandonedGrantStays | src/pg_operator/reconcile/user.py:265-293 | a case in which it does not: granted by a failed pass, and no longer wanted |
| Memberships.RevokedExactly | src/pg_operator/reconcile/user.py:290-293 | in every history a pass revokes only what is recorded and no longer wanted; one that completes, all of that |
| Memberships.PutOnRecord | src/pg_operator/reconcile/user.py:703-730 | what is on record was put there by a completed pass that wanted it, and has been there since |
| Memberships.GivenIff | src/pg_operator/reconcile/user.py:279-293 | in every history a membership is held by the operator's grant if and only if a pass granted it and it has been held ever since |
| Memberships.RevokedWithoutBeingGrantedIff | src/pg_operator/reconcile/user.py:279-293 | a revoked membership was not the operator's grant if and only if, when put on record, it was held by another's grant or its role was missing, and no pass has granted it since |
| Memberships.RevokedWithoutBeingGranted | src/pg_operator/reconcile/user.py:279-293 | counterexamples to the comment that only memberships the operator granted are revoked: a role already held when declared, and one granted by another while missing |
| Parameters.ReadsBackIff | src/pg_operator/postgres/settings.py:18-22 | unquoting undoes the server's quoting for every string if and only if the server quotes every value that begins and ends with a quote |
| Parameters.AmbiguousReadsBack | src/pg_operator/postgres/settings.py:1-14 | so every string comes back from a server that quotes values with a comma, a quote or white space |
| Parameters.DocumentedValuesAreRead | src/pg_operator/postgres/settings.py:1-22 | the documented search path of two names, and a doubled quote, are read as they were set |
| Parameters.ParseSetconfig | src/pg_operator/postgres/settings.py:25-33 | the loop parses each entry at its first separator and skips those without; a later entry overrides |
| Parameters.NamesAreTrimmed | src/pg_operator/postgres/settings.py:25-33 | white space round a name is no part of it |
| Parameters.EntryComesBackIff | src/pg_operator/postgres/settings.py:18-33 | for any rule by which a server quotes, an entry comes back exactly if its value is quoted whenever it begins and ends with a quote |
| Parameters.SettingsComeBack | src/pg_operator/postgres/settings.py:25-33 | for any settings and any rule of quoting, by name and value: they are read back as they were set if each entry comes back, and, the names being distinct, only if |
| Parameters.AmbiguousSettingsComeBack | src/pg_operator/postgres/settings.py:1-33 | so do all settings under the documented rule, repeated names included |
| Parameters.ServerDatabase.Alter | src/pg_operator/postgres/database.py:209-219 | one statement sets or resets the key, or is denied and changes nothing |
| Parameters.ApplyParameters | src/pg_operator/postgres/database.py:202-243 | the settings become the declared ones but for denied keys, which stay and are all reported; statements go to exactly the keys that differ |
| Parameters.ConvergedKeyByKey | src/pg_operator/postgres/database.py:202-243 | a key that may not be changed stays as it was, any other is as declared or gone, and what differs is just what is compared |
| Parameters.NextPassAttemptsTheRefused | src/pg_operator/postgres/database.py:202-243 | the next pass attempts exactly the denied keys, and nothing when none was denied |
| SlotOrdering.NoCircularWait | src/pg_operator/postgres/subscription.py:148-165 | no chain of passes waiting for each other's transactions returns to where it began |
| SlotOrdering.RoundCounts | src/pg_operator/postgres/subscription.py:273-285 | each round in which a slot is not made removes one of the transactions it waits for, for good |
| SlotOrdering.SlotIsMade | src/pg_operator/reconcile/replication.py:1217-1273 | for any number of replications in any ring, a slot is made within one round more than the transactions found running on its server |
| SlotOrdering.EnclosedSlotsDeadlock | src/pg_operator/postgres/subscription.py:148-165 | with slots made inside the subscription's transaction, a ring of any size from two reaches a state nothing ever leaves |
| Teardown.Servers.DropSubscription | src/pg_operator/postgres/subscription.py:222-239 | disabled, then dropped with its slots, or detached and dropped alone; one slot in use stops the first way, and then only this subscription's table-sync slots may have gone, each of them idle; wherever it fails only this subscription and those slots changed |
| Teardown.Servers.RemoveSlots | src/pg_operator/reconcile/replication.py:1410-1473 | looks up to twenty-one times, an answer each, and drops the slots found by the recorded names only after a look at which none is in use; each slot dropped was idle at the look before |
| Teardown.Servers.AwaitFree | src/pg_operator/reconcile/replication.py:1428-1451 | ends at the first look that finds none of the slots in use, or after looking again twenty times with one in use each time |
| Teardown.Servers.DropSlot | src/pg_operator/postgres/subscription.py:288-292 | a slot is dropped only if the last look did not find it in use |
| Teardown.Servers.RemoveLogin | src/pg_operator/reconcile/replication.py:1510-1530 | the operator's own login goes with its memberships, a provided one keeps its role and loses what it was granted |
| Teardown.Servers.ClearSource | src/pg_operator/reconcile/replication.py:1363-1375 | slots, publication and login, none before those it is used by have gone; no slot goes that was in use at the last look; with enough answers and a look that finds the slots idle, it finishes |
| Teardown.Servers.ClearTarget | src/pg_operator/reconcile/replication.py:1354-1361 | the recorded subscription goes, or the instance is gone, or the attempt is to be repeated |
| Teardown.Servers.Attempt | src/pg_operator/reconcile/replication.py:1330-1390 | whatever fails, only what is recorded may go, slots before the publication before the login and the Secret last, each slot idle at a look this attempt made; with its server answering and the slots let go the source is cleared even while the target is out of reach, and the target whatever the source does; if it returns nothing recorded remains but on a server that is gone; one out of reach means another attempt, a broken one a failure |
| Teardown.Transitive | src/pg_operator/reconcile/replication.py:1330-1390 | what may go only shrinks, so attempts in sequence stay within the bounds of one |
| TeardownRuns.WhatIsNotRecordedStays | src/pg_operator/reconcile/replication.py:1330-1390 | over any sequence of failing attempts: other replications' subscriptions, publications and slots, a provided login, other memberships and Secrets stay |
| TeardownRuns.StaysCleared | src/pg_operator/reconcile/replication.py:1330-1390 | what an attempt cleared stays cleared |
| TeardownRuns.Idempotent | src/pg_operator/reconcile/replication.py:1330-1390 | once all recorded objects are gone a further attempt changes nothing |
| TeardownRuns.ReturnedRemovesExactlyTheRecorded | src/pg_operator/reconcile/replication.py:1330-1390 | a sequence that ends by returning has removed exactly the recorded subscription, publication and login on each server that still exists, and the recorded Secret; on one that is gone nothing else |
| TeardownRuns.OthersSyncSlotsSurviveIff | src/pg_operator/postgres/subscription.py:249-261 | another target's table-sync slots survive if and only if none carries the number of the subscription torn down |
| TeardownRuns.AnothersSyncSlotIsTaken | src/pg_operator/postgres/subscription.py:249-261 | two servers and slots for which that condition fails |
| TeardownRuns.NamelessLoginSurvives | src/pg_operator/reconcile/replication.py:1510-1513 | a login recorded as created goes if and only if its name is recorded too |
| TeardownRuns.UnnumberedSyncSlotsStay | src/pg_operator/reconcile/replication.py:1426-1431 | without the subscription's number on record its tables' slots outlive it |
| Reconcile.Replication.FindForeign | src/pg_operator/reconcile/replication.py:889-933 | finds exactly the names that are taken: an object neither marked nor recorded |
| Reconcile.Replication.EnsurePublication | src/pg_operator/reconcile/replication.py:936-954 | creates, marks and records the publication, or takes the one that is there, as the step machine does, stopping at whichever call fails |
| Reconcile.Replication.EnsureLogin | src/pg_operator/reconcile/replication.py:614-750 | obtains the login and its groups and records a change, as the step machine does, stopping at whichever call fails |
| Reconcile.Replication.EnsureSlot | src/pg_operator/reconcile/replication.py:1217-1273 | creates the slot or adopts an idle one and records it; one in use or of another database is refused and left as it is |
| Reconcile.Replication.Reconcile | src/pg_operator/reconcile/replication.py:236-380 | a pass cut short after any number of calls leaves what the step machine leaves after as many steps, and completes or is refused exactly when it is |
| Trace.StepsAreTraced | src/pg_operator/reconcile/replication.py:288-380 | after any number of steps the world, the status and what the pass has gathered are those that the step it stands at and the world it began in determine: a closed form of every pass, refused ones included |
| LifecycleRuns.OneStageUnrecorded | src/pg_operator/reconcile/replication.py:288-308 | wherever a pass stops, what it made and has not recorded belongs to the one stage in progress, unless the record of the login is lost: the name was off the record at the start, or goes with a new publication's, and the login's own record is not rewritten |
| LifecycleRuns.LostIff | src/pg_operator/reconcile/replication.py:295-308 | past the login stage of a pass that can complete, the record at some step does not name the login, if and only if that record is lost in this sense |
| LifecycleRuns.LoginOffRecordIff | src/pg_operator/reconcile/replication.py:957-986 | a login or membership on record at the start is off the record outside the login stage, at some step, if and only if the publication has to be made again and the login's record is not rewritten |
| LifecycleRuns.CompletedRecordsAll | src/pg_operator/reconcile/replication.py:957-986 | a completed pass leaves unrecorded exactly the memberships of a provided login that were unrecorded before |
| LifecycleRuns.CompletesIff | src/pg_operator/reconcile/replication.py:288-293 | an uninterrupted pass completes, or is refused, as the names and the slot at its start decide |
| LifecycleRuns.CompletesOverFields | src/pg_operator/reconcile/replication.py:889-933 | it completes if and only if each object of its names is absent, marked or on record, and with no subscription there is room for a slot and none in use or of another database; refused for a name it changes nothing |
| LifecycleRuns.OthersSlotIsNeverTaken | src/pg_operator/reconcile/replication.py:1234-1247 | over a slot in use or of another database no pass completes: wherever it stops, slot and subscription are as they were and neither is put on record |
| LifecycleRuns.IdleSlotIsTaken | src/pg_operator/reconcile/replication.py:1234-1273 | an idle slot of this database is adopted as it is and recorded, and the pass completes |
| LifecycleRuns.CompletedIsWhole | src/pg_operator/reconcile/replication.py:288-380 | a completed pass leaves publication, login with its groups, Secret, slot and subscription standing, and a record of each with login and number |
| LifecycleRuns.SlotBeforeSubscription | src/pg_operator/postgres/subscription.py:148-165 | wherever a pass stops, a subscription it has made stands over a slot that is there and on record |
| LifecycleRuns.NameTakenMakesNothing | src/pg_operator/reconcile/replication.py:288-291 | a pass refused for a name made and wrote nothing |
| LifecycleRuns.RefusesItsOwnIff | src/pg_operator/postgres/publication.py:456-467 | the pass after one that stopped is refused for a name if and only if it stopped between making an object and marking it, that kind not yet recorded |
| LifecycleRuns.RefusedForGood | src/pg_operator/reconcile/replication.py:889-933 | so refused, no later pass changes anything |
| LifecycleRuns.OneStagePerStop | src/pg_operator/reconcile/replication.py:957-986 | over any sequence of interrupted passes each adds the objects of at most one stage to those on no record, and the login's come to it once more if and only if some pass of the run begins where that record gets lost |
| LifecycleRuns.CompletionRecovers | src/pg_operator/reconcile/replication.py:957-986 | with the operator's own login, a pass that completes after any interruptions has everything on record, also a login whose record had been lost |
| LifecycleRuns.AdoptedStaysUnrecordedIff | src/pg_operator/reconcile/replication.py:295-308 | an unrecorded publication that a pass finds stays off the record through its login stage, and beyond, if and only if the login need not be recorded again, until the slot or, with that recorded, the subscription is: a condition on the start and the stop alone |
| LifecycleRuns.TwoStagesMissingIff | src/pg_operator/reconcile/replication.py:295-308 | another object is missing beside it if and only if the pass stopped before that, and by then the object had been made, as start and stop decide for each kind, and was not on record at the start |
| LifecycleRuns.TwoStagesMayBeMissing | src/pg_operator/reconcile/replication.py:295-308 | two interruptions after which publication and login are both unrecorded |
| LifecycleRuns.ProvidedGrantMissed | src/pg_operator/reconcile/replication.py:805-820 | a first pass stopped after granting a membership leaves it unrecorded, and it stays so after a pass that completes |
| LifecycleRuns.LoginForgottenIff | src/pg_operator/reconcile/replication.py:957-986 | the recorded name of a login is lost on the way through a pass if and only if the publication has to be made again |
| LifecycleRuns.NumberForgottenIff | src/pg_operator/reconcile/replication.py:957-986 | a recorded number of the subscription is missing on the way through a pass if and only if the publication has to be made again or the login's record rewritten; it is back once the pass ends |
| LifecycleRuns.NumberLost | src/pg_operator/reconcile/replication.py:300-308 | two such cases: a publication that is gone, and a credential swapped for one of the other kind |
| Deletion.TeardownLeavesTheUnrecorded | src/pg_operator/reconcile/replication.py:1330-1390 | after any history of passes, a teardown that returns leaves of the operator's objects exactly those on no record |
| Deletion.OneStageLeftPerStop | src/pg_operator/reconcile/replication.py:957-965 | deleted after k interrupted passes, a replication leaves the objects of at most k stages, and the login's once more if one of the passes began where its record gets lost |
| Deletion.NothingLeft | src/pg_operator/reconcile/replication.py:957-965 | deleted after a completed pass, with the operator's own login, it leaves nothing, whatever was interrupted before |
| Logins.SourceLogins.EnsureLogin | src/pg_operator/reconcile/replication.py:614-750 | stopped after any number of its calls it has made just what those make, the role before its comment, the grants and the Secret; else the login exists with its groups, and the record lists what was granted now and what stands for the same login |
| Logins.AllCallsObtain | src/pg_operator/reconcile/replication.py:614-750 | a pass that stops after the last call of its login has obtained all of it, and lacks the record alone |
| Logins.SourceLogins.RemoveSuperseded | src/pg_operator/reconcile/replication.py:753-802 | the old login goes if it was the operator's, else it loses what it was granted; a superseded Secret goes last; it may stop with any of the memberships revoked, or before the Secret |
| Logins.SourceLogins.Pass | src/pg_operator/reconcile/replication.py:288-380 | a pass is refused, with nothing changed, if and only if the operator's name is taken by a role neither marked nor on record; else it stops at any call up to the record of its login, between that and the removal, anywhere in the removal or at the last record, or completes the swap, and what is then on the server and on record is fixed for each |
| Logins.CompletedIsReady | src/pg_operator/reconcile/replication.py:614-750 | a completed pass leaves the login there, in the groups it needs, with its Secret if generated, and on record by name |
| Logins.PastLoginIsOnRecord | src/pg_operator/reconcile/replication.py:300-308 | wherever a pass stops past its login, the record says truly whose the login is and what it was granted |
| LoginRuns.RunConserves | src/pg_operator/reconcile/replication.py:614-820 | over any run of completed passes the server is as before but for the current login and its recorded grants |
| LoginRuns.ConservedThroughoutIff | src/pg_operator/reconcile/replication.py:614-820 | that holds after every pass if and only if no credential provides the operator's own login by name |
| LoginRuns.ProvidedRolesStay | src/pg_operator/reconcile/replication.py:753-802 | over any run of passes, wherever they stop and whatever credentials they name, no role that was there is dropped or loses a membership it had, and no role but the operator's own login is added |
| LoginRuns.InterruptedSwapIff | src/pg_operator/reconcile/replication.py:300-380 | a swap that fails between the login and the removal of the old one, recorded or not, then completes, is clean if and only if the login stayed or the old one had nothing of the operator's |
| LoginRuns.OwnLoginLeftIff | src/pg_operator/reconcile/replication.py:614-802 | over any run of passes, stopping anywhere from the first call of the login to the last record, the operator's own login, and likewise its Secret, is left if and only if some pass made it and none since removed it: one provided another login that gets so far in the removal, when the last pass before it to write a record put the operator's own there |
| LoginRuns.GrantLeftIff | src/pg_operator/reconcile/replication.py:614-820 | over any such run a role keeps a membership it did not have if and only if some pass lent it and none since took it back: one with another login that gets so far, when a pass had found the role without it and recorded it, and each record since is of that role |
| LoginRuns.UnrecordedLoginStays | src/pg_operator/reconcile/replication.py:719-750 | a login generated by a pass that stops before recording it, between two passes provided another, is left on no record |
| LoginRuns.RecordedLoginGoes | src/pg_operator/reconcile/replication.py:719-802 | a login on record goes with the swap that completes, though one before it stopped early |
| LoginRuns.SecretStays | src/pg_operator/reconcile/replication.py:794-802 | a swap that stops with the old role dropped and its Secret not yet deleted leaves the Secret for good: the pass that completes finds it on no record |

## Left out

- Partitioned tables under `publishViaPartitionRoot` in the apply and mirror theorems: target identity is judged against the root's own identity there, not the leaves'.
- NoStarvation.NeverStarves: assumes the lookup columns are sent, which the gate does not always ensure; the exact condition is `NoStarvation.ChangesTaken`.
- LifecycleRuns.OneStageUnrecorded: excuses what is the login's where its record is lost, as it is in the code: exactly when that happens is `LifecycleRuns.LostIff` and, of what was on record, `LifecycleRuns.LoginOffRecordIff`; a pass that completes regains it, by `LifecycleRuns.CompletionRecovers`.
- LifecycleRuns.CompletionRecovers: for the operator's own login only; a provided login's memberships can stay unrecorded, by `LifecycleRuns.CompletedRecordsAll`.
- CycleRuns.NeverACycle: for fixed resolution and live replications, as the check ignores the others; the general statement is `CycleRuns.AcyclicThroughoutIff`.
- HealthRuns.ReentriesBounded: for runs with both figures read throughout; `HealthRuns.UnreadFigureTogglesFreely` shows why.
- Tables, refreshes and options, which a pass converges between the login's record and its end, create nothing that teardown removes and are not steps of the lifecycle; a failure there is one between two steps.
- A flag absent from the recorded `created` counts as false; the code also writes its record when only such a flag appears, which changes nothing that teardown would do.
- Swaps between a provided and a generated login are in `Logins` alone, where a pass may stop anywhere too; `Lifecycle` keeps one kind throughout.
- Orders that only decide ties: sets are iterated in any order, and which of several shortest paths or which refused statement comes first is open.
- Messages, warnings about differing column types, events and metrics; a reason is an enumeration value.
- Row filters are predicates over their columns, and their fingerprints are taken to be without collisions: a record holds the filter itself.
- Row values are integers or NULL, and conversion between differing column types is not modelled.
- The recovery fraction of 0.8 is exact arithmetic on integers, not floating point; thresholds are positive integers.
- Walsenders that reconnect between the last look at a slot and its drop; a slot is in use at a look or not.
- Target tables emptied by somebody, and edits of specs or catalogs, during the arbitration of claims: tables that are not published only fill up there, and the state it starts from may be any.
- An ADD the source refuses only for a while, during the arbitration: one refused for good counts as a table with rows.
- A credential that refers to the operator's own Secret, by which a swap would spare it; one that names the operator's own role is modelled.
- A subscription detached from its slot is dropped without its table-sync slots, as the code takes it; a server that can reach the source would try them once more.
- Memberships.RevokedWithoutBeingGrantedIff: where nobody takes the membership away between the record and the revocation; without that `Memberships.GivenIff` says whose grant it is.
- Objects that `DROP ... CASCADE` takes along, and errors other than a refused privilege in setting parameters.
- Membership through other roles: a login is in a group or it is not.
- Counters of conflicts in health, `invalidate` of the cache, and the fairness of the event loop's locks.
- Names, derivation of names, passwords, connection strings, TLS, pools, probing, and retry scheduling; the finalizer released on a configuration error.
- A replication moved to another server, and one whose spec no longer parses.
