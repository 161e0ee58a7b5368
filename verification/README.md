# Cyndi operator: the refresh protocol, verified

The Cyndi operator keeps a copy of the host inventory in an application's database. For every `CyndiPipeline`
resource it creates a versioned table `hosts_v<version>` and a Kafka connector that fills it, validates the table
against the inventory, and points the view `inventory.hosts` at it. Two controllers do this concurrently. The pipeline
controller creates and drops tables and connectors, moves the view and writes the status; the validation controller
compares hosts and writes verdicts into the same status. Each works on a snapshot of the resource, its side effects are
not rolled back, and its final write fails if the resource has changed since.

The project models both controllers at the level of their remote calls and proves what they guarantee.

| file | content |
|---|---|
| `Pipeline.dfy`, `Names.dfy` | the resource, its state machine and the mutations of its status; names derived from versions |
| `Lang.dfy`, `Config.dfy`, `Connect.dfy`, `Deviation.dfy` | list and map helpers, configuration, connector resources, the deviation check |
| `Validate.dfy`, `LesserEvil.dfy`, `Queries.dfy` | the verdict on a table, the choice between two invalid tables, the SQL text of the queries |
| `Protocol.dfy`, `Invariants.dfy` | the protocol as a transition system, and what each of its steps keeps |
| `Verdicts.dfy`, `View.dfy`, `Resources.dfy`, `Removal.dfy` | safety over all runs |
| `Scenarios.dfy` | runs that do happen: a first version, and the losses the theorems leave open |
| `Calm.dfy`, `Stability.dfy`, `FailedRefreshes.dfy` | undisturbed passes as functions: stabilisation, no refresh loop, fixpoints, refreshes in time, chains of failed refreshes |
| `Cleanups.dfy`, `Outcomes.dfy` | what is dropped and kept, by names and prefixes, and what each kind of undisturbed pass comes to |
| `Cluster.dfy`, `Controllers.dfy` | the remote systems and the controllers' code |
| `Safety.dfy` | the safety theorems for the states the controllers' code reaches |

How the parts fit together: `Protocol.dfy` has one step per remote call. A run may interleave the steps of both
controllers with spec changes, deletion requests, other writes of the resource and connectors changing health, and a
pass may end after any step, so failing calls, crashes and lost commits are runs too. `Verdicts`, `View`, `Resources`
and `Removal` prove invariants of every such run. `Controllers.dfy` is the controllers' code on a heap, calling the
methods of `Clusters.Cluster`, each of which first lets everybody else take any number of steps and may then fail. The
code is proved to extend a run and nothing else (`Cluster.Valid`, kept by every method), which is why the safety
theorems hold for it, and, when nothing interferes (`calm`), to compute exactly the functions of `Calm.dfy`, which is why
the theorems of `Stability.dfy` hold for it. What the functions that both sides share amount to is stated a second time
in literal terms (`Cleanups.dfy`, `Outcomes.dfy`, and the lemmas whose names end in `SpelledOut`): in names, prefixes, keys,
labels and fields instead of the functions themselves.

## Hypotheses

- There is one pipeline per application database, and each controller has one worker for the resource.
- A new version is a timestamp never used before (`Names.VersionsAreFresh`: distinct timestamps give distinct versions).
- Nobody but the pipeline controller creates or drops `hosts_` tables and the pipeline's connectors, moves the view, or
  removes the finalizer, while a run is observed. `Resources.NeverMoreThanTwo` and `Removal.NothingIsLeftBehind` rely on
  it. The stabilisation theorems start from any set of tables and connectors, so they cover any damage done between
  passes.
- Every snapshot may be arbitrarily stale. Only `Resources.CommittedVersionIsBacked` and
  `Resources.CleanupLeavesNoOrphanConnector` need more: managed connectors, one application name, and passes of the
  pipeline controller that read a revision recording the committed version and the committed deletion request.
  `Resources.StaleReadLosesIff` proves that a pass on any other revision can lose the committed version's table, and a
  pass on such a revision cannot.
- The view, if there is one at the start, is over an existing table. The code slices the prefix `hosts_v` off the name of
  that table without looking. The pass panics exactly if the pipeline is managed and not being removed and the name is
  too short (`Controllers.ReconcileIteration.DeleteStaleDependencies`), which no run that starts with a long enough name
  reaches (`View.SliceNeverPanics`).
- Hashes are injective only where `Config.HashesAreInjective` is required.

## Where the code does less than one may expect

- The early exit on host counts is a shortcut for the id comparison exactly when the threshold is at most 50%. Above
  that it overrules the configured threshold (`Validate.EarlyExitSafeIff`, `Validate.EarlyExitOverrules`).
- If the current table of the view cannot be read, the cleanup of that pass still drops tables, and may drop the one
  behind the view. This, besides removal, is the only way to lose the view (`View.ViewLostOnlyUnseen`), and it happens
  (`Scenarios.ViewLossScenario`).
- A pass that reads a revision recording another version can drop the table of the committed version, even if no call of
  it fails (`Scenarios.StaleReadScenario`).
- Emptying the ConfigMap changes its version even if only ignored keys were in it (`Config.EmptyingIsDetected`).
- Writing to the `refresh` field of the spec does not refresh the pipeline, because the field is left out of the hash
  (`Deviation.OperationalFieldsAreInvisible`).
- A healthy connector with current labels passes the check whatever it runs if its configuration is not a JSON object
  (`Deviation.ConnectorPassesIff`, `Deviation.NonObjectPasses`). "Matching" in the stabilisation theorems includes that.

## Model

| member | source | states |
|---|---|---|
| Invariants.InvAlways | controllers/cyndipipeline_controller.go:123-322 | at every moment of every run: snapshots are revisions of the resource, statuses are well formed, a pass past its cleanup holds only what the cleanup keeps, the view has its table |
| Invariants.StepKeepsInv | controllers/iteration.go:94-124 | every step of either controller or the environment keeps that |
| Verdicts.NoStaleVerdict | controllers/validation_controller.go:81-113 | a committed Valid=True names a version and a table for which `validate` returned true while that version was the committed one |
| Verdicts.AcceptancesHappened | controllers/validation_controller.go:81-100 | every acceptance in the history is a step of the run: a `validate` that returned true on that table while that version was the committed one |
| Verdicts.StaleVerdictIsLost | controllers/iteration.go:106-119 | a verdict computed before a refresh was committed leaves the resource as it is |
| Verdicts.CommittedStatesAreProper | api/v1alpha1/state.go:25-86 | in every committed revision: not STATE_UNKNOWN, never valid and in initial sync at once, failures counted iff the last verdict is negative |
| Verdicts.FailureCountCountsFailures | api/v1alpha1/state.go:67-86 | ValidationFailedCount is the number of consecutive failed verdicts committed for the current version |
| View.ViewLostOnlyUnseen | controllers/cyndipipeline_controller.go:282-319 | in every run with arbitrarily stale snapshots, a step loses the view iff it is a cleanup dropping the view's table for a removal, or after GetCurrentTable failed in that pass and the snapshot does not keep the table |
| View.ViewIsNeverLost | controllers/cyndipipeline_controller.go:282-319 | until deletion is requested, a view that once existed stays, over an existing table, in every run whose passes could read it |
| View.ViewMovesAreJustified | controllers/cyndipipeline_controller.go:233-257 | the view only moves to a table that was valid in a committed status, or at give-up when there is no view, or at give-up to a table at least as close to the inventory as the old one, by the counts the step was taken on; `Safety.ViewOnlyMovesForAReason` ties the counts to the databases |
| Resources.NeverMoreThanTwo | controllers/cyndipipeline_controller.go:147-215 | from at most two tables and two connectors, no run ever has more than two of either |
| Resources.CommittedVersionIsBacked | controllers/cyndipipeline_controller.go:180-215 | in every steady run, also on stale revisions that record the committed version, until deletion is requested: that version has its table and its connector |
| Resources.CleanupLeavesNoOrphanConnector | controllers/cyndipipeline_controller.go:270-319 | after an error-free cleanup every remaining connector writes to a remaining table |
| Resources.StaleReadLosesIff | controllers/cyndipipeline_controller.go:264-322 | from any reachable idle steady state with a committed version, a pass starting on revision k can lose that version's table or connector before it ends iff revision k records another version |
| Resources.StaleReadLoses | controllers/cyndipipeline_controller.go:264-322 | the three steps that lose it, with a readable view over another table or an unreadable one |
| Scenarios.FirstVersionIsCommitted | controllers/cyndipipeline_controller.go:180-215 | a steady run from a resource just created that commits a first version with its table and connector |
| Scenarios.StaleReadScenario | controllers/cyndipipeline_controller.go:264-322 | a run in which a later pass, reading the very first revision and the view without an error, loses that version |
| Scenarios.ViewLossScenario | controllers/cyndipipeline_controller.go:282-319 | a run that loses the view without a deletion request, because reading it failed once |
| View.SliceNeverPanics | api/v1alpha1/state.go:127-129 | in every run that starts without a view or with a long enough name behind it, the slice stays in bounds |
| Cleanups.OnlyStaleTablesAreDropped | controllers/cyndipipeline_controller.go:264-319 | in every run, however stale the snapshot: a step that loses a table is a cleanup dropping it, its name matches hosts_%, and it is neither the snapshot's version's table, nor the recorded one of an unmanaged pipeline, nor the one seen behind the view |
| Cleanups.OnlyStaleConnectorsAreDropped | controllers/cyndipipeline_controller.go:270-305 | the same for connectors: neither the one of the snapshot's version nor the one of the table seen behind the view, if managed |
| Cleanups.ViewsConnectorIsNeverDropped | controllers/cyndipipeline_controller.go:285-290 | in every run, a managed pass that is not removing never deletes the connector of the table it saw behind the view |
| Cleanups.FinishedCleanupsLeaveOnlyKept | controllers/cyndipipeline_controller.go:264-322 | conversely a cleanup without errors leaves no hosts_ table and no connector but those |
| Cleanups.TablesAfterPass | controllers/cyndipipeline_controller.go:264-319 | an undisturbed pass leaves every table that is not a hosts_ table, and exactly the kept hosts_ tables |
| Cleanups.TablesWithoutConfig | controllers/cyndipipeline_controller.go:282-284 | without a configuration, or where the slice panics, no table is touched |
| Cleanups.ConnectorsAfterPass | controllers/cyndipipeline_controller.go:293-305 | an undisturbed pass leaves exactly the kept connectors, unchanged but for being paused or resumed |
| Cleanups.ViewsConnectorSurvivesPass | controllers/cyndipipeline_controller.go:285-290 | the connector of the table applications read is still there after an undisturbed pass |
| Cleanups.SliceInBoundsIff | api/v1alpha1/state.go:127-129 | the slice panics iff the pipeline is managed, not being removed, and the view's table has a name of less than seven characters |
| Removal.ResourceGoesIff | controllers/cyndipipeline_controller.go:368-371 | the resource goes by the removal of the finalizer, or at once on a deletion request that finds none |
| Removal.FinalizerGuardsCleanup | controllers/cyndipipeline_controller.go:159-170 | outside EPHEMERAL mode the finalizer can be removed only when no `hosts_` table, no view over one and no connector is left |
| Removal.NothingIsLeftBehind | controllers/cyndipipeline_controller.go:145-183 | a pipeline created over a clean database leaves nothing behind whichever way it disappears, orphans of unfinished refreshes included |
| Safety.CommittedStatusIsSound | controllers/validation_controller.go:52-114 | the verdict theorems for every state the controllers' code reaches |
| Safety.ResourcesStayBounded | controllers/cyndipipeline_controller.go:123-262 | the bound of two for every state the controllers' code reaches |
| Safety.NothingOutlivesThePipeline | controllers/cyndipipeline_controller.go:159-170 | once the resource is gone, nothing of it is left, for the controllers' code |
| Safety.ViewStaysOnAnExistingTable | controllers/cyndipipeline_controller.go:282-319 | the view stays on an existing table, for the controllers' code |
| Safety.ValidMeansValidated | controllers/validation_controller.go:81-113 | for the controllers' code, a committed Valid=True goes back to a validation of the run whose counts and ids the databases did contain |
| Safety.ViewOnlyMovesForAReason | controllers/cyndipipeline_controller.go:503-541 | for the controllers' code, every move of the view is justified, and the counts of a give-up are counts the databases did have |
| Safety.ViewOnlyLostUnseen | controllers/cyndipipeline_controller.go:282-319 | the exact condition for losing the view, for the controllers' code |
| Safety.CommittedVersionStaysBacked | controllers/cyndipipeline_controller.go:180-215 | table and connector of the committed version, for the controllers' code in steady runs |
| Safety.NoOrphanAfterCleanup | controllers/cyndipipeline_controller.go:270-319 | no connector without its table after a cleanup, for the controllers' code in steady runs |
| Calm.NoDeviationIffMatches | controllers/cyndipipeline_controller.go:417-485 | the check finds no deviation iff table, hashes and (when managed) a healthy connector with current labels and configuration are there |
| Outcomes.DeviationBeatsValidation | controllers/validation_controller.go:70-79 | a pipeline that does not match is never validated: it becomes NEW, with tables, view and connectors untouched and no verdict |
| Outcomes.DeviationRefreshes | controllers/cyndipipeline_controller.go:217-224 | after its cleanup a pass over a pipeline that does not match only makes it NEW |
| Outcomes.NothingIsDecidedWithoutTemplate | controllers/validation_controller.go:71-73 | a template that does not render keeps the validation controller from deciding anything |
| Outcomes.NothingIsDoneWithoutTemplate | controllers/cyndipipeline_controller.go:217-219 | and the pipeline controller from doing more than its cleanup |
| Outcomes.VerdictOutcome | controllers/validate.go:13-70 | the committed status after a validation, from hosts and configuration: valid iff the counts are at most half the inventory apart and 100 * mismatch <= percentage * max(hosts, 1), with the percentage of the current phase, and the mismatch, ratio, host count, counter and phase that go with it |
| Outcomes.UncheckedVerdictOutcome | controllers/validation_controller.go:81-113 | without the deviation check: the same wherever the table exists, nothing where it does not |
| Outcomes.NothingToValidate | controllers/validation_controller.go:63-66 | NEW, removed and gone pipelines, and those without a configuration, are not validated |
| Outcomes.GivesUpIffExhausted | controllers/cyndipipeline_controller.go:244-258 | a pass makes a matching pipeline NEW iff its last verdict is negative and the counter has reached the attempts of the current phase |
| Outcomes.ViewOutcome | controllers/cyndipipeline_controller.go:233-258 | the view after a pass over a matching pipeline: a managed valid table, the healthier one at the give-up of a first sync, else unchanged |
| Outcomes.NewVersionOutcome | controllers/cyndipipeline_controller.go:180-215 | a new version: status, finalizer, table and connector, field by field |
| Outcomes.FailedVersionOutcome | controllers/cyndipipeline_controller.go:204-208 | if the connector cannot be created nothing is committed; the table and the finalizer stay |
| Outcomes.NewPassOutcome | controllers/cyndipipeline_controller.go:145-215 | a pass over a NEW pipeline is its cleanup and then its new version |
| Outcomes.RemovalOutcome | controllers/cyndipipeline_controller.go:159-170 | with a configuration a removed pipeline goes in one undisturbed pass, with every hosts_ table, a view over one, and all connectors, and nothing else |
| Outcomes.RemovalWithoutConfig | controllers/cyndipipeline_controller.go:153-166 | without one only EPHEMERAL mode lets it go; connectors go, tables and view stay |
| Outcomes.PassWithoutConfig | controllers/cyndipipeline_controller.go:172-175 | without a configuration status, tables and view of other pipelines stay |
| Outcomes.PassLeavesAlone | controllers/cyndipipeline_controller.go:140-143 | a resource that is gone is left alone, and so is one where the slice panics |
| Outcomes.SettingsInForce | controllers/config/config.go:86-109 | thresholds and hashes come from the current spec and config map |
| Outcomes.ConnectorAskedFor | controllers/cyndipipeline_controller.go:373-393 | the desired connector is rendered with the TLS settings of the configuration |
| Stability.TwoPassesStabilise | controllers/cyndipipeline_controller.go:180-224 | from any status not being removed and any tables and connectors, one or two undisturbed passes reach a matching configuration |
| Stability.PassFromNew | controllers/cyndipipeline_controller.go:180-215 | the pass over a NEW pipeline enters INITIAL_SYNC with the new version, matching and under its own names |
| Stability.RefreshReachesTheView | controllers/cyndipipeline_controller.go:233-241 | a pass, an accepting validation and one more pass take a NEW pipeline to a valid one shown by the view |
| Stability.HypothesesCanBeMet | controllers/cyndipipeline_controller.go:180-215 | over any leftover tables and any hosts there is a NEW pipeline meeting the hypotheses of the stabilisation theorems |
| Stability.NoRefreshLoop | controllers/cyndipipeline_controller.go:217-224 | passes of both controllers in any order and number, with hosts that change between any two of them, never refresh a matching pipeline unless its attempts are exhausted |
| Stability.HostsDoNotMatter | controllers/cyndipipeline_controller.go:417-485 | whether a pipeline matches does not depend on the hosts in either database |
| Stability.ValidPipelineComesToRest | controllers/cyndipipeline_controller.go:233-241 | a valid pipeline is a fixpoint after at most two passes: status, tables, connectors and view stay |
| Stability.AcceptedVerdictIsStable | controllers/iteration.go:106-119 | validating a valid pipeline again on the same data writes nothing new |
| Stability.RefreshComesInTime | controllers/cyndipipeline_controller.go:244-258 | if every validation fails, on hosts that may change from round to round, the pipeline becomes NEW after exactly max(1, threshold - count) rounds of validation and pass, and not before, with the attempts threshold of its phase |
| Controllers.ReconcilePipeline | controllers/cyndipipeline_controller.go:123-262 | under any interference and failure: only continues a run; undisturbed: the world afterwards is `PassCalm` of the world before |
| Controllers.ReconcileValidation | controllers/validation_controller.go:52-114 | under any interference and failure: only continues a run; undisturbed: the world afterwards is `ValidationCalm` of the world before, or `UncheckedValidationCalm` without the deviation check |
| Controllers.ReconcileIteration.Pass | controllers/cyndipipeline_controller.go:145-262 | the same for the iteration of one pass |
| Controllers.ReconcileIteration.DeleteStaleDependencies | controllers/cyndipipeline_controller.go:264-322 | it panics iff the slice is out of bounds, and then changes nothing; otherwise no error means that only what is to be kept is left; undisturbed: exactly the stale connectors, and the stale tables if there is a database, are gone |
| Controllers.ReconcileIteration.DependenciesToKeep | controllers/cyndipipeline_controller.go:264-291 | the two keep lists contain exactly the keep sets of the protocol, for any outcome of reading the view that does not make the slice panic |
| Controllers.ReconcileIteration.DropStaleConnectors | controllers/cyndipipeline_controller.go:293-305 | every connector not to be kept is deleted unless an error is reported; the others are untouched |
| Controllers.ReconcileIteration.DropStaleTables | controllers/cyndipipeline_controller.go:307-319 | every listed table not to be kept is dropped unless an error is reported, and the view falls with its table only |
| Controllers.ReconcileIteration.Finalize | controllers/cyndipipeline_controller.go:159-170 | undisturbed, the resource goes iff the cleanup had no error or the mode is EPHEMERAL |
| Controllers.ReconcileIteration.AddFinalizer | controllers/cyndipipeline_controller.go:359-366 | the finalizer is on the resource and on the working copy, which follows the new revision |
| Controllers.ReconcileIteration.ChooseVersion | controllers/cyndipipeline_controller.go:185-190 | the working copy records hashes and names of the new version |
| Controllers.ReconcileIteration.EnsureTable | controllers/cyndipipeline_controller.go:192-202 | on success the version's table exists; an existing one is reused |
| Controllers.ReconcileIteration.EnsureConnector | controllers/cyndipipeline_controller.go:204-211 | a managed pipeline gets exactly the desired connector, and fails if the name is taken or the template does not render |
| Controllers.ReconcileIteration.CheckForDeviation | controllers/cyndipipeline_controller.go:417-485 | changes nothing; undisturbed: the outcome is the deviation of the world it runs in |
| Controllers.ReconcileIteration.SetConnectorState | controllers/connect/connect.go:228-246 | on success the connector is paused or running as the spec says, whatever runs in between; undisturbed, only a missing one is an error |
| Controllers.ReconcileIteration.RecreateViewIfNeeded | controllers/cyndipipeline_controller.go:395-415 | on success the view of a managed pipeline shows its table, whatever runs in between |
| Controllers.ReconcileIteration.UpdateViewIfHealthier | controllers/cyndipipeline_controller.go:492-543 | whatever runs in between: the view moves only to the version's table, and only on counts, seen during the call, by which that is at least as close to the inventory; on success it stays only on counts by which the active one is closer. Undisturbed: it shows the closer table, the new one on a tie |
| Controllers.ReconcileIteration.GiveUp | controllers/cyndipipeline_controller.go:245-258 | a version that never became valid is weighed against the active table; then the pipeline is NEW in either case |
| Controllers.ReconcileIteration.UpdateStatusAndRequeue | controllers/iteration.go:94-124 | on success the status is stored unless it equals the original one; undisturbed it always succeeds, with the view's table as the active one |
| Controllers.ReconcileIteration.Compare | controllers/validate.go:13-70 | the verdict is `Judge` of four answers that were true at moments during the call, without fetching ids on an early exit; undisturbed, it is the verdict on one snapshot |
| Controllers.ReconcileIteration.RecordVerdict | controllers/validation_controller.go:81-113 | undisturbed, the verdict with its mismatch and host count is what is committed, and nothing if the table is missing |
| Clusters.Cluster.Step | controllers/iteration.go:94-124 | a step taken by the code extends the run; the state is always the one the run leads to, and every answer a step was taken on was true of the databases |
| Clusters.Cluster.ViewHasTable | controllers/database/app_database.go:114-137 | the view always shows an existing table |
| Clusters.Cluster.CountAppHosts | controllers/database/database.go:145-171 | the count of an existing table at the moment of the answer; a missing table is an error |
| Clusters.Cluster.CheckIfTableExists | controllers/database/app_database.go:67-93 | says whether the table exists; the empty name never does and is not asked for |
| Clusters.Cluster.GetCyndiTables | controllers/database/app_database.go:159-181 | returns exactly the tables matching the listing pattern |
| Clusters.Cluster.CreateTable | controllers/database/app_database.go:95-112 | adds the table or fails without effect |
| Clusters.Cluster.DeleteTable | controllers/database/app_database.go:114-125 | drops the table and, with CASCADE, a view over it; a missing table is not an error |
| Clusters.Cluster.UpdateView | controllers/database/app_database.go:127-137 | the view shows the table on success; it may have moved on failure (GRANT) |
| Clusters.Cluster.DeleteConnector | controllers/connect/connect.go:215-226 | removes the connector; a missing one is not an error |
| Clusters.Cluster.CreateConnector | controllers/connect/connect.go:167-189 | adds the connector, fails if the name is taken |
| Clusters.Cluster.UpdatePipelineStatus | controllers/iteration.go:111-118 | on success the resource is the very snapshot the status was computed from, with that status and the next version number |
| Clusters.Cluster.UpdateVerdict | controllers/iteration.go:111-118 | the same for the validation controller, with an active table that may be outdated |
| Pipeline.CyndiPipeline.SetValid | api/v1alpha1/state.go:67-86 | condition, host count, failure counter and initial-sync flag after a verdict |
| Pipeline.CyndiPipeline.TransitionToNew | api/v1alpha1/state.go:42-47 | the status after a refresh was decided |
| Pipeline.CyndiPipeline.TransitionToInitialSync | api/v1alpha1/state.go:49-65 | allowed in NEW and INITIAL_SYNC only; records version and, depending on management, table and connector |
| Pipeline.StatesSpelledOut | api/v1alpha1/state.go:25-40 | the states by deletion, version, verdict and phase |
| Pipeline.RefreshSpelledOut | api/v1alpha1/state.go:42-47 | a refresh clears version, phase, verdict, counter and host count, and nothing else |
| Pipeline.VerdictSpelledOut | api/v1alpha1/state.go:67-86 | what a verdict changes, field by field |
| Pipeline.NewVersionSpelledOut | api/v1alpha1/state.go:49-65 | what a new version changes, field by field, managed or not |
| Pipeline.DataSpecForgets | api/v1alpha1/cyndipipeline_types.go:83-89 | two specs have the same data iff they differ at most in managedConnectors, connectorPaused and refresh |
| Verdicts.CommitSpelledOut | controllers/iteration.go:94-124 | what a commit of the pipeline controller stores, and exactly when |
| Verdicts.VerdictCommitSpelledOut | controllers/iteration.go:94-124 | the same for the validation controller |
| Invariants.MutationsKeepStatusOk | api/v1alpha1/state.go:42-86 | a refresh and a verdict keep a status well formed |
| Names.NamesSpelledOut | api/v1alpha1/state.go:123-133 | hosts_v1_... and cyndi-app-1-..., with the rest of the version as it is |
| Names.ReplacesTheFirst | api/v1alpha1/state.go:131-133 | exactly the first underscore of a version is replaced |
| Names.FormatIntReadsBack | controllers/connect/connect.go:114-116 | the decimal text of a number reads back as the number |
| Names.VersionsAreFresh | controllers/cyndipipeline_controller.go:188 | every timestamp gives a version 1_digits, distinct timestamps distinct ones |
| Names.NamesAreInjective | api/v1alpha1/state.go:123-133 | table and connector names determine the version |
| Names.TableNameRoundTrip | api/v1alpha1/state.go:123-133 | the connector name of a version's table is the version's connector name; every created table matches the listing pattern |
| Validate.WayOffIffHalf | controllers/validate.go:28-38 | the counts are way off iff twice their distance exceeds max(hosts, 1) |
| Validate.ReportSpelledOut | controllers/validate.go:33-69 | what a verdict reports on either path: rows of the table, mismatch, and mismatch over max(hosts, 1) |
| Validate.JudgeIds | controllers/validate.go:51-58 | the two Difference loops and the ratio test give the id comparison |
| Validate.MismatchIsSymmetricDifference | controllers/validate.go:51-58 | for duplicate-free ids the mismatch is the size of the symmetric difference, and the ids are accepted iff 100 * mismatch <= threshold * max(hosts, 1) |
| Validate.EarlyExitAgrees | controllers/validate.go:28-38 | on one snapshot and with a threshold up to 50 the early exit gives the verdict of the id comparison |
| Validate.EarlyExitOverrules | controllers/validate.go:28-38 | above 50 it rejects a pair of id lists that the comparison accepts |
| Validate.EarlyExitSafeIff | controllers/validate.go:28-58 | the early exit refines the id comparison on all snapshots iff the threshold is at most 50 |
| Validate.ZeroThresholdMeansEqual | controllers/validate.go:13-70 | with threshold 0 a snapshot is accepted iff the id sets are equal |
| FailedRefreshes.ActiveTableStaysClosest | controllers/cyndipipeline_controller.go:244-258 | over any sequence of passes of both controllers on a never valid pipeline with frozen counts, with or without a view at the start: the view shows the last one, of its first table and all tables given up, with minimal distance |
| FailedRefreshes.ViewAfterGiveUps | controllers/cyndipipeline_controller.go:503-541 | the same as a fold of the lesser-evil rule over the give-ups of those passes |
| LesserEvil.ActiveTableIsLastClosest | controllers/cyndipipeline_controller.go:503-541 | that fold picks the last table with minimal distance |
| LesserEvil.GapNeverGrows | controllers/cyndipipeline_controller.go:533-541 | giving up never takes the view further from the inventory count |
| Lang.DistanceIsExact | controllers/utils/lang.go:20-26 | int64 subtraction and Abs give the distance iff it fits; always for non-negative counts |
| Lang.Difference | controllers/utils/lang.go:30-46 | the elements of one list missing in the other, in order and with repetitions |
| Lang.DifferenceIsSetDifference | controllers/utils/lang.go:30-46 | for a duplicate-free list that is the set difference, each element once |
| Lang.Omit | controllers/utils/lang.go:51-70 | the map without the ignored keys |
| Lang.Merge | controllers/utils/lang.go:89-103 | the left-to-right union of the maps |
| Lang.LastMapWins | controllers/utils/lang.go:85-103 | a key has the value of the last map that defines it |
| Lang.MergedKeys | controllers/utils/lang.go:89-103 | a merged key comes from one of the maps |
| Config.EntriesSpelledOut | controllers/config/config.go:36-109 | which entry is read from which key |
| Config.ConnectorTextsSpelledOut | controllers/config/config.go:36-78 | texts for the connector: the spec's value, else the entry, else the default |
| Config.DatabaseTextsSpelledOut | controllers/config/config.go:48-101 | the same for the databases and the table script |
| Config.NumbersSpelledOut | controllers/config/config.go:56-90 | the same for numbers, which must parse |
| Config.ThresholdsSpelledOut | controllers/config/config.go:142-163 | the thresholds of running pipelines and of the initial sync, the latter from keys beginning with init. |
| Connect.DesiredSpelledOut | controllers/connect/connect.go:85-165 | labels, state, target and template inputs of the desired connector, database parameters only in EPHEMERAL mode |
| Config.ConfigVersionDetects | controllers/utils/k8s.go:46-62 | two ConfigMaps get the same version iff they agree off the ignored keys and are both empty or both not |
| Config.EmptyingIsDetected | controllers/utils/k8s.go:46-49 | a ConfigMap of one ignored key and the empty one get different versions |
| Deviation.ConnectorPassesIff | controllers/cyndipipeline_controller.go:447-484 | a connector passes iff it is healthy, has the current labels, and its configuration is the desired one or one of the two is not an object |
| Deviation.NonObjectPasses | controllers/cyndipipeline_controller.go:473-482 | a desired connector with its configuration replaced by a non-object passes |
| Deviation.HashesDetectExactlyDataChanges | controllers/cyndipipeline_controller.go:417-424 | recorded hashes pass the check iff the specs agree in all but managedConnectors, connectorPaused and refresh, the ConfigMaps agree in all but intervals and thresholds, and both ConfigMaps are empty or neither is |
| Deviation.IgnoredKeysSpelledOut | controllers/config/config.go:20-30 | leaving out the ignored keys means: the reconcile interval and the two sets of validation settings |
| Deviation.OperationalFieldsAreInvisible | api/v1alpha1/cyndipipeline_types.go:83-89 | pausing and the refresh field change neither the configuration nor the outcome of any check |
| Deviation.IgnoredKeysReachOnlyThresholds | controllers/config/config.go:22-30 | ignored keys reach intervals and thresholds, never the connector |
| Queries.GetJoinClause | controllers/database/database.go:84-98 | the clause is made of the distinct joins |
| Queries.JoinsAreTheFiltersJoins | controllers/database/database.go:84-98 | they are exactly the non-empty joins of the filters, each once |
| Queries.EarlierFiltersJoinFirst | controllers/database/database.go:84-98 | in order of first occurrence: the joins of a prefix of the filters come first |
| Queries.HasJoinClauseIff | controllers/database/database.go:125-132 | some filter joins iff the join clause is not empty |
| Queries.GetWhereClause | controllers/database/database.go:100-122 | the text of the conjunction of all conditions |
| Queries.WhereClauseIsTheConjunction | controllers/database/database.go:100-122 | reading the clause back gives exactly the filters' conditions and the insights condition, for conditions with balanced parentheses |
| Queries.JoinSpelledOut | controllers/database/database.go:97-116 | separators stand between the parts and nowhere else |
| Queries.WhereClauseSpelledOut | controllers/database/database.go:100-122 | the clause reads back as every filter's condition in order, and the insights condition iff only such hosts count |
| Queries.QueriesSpelledOut | controllers/database/database.go:134-182 | both queries name the table, the joins if there are any, and that clause |
| Queries.CountIsNumberOfIds | controllers/database/database.go:134-182 | on one snapshot the count query returns the length of the id query's result, with any filters and joins |

## Left out

- Kubernetes client, informer caches, watches, event filters and manager wiring: reads of any earlier revision and conflicting writes stand for them.
- Connectors of other owners in the namespace: the pipeline's connectors are a map of their own, listed without the owner label.
- PostgreSQL itself, connections and password rotation: a set of tables and an optional view, each call failing without effect except UpdateView. A row set cut short by a network error, which the code takes for the answer, is not modelled.
- SQL of the table script and of the view, and what the filters select: hosts are lists of ids that the environment may change at any time.
- Templates, JSON, FNV hashing, `cmp.Diff`, `NumberNormalizer` and number parsing are abstract functions of their inputs; the hash values "-2" and "" for input that JSON cannot encode are not modelled.
- IEEE rounding in the ratio tests: ratios are exact reals, so a verdict at exact equality with the threshold may differ from the float code.
- The condition's message keeps the exact ratio instead of two decimals, and conditions carry no timestamp: two verdicts whose messages print alike count as different statuses.
- Collation of ORDER BY: the order is any permutation of the rows.
- Logging, events, metrics and requeue delays do not affect the state.
- Secrets: `Calm.Env` holds the parameters of the application database as loaded; parsing them and the fallback between two ConfigMap namespaces are left out. Secrets are not part of what the code hashes.
- Default values of the configuration are those of `Library.defaults`; the constants themselves are not part of this model.
- Kafka Connect's behaviour: connectors change state and health by steps of the environment.
- Deepcopy, manifests, dashboards and scripts.
