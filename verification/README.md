# Verified models of the control plane, the deployment service and the gateway's lookup

This project models five parts of the platform in Dafny 4.11 and proves what they are for.
`dafny verify dfyconfig.toml` checks all of it.

## What is modelled

**The schema-to-plot compiler.** `PlotFields` is the extractor that walks a deployment's JSON schemas
and emits typed field paths; `PlotFieldLoops` is the same extractor in the loops the service is written
in, each loop proved against the functions. `Jsonpath` compiles a path to a quoted jsonpath literal.
The references they are proved against are independent: `JsonSchema` says which instances a schema
has, `LaxPath` what a path selects from a value, and a reader in `Jsonpath` undoes both layers of
quoting. `PlotPipeline` puts everything together: `PipelineSound`, `PipelineCoversExactly`. The claims are for
the schemas of `SchemaFragment.InFragment`: dictionaries all the way, `properties` only beside type
object (possibly nullable), `items` or `prefixItems`, references that lead to something that is not a
reference, at most one alternative that is not null, property names without `.` and `[`.
`PlotFieldWalk` says on schemas alone which positions the extractor comes to, through normal forms, and proves that
exactly these get a field. `PlotFieldDescribed` gives a condition that can be read off the schemas
on the way (`PlotFieldCoverage.InCover`: references and alternatives without constraining siblings, arrays that
say they are arrays) under which every position the document gives a scalar type is one of them.
`FragmentLimits` has families of documents in the fragment that lose such a position: constraints beside a sole
alternative, and arrays that do not declare their type. `ScalarUnions` is about several scalar
alternatives, outside the fragment: the last one alone decides the field, which is sound exactly if all that admit
more than null are of one kind.

How extraction ends is settled for all documents, in the fragment or not. `ExtractionVisits` is the walk:
which call of the extractor leads to which. `ExtractionOutcomes` proves that some recursion limit lets
extraction succeed exactly if the walk reaches neither a cycle nor a call that raises, that
without such a call every limit is exhausted exactly if it reaches a cycle, that without a cycle some limit lets it
raise exactly if it reaches such a call, and which calls these are. `FragmentExtracts` adds
that none raises in the fragment, `SchemaCycles` gives a condition and a frame count that need no walk,
and `RecursiveSchemas` is a linked list: in the fragment, and beyond every limit.

**The deployment protocol.** `Deployments` is a transition system: one event is one committed request,
one database or cluster call of one worker, one process start or crash, one claim, or one
notification moved along. `DeploymentSafety` and `DeploymentRows` hold for any number of workers and any crashes;
`DeploymentSettling`, `DeploymentPlacement`, `DeploymentDeletion` and `DeletionRuns` for runs with one worker process at a time, names that do not clash
and tasks that are not dated before earlier ones; `DeploymentWakeups` is about the notifications.
`DeploymentWorkers` is the worker as it is written, a drain loop and a sequence of calls with an exception handler,
on a database and a cluster that others use between any two calls: whatever it does is a legal run. `DeploymentRequests` does
the same for the requests of the control plane.

**Run dashboards across two stores.** `DashboardService` has the create, update and delete operations, with
the reorder and reindex loops, on a Postgres session and a Grafana map that can fail at any
call. `DashboardTables` proves what each change keeps, `DashboardHistories` that the stores agree and display orders
are 0 to n - 1 after every sequence of operations.

**Step logging.** `StepLogging` proves that batches refine one-at-a-time logging, `RunService` is the
operation, `LatestMetrics` proves that the Python fold and the stat query agree.

**Names, datasets, pages.** `Slugs` and `KubernetesNames` are the string algorithms, `ObjectKeys` and `Datasets` the dataset
registry, `Pagination` the list views over the stable sort of `Sorting`.

## What the code does that one might not expect

* A dataset name that makes the slug of another dataset with two or more versions can never be registered:
  the lookup in the slug search expects at most one row and raises. `Datasets.DatasetRegistry.InitiateUpload` states exactly when;
  `Datasets.SameSlugBlocks` gives the family.
* While a deployment is being started, a requested deletion is overwritten: there is a run in which the row says
  ACTIVE although the DELETE task waits (`DeletionRuns.ActiveOverwritesDeleting`). With one worker at a time
  the deletion still has the last word: the last claimed task is a DELETE task, and once it is completed
  the deployment is DELETED with nothing in the cluster (`DeploymentDeletion.DeletionWinsMidway`). The same holds of
  any deletion dated after a DEPLOY task that still waits (`DeploymentDeletion.DeletionWins`). With equal dates
  it can be taken first and the deployment ends ACTIVE (`DeletionRuns.EqualDatesDeploy`).
* A sole alternative replaces what stands beside it, and arrays that do not say so are not looked into: both lose positions
  of well-formed documents (`FragmentLimits.ConstraintsBesideUnionAreLost`, `FragmentLimits.UndeclaredItemsAreLost`).
* Of several scalar alternatives the last decides the field (`ScalarUnions.UnionSoundExactly`), recursive schemas
  exhaust the interpreter's stack (`ExtractionOutcomes.ExhaustsExactly`), and arrays of arrays of `true` raise
  (`ExtractionOutcomes.RaiseExactly`).
* A worker that finds the queue empty and then registers misses what is inserted in between
  (`DeploymentWakeups.GapBeforeRegistration`), and sleeps until the next insertion
  (`DeploymentWakeups.RegisteringSleeps`).
* Workload names of slugs with 38 characters or more lose digits of the identifier (`KubernetesNames.LongSlugsCollide`).
* A dataset whose file type has a dot, or is empty, is never confirmed (`ObjectKeys.KeyReadBack`).

## Model

| member | source | states |
|---|---|---|
| PlotFieldLoops.ResolveRefLoop | control-plane/src/application/deployment_service.py:457-471 | the walk down the root document computes the reference step of the model, the schema's own keys overriding the target's |
| PlotFieldLoops.ExtractSchemaFields | control-plane/src/application/deployment_service.py:344-377 | the loop form of the schema walk equals the recursive specification, failures included |
| PlotFieldLoops.PropertiesLoop | control-plane/src/application/deployment_service.py:367-377 | growing the list property by property gives the fields of all properties in order, skipping values that are not dictionaries |
| PlotFieldLoops.ExtractArrayFields | control-plane/src/application/deployment_service.py:379-398 | arrays with one item schema, with a list of item schemas, or with neither |
| PlotFieldLoops.ItemFields | control-plane/src/application/deployment_service.py:399-422 | arrays of scalars, of arrays of scalars with their columns, and of anything else |
| PlotFieldLoops.ColumnsLoop | control-plane/src/application/deployment_service.py:411-416 | one column field for each index below the fixed width |
| PlotFieldLoops.PrefixItemsLoop | control-plane/src/application/deployment_service.py:387-397 | tuple positions in order, each under its index |
| PlotFieldLoops.ExtractBranchFields | control-plane/src/application/deployment_service.py:424-440 | alternatives in order, null skipped, one field for each source and path |
| PlotFieldLoops.PutAll | control-plane/src/application/deployment_service.py:438-440 | assigning fields one by one is a dictionary merge: a later field replaces an earlier one of its path in place |
| PlotFieldLoops.ExtractPlotFieldsLoop | control-plane/src/application/deployment_service.py:336-342 | both schemas, one field for each source and path, sorted by source and path |
| References.UnescapeEscape | control-plane/src/application/deployment_service.py:464 | decoding `~1` and then `~0` undoes the escaping of section 3 of RFC 6901 for every key |
| References.OtherOrderExactly | control-plane/src/application/deployment_service.py:464 | the other decoding order gives a key back if and only if the key does not contain `~1` |
| References.ReferenceResolves | control-plane/src/application/deployment_service.py:457-471 | a `$ref` built for any key path resolves to exactly the object at that path, and to nothing when there is none |
| SchemaFragment.NormalizeStays | control-plane/src/application/deployment_service.py:442-455 | normalising stays in the fragment and leaves no reference, nullable type or sole alternative |
| SchemaFragment.NormalizeValid | control-plane/src/application/deployment_service.py:442-455 | every non-null instance of a schema is an instance of its normal form |
| PlotFieldSoundness.TypeRead | control-plane/src/application/deployment_service.py:473-483 | the type the extractor reads, declared or given away by an enumeration, is the type of every non-null instance |
| PlotFieldSoundness.SchemaSound | control-plane/src/application/deployment_service.py:344-422 | every field extracted under a prefix selects, on every instance, only nulls and values of its kind |
| PlotFieldWalk.SchemaWalked | control-plane/src/application/deployment_service.py:344-440 | the fields extracted under a prefix cover a location, for values of a type, if and only if the walk through normal forms comes to it with a scalar of that kind |
| PlotFieldDescribed.DescribedWalked | control-plane/src/application/deployment_service.py:344-455 | the walk comes to every position the schema gives a scalar type, if the schemas on the way meet the coverage conditions |
| PlotFieldDescribed.SchemaCovers | control-plane/src/application/deployment_service.py:344-422 | so every such position is covered by an extracted field of its type |
| PlotFieldsApart.SchemaApart | control-plane/src/application/deployment_service.py:344-422 | two extracted fields have different paths and, columns of matrices aside, no common position |
| PlotPipeline.CollectsBothSides | control-plane/src/application/deployment_service.py:336-342 | in the fragment, collecting by source and path drops nothing: the result is the sorted concatenation of both sides |
| PlotPipeline.PipelineSound | control-plane/src/application/deployment_service.py:336-507 | a field's path is left alone by the legacy normalisation, compiles, and what the compiled and re-read path selects from any valid instance is null or of the field's kind |
| PlotPipeline.PipelineEmitsExactly | control-plane/src/application/deployment_service.py:336-440 | for every pair of documents in the fragment, a side has a field for a location and a type, columns of matrices aside, if and only if its walk comes to the location so, and never two |
| PlotPipeline.PipelineCoversExactly | control-plane/src/application/deployment_service.py:336-440 | on a valid instance, a non-null value is selected by the compiled path of a field for a type if and only if the walk comes to its location so, and never by two fields |
| PlotPipeline.PipelineCoversOnce | control-plane/src/application/deployment_service.py:336-422 | in particular by exactly one where the document gives the position a scalar type and its way meets the coverage conditions |
| SchemaTermination.NormalizeEnds | control-plane/src/application/deployment_service.py:442-455 | normalising needs one frame for every two edges below the schema and stays within the bound |
| SchemaTermination.ExtractionEnds | control-plane/src/application/deployment_service.py:336-471 | extraction ends within two frames for each edge of a longest path of containment and references |
| SchemaCycles.AcyclicExtractionEnds | control-plane/src/application/deployment_service.py:336-471 | extraction ends on every pair of documents whose graph of containment and reference edges has no cycle |
| ExtractionVisits.SchemaFails | control-plane/src/application/deployment_service.py:344-440 | a read that raises or exhausts the stack does so in a call it makes, in the same way and within two frames |
| ExtractionVisits.SchemaFinishes | control-plane/src/application/deployment_service.py:344-440 | a read that finishes has finished every call it makes, with fewer frames |
| ExtractionOutcomes.SucceedsExactly | control-plane/src/application/deployment_service.py:336-471 | for all documents, some recursion limit lets extraction succeed if and only if neither walk reaches a cycle or a call that raises |
| ExtractionOutcomes.ReadableExtracts | control-plane/src/application/deployment_service.py:336-471 | then two frames for every call the walk can come to are enough |
| ExtractionOutcomes.ExhaustsExactly | control-plane/src/application/deployment_service.py:336-471 | for documents where no call raises, every recursion limit is exhausted if and only if a walk reaches a cycle |
| ExtractionOutcomes.RaisesExactly | control-plane/src/application/deployment_service.py:336-471 | for documents without a cycle in reach, extraction raises at some limit if and only if a walk reaches a call that raises |
| ExtractionOutcomes.RaiseExactly | control-plane/src/application/deployment_service.py:403-410 | the calls that raise: the document is no dictionary, or the walk reads an array of arrays whose inner `items` is truthy and no dictionary |
| RecursiveSchemas.RecursiveSchemaNeverEnds | control-plane/src/application/deployment_service.py:344-377 | a linked-list schema is in the fragment, its walk reaches a cycle, and it exhausts every recursion limit |
| FragmentExtracts.FragmentNeverRaises | control-plane/src/application/deployment_service.py:344-455 | in the fragment the walk reaches no call that raises |
| FragmentExtracts.FragmentEndsExactly | control-plane/src/application/deployment_service.py:336-507 | documents in the fragment are extracted with some recursion limit if and only if neither walk reaches a cycle, and exhaust all of them otherwise |
| FragmentExtracts.FragmentSucceeds | control-plane/src/application/deployment_service.py:336-507 | on acyclic documents in the fragment extraction neither raises nor runs out of frames |
| ScalarUnions.LastAlternativeWins | control-plane/src/application/deployment_service.py:424-455 | any list of scalar alternatives under `anyOf` or `oneOf`, read by type, nullable or not, by enumeration or by reference, gives the one field of the last that is not null, or none |
| ScalarUnions.UnionSoundExactly | control-plane/src/application/deployment_service.py:424-455 | that field is sound if and only if all alternatives that admit more than null are of its kind |
| ScalarUnions.SimpleOneKind | control-plane/src/application/deployment_service.py:473-483 | for alternatives that are only a type or an enumeration the condition is that all but null are read as one kind |
| FragmentLimits.ConstraintsBesideUnionAreLost | control-plane/src/application/deployment_service.py:449-454 | for every scalar type and property name, a document in the fragment with a valid instance gives the property the type beside a sole alternative, and the position gets no field |
| FragmentLimits.UndeclaredArraysAreLost | control-plane/src/application/deployment_service.py:359-369 | items of a schema without a declared type are not looked at, whatever they are |
| FragmentLimits.UndeclaredItemsAreLost | control-plane/src/application/deployment_service.py:359-369 | for every scalar type and property name, a document in the fragment with a valid instance gives the items of an undeclared array the type, and they get no field |
| FragmentLimits.InnerItemsRaise | control-plane/src/application/deployment_service.py:406-407 | arrays of arrays whose inner `items` is truthy and no dictionary make the extractor raise |
| Jsonpath.NameLoop | control-plane/src/infrastructure/observability/grafana.py:486-490 | the first inner loop splits a segment at its first bracket |
| Jsonpath.SelectorLoop | control-plane/src/infrastructure/observability/grafana.py:493-506 | the second inner loop appends the remaining selectors, or raises |
| Jsonpath.JsonpathLiteralLoop | control-plane/src/infrastructure/observability/grafana.py:483-507 | the compiler as nested loops equals its recursive specification |
| JsonpathProofs.CompilePrinted | control-plane/src/infrastructure/observability/grafana.py:483-507 | every path the extractor prints compiles to the accessors of its steps |
| JsonpathProofs.ReadQuotedBack | control-plane/src/infrastructure/observability/grafana.py:509-513 | undoing member quoting gives back any name, backslashes and quotes included |
| JsonpathProofs.ReadSqlBodyBack | control-plane/src/infrastructure/observability/grafana.py:467-469 | undoing quote doubling gives back any text |
| JsonpathProofs.CompilationPreservesMeaning | control-plane/src/infrastructure/observability/grafana.py:467-513 | compiling never raises on printed paths, and undoing both layers of quoting gives exactly the steps that were printed |
| JsonpathProofs.PrintInjective | control-plane/src/application/deployment_service.py:375-422 | distinct sequences of steps never share a printed path |
| DeploymentSafety.KeepsTasks | deployment-service/src/deployment_service/db.py:58-85 | every event keeps tasks numbered, waiting exactly until claimed, in progress while held, and held by one worker |
| DeploymentSafety.ClaimedAtMostOnce | deployment-service/src/deployment_service/db.py:58-85 | in every run, with any workers and crashes, each task is claimed at most once |
| DeploymentSafety.TaskStep | deployment-service/src/deployment_service/db.py:171-190 | one event moves a task at most one step along PENDING, IN_PROGRESS, then COMPLETED or FAILED |
| DeploymentSafety.TasksMoveForwards | deployment-service/src/deployment_service/db.py:58-85 | over any run a task keeps its deployment and kind, never returns to PENDING and stays finished, database calls that raise having no effect |
| DeploymentSafety.GoneForGood | control-plane/src/infrastructure/database/repositories.py:465-476 | a task removed with its deployment never comes back |
| DeploymentRows.KeepsRows | deployment-service/src/deployment_service/db.py:87-169 | every event keeps rows, tasks and jobs consistent, slugs unique, and endpoint columns empty or computed from the row |
| DeploymentRows.KeepsInv | deployment-service/src/deployment_service/worker.py:36-60 | every event keeps the invariant of tasks, rows and statuses |
| DeploymentRows.StatusesAreExplained | deployment-service/src/deployment_service/worker.py:36-60 | in every run PENDING means an unfinished DEPLOY task, DEPLOYING one in progress, DELETING an unfinished DELETE task |
| DeploymentRows.GatewayFindsActive | edge-gateway/store.go:56-96 | in every run the gateway's query finds a target exactly for an ACTIVE row, at most one, computed from the row's slug and identifier |
| DeploymentWakeups.NoLostWakeup | deployment-service/src/deployment_service/db.py:192-205 | with any number of workers, while a task inserted after registration is pending, the worker drains, works, or has a notification coming, unless it once passed over that very task because another had locked it |
| DeploymentWakeups.AwakeWorkersMove | deployment-service/src/deployment_service/worker.py:24-34 | such a worker has a next step of its own |
| DeploymentWakeups.GapBeforeRegistration | deployment-service/src/deployment_service/worker.py:24-27 | a task inserted between the first drain and the registration waits with nothing under way to wake the worker |
| DeploymentWakeups.RegisteringSleeps | deployment-service/src/deployment_service/worker.py:24-34 | in every run, a worker that registers, whatever waits, has no step of its own until the next insertion or its crash |
| DeploymentSettling.RoomKeepsNamesApart | deployment-service/src/deployment_service/kubernetes_resources.py:25-57 | slugs of at most 37 characters and identifiers that differ early enough never clash |
| DeploymentSettling.KeepsOwned | deployment-service/src/deployment_service/kubernetes_client.py:123-172 | every cluster object belongs to a claimed deployment under its own name, secrets to images only |
| DeploymentPlacement.LastPlaced | deployment-service/src/deployment_service/worker.py:57-60 | the last call of a job leaves the row and the cluster as the finished task promises |
| DeploymentPlacement.KeepsSolo | deployment-service/src/deployment_service/worker.py:29-60 | with one worker at a time every event keeps the invariant that ties statuses to cluster objects |
| DeploymentPlacement.SettledWhenDrained | deployment-service/src/deployment_service/worker.py:29-60 | when the only worker finds no pending task, every deployment is as its last claimed task, a newest one, left it: ACTIVE with workload and service, DELETED with nothing, or FAILED, unless a crash left that task in progress |
| DeploymentPlacement.SettledWithoutCrashes | deployment-service/src/deployment_service/worker.py:29-60 | without crashes there is no exception: every last claimed task is finished and settles its deployment |
| DeploymentPlacement.ActiveRuns | deployment-service/src/deployment_service/kubernetes_client.py:96-121 | with one worker at a time an ACTIVE deployment has its workload and service in the cluster, in every reachable state |
| DeploymentDeletion.DeletionWins | deployment-service/src/deployment_service/worker.py:29-60 | a deletion dated after any DEPLOY task that still waits has the last word: when the worker finds no pending task the last claimed task is a DELETE task, and if it was completed the deployment is DELETED with nothing in the cluster |
| DeploymentDeletion.DeletionWinsMidway | deployment-service/src/deployment_service/worker.py:29-60 | so has one requested once the DEPLOY task was taken, whatever its date |
| DeletionRuns.ActiveOverwritesDeleting | deployment-service/src/deployment_service/worker.py:43-50 | for every deployment a legal run with one worker in which a deletion is requested while it deploys and the row then says ACTIVE while the DELETE task waits |
| DeletionRuns.EqualDatesDeploy | deployment-service/src/deployment_service/db.py:61-71 | for every deployment a legal run with one worker in which a deletion requested at the date of the waiting DEPLOY task is claimed first, both are completed, and the deployment is ACTIVE and in the cluster |
| DeploymentWorkers.StepsDoWhatIsAsked | deployment-service/src/deployment_service/db.py:128-190 | a step of the protocol has the effect on tables and cluster of the call the worker writes at that point |
| DeploymentWorkers.World.OldestPending | deployment-service/src/deployment_service/db.py:61-71 | the claim's query finds the oldest pending task that is not locked, or there is none |
| DeploymentWorkers.World.ClaimNextTask | deployment-service/src/deployment_service/db.py:58-85 | a claim takes the oldest pending task that no other transaction has locked; finding none means all pending tasks are locked |
| DeploymentWorkers.World.Do | deployment-service/src/deployment_service/worker.py:36-60 | one call, made where the protocol expects it, leads to the next call, to the handler, or ends the process |
| DeploymentWorkers.DeploymentWorker.Deploy | deployment-service/src/deployment_service/kubernetes_client.py:56-113 | secret for images with credentials, workload, service, rollout, readiness, in this order, or the handler |
| DeploymentWorkers.DeploymentWorker.Delete | deployment-service/src/deployment_service/kubernetes_client.py:115-121 | workload, service, and for images the secret, or the handler |
| DeploymentWorkers.DeploymentWorker.TryTask | deployment-service/src/deployment_service/worker.py:37-56 | the `try` body finishes the task or arrives at the handler |
| DeploymentWorkers.DeploymentWorker.ProcessTask | deployment-service/src/deployment_service/worker.py:36-60 | every call is the one the protocol expects, and unless the process ends the task is finished |
| DeploymentWorkers.DeploymentWorker.ProcessPendingTasks | deployment-service/src/deployment_service/worker.py:29-34 | the drain is a legal run, and when it returns it has just found no pending task but locked ones |
| DeploymentWorkers.DeploymentWorker.RunForever | deployment-service/src/deployment_service/worker.py:24-27 | drain, register, drain on every notification: a legal run, however long it is observed |
| DeploymentWorkers.DrainSettles | deployment-service/src/deployment_service/worker.py:29-60 | a drain that came to its end, with one worker at a time, leaves every deployment settled by its last claimed task |
| DeploymentRequests.DeploymentService.CreateDeployment | control-plane/src/application/deployment_service.py:82-109 | a row under the first free slug and its DEPLOY task in one transaction, or nothing when the name is taken |
| DeploymentRequests.DeploymentService.DeleteDeployment | control-plane/src/application/deployment_service.py:156-168 | DELETING and a DELETE task, unless the row is DELETED or missing |
| DeploymentRequests.DeploymentService.PurgeDeployment | control-plane/src/application/deployment_service.py:170-172 | the row and its tasks are gone, the cluster is left as it is |
| RunDashboards.ReorderedPlaces | control-plane/src/application/experiment_tracking_service.py:599-607 | the moved item ends at the clamped target and all others keep their relative order |
| RunDashboards.OneOrder | control-plane/src/infrastructure/database/repositories.py:168-176 | rows with increasing display orders are listed in one way only |
| DashboardTables.AddTidy | control-plane/src/application/experiment_tracking_service.py:310-330 | a row appended behind fewer than four keeps every run's orders 0 to n - 1 |
| DashboardTables.EditAgrees | control-plane/src/application/experiment_tracking_service.py:358-380 | editing a row and its Grafana plot keeps the stores in agreement |
| DashboardTables.RemoveTidy | control-plane/src/application/experiment_tracking_service.py:614-618 | renumbering after a deletion closes the gap without reordering |
| DashboardService.RunDashboardService.ListByRun | control-plane/src/infrastructure/database/repositories.py:168-176 | the run's rows by display order and creation time |
| DashboardService.RunDashboardService.NumberFromZero | control-plane/src/application/experiment_tracking_service.py:606-607 | the loop gives the list the orders 0 to n - 1 and changes nothing else |
| DashboardService.RunDashboardService.Reorder | control-plane/src/application/experiment_tracking_service.py:594-612 | the run is numbered in the reordered sequence |
| DashboardService.RunDashboardService.Reindex | control-plane/src/application/experiment_tracking_service.py:614-618 | the rows that are left are numbered in their old sequence |
| DashboardService.RunDashboardService.CreateRunDashboard | control-plane/src/application/experiment_tracking_service.py:299-338 | a new last plot in both stores, or neither changed; if the compensation fails too, Grafana alone has the new plot |
| DashboardService.RunDashboardService.UpdateRunDashboard | control-plane/src/application/experiment_tracking_service.py:340-400 | panel and place changed in both stores, or neither changed; if the compensation fails too, Grafana alone shows the new panel |
| DashboardService.RunDashboardService.DeleteRunDashboard | control-plane/src/application/experiment_tracking_service.py:402-433 | the plot gone from both stores and the gap closed, or neither changed; if the compensation fails too, Grafana alone lost it |
| DashboardHistories.HistoryKeepsStep | control-plane/src/application/experiment_tracking_service.py:299-433 | after every sequence of operations the stores agree and each run has at most four plots with orders 0 to n - 1 |
| DashboardHistories.Serve | control-plane/src/application/experiment_tracking_service.py:299-433 | serving any requests, failed or not, is such a sequence as long as compensations succeed |
| StepLogging.NormalizedIsDistinct | control-plane/src/application/experiment_tracking_service.py:549-554 | a normalised batch has distinct steps, so one upsert statement never touches a row twice |
| StepLogging.BatchRefinesSingles | control-plane/src/infrastructure/database/repositories.py:1068-1091 | upserting the normalised batch gives the table its items give one at a time |
| StepLogging.CuttingDoesNotMatter | control-plane/src/application/experiment_tracking_service.py:209-230 | any cutting of a list of items into requests, sent at any times, gives the same data, and the same table if the items bring their times |
| StepLogging.LastItemWins | control-plane/src/infrastructure/database/repositories.py:1068-1091 | the table holds the last item of each logged step and is unchanged elsewhere |
| RunService.ExperimentRuns.NormalizeStepItems | control-plane/src/application/experiment_tracking_service.py:549-561 | the last item of each step in the place of the first, or an error if any item has an undeclared metric |
| RunService.ExperimentRuns.AppendRunSteps | control-plane/src/application/experiment_tracking_service.py:209-230 | all items logged, or nothing changed: undeclared metric, ended run, missing run or failing database |
| RunService.ExperimentRuns.EndRun | control-plane/src/application/experiment_tracking_service.py:232-248 | only a running run ends, and it ends once |
| LatestMetrics.LatestMetricsFromSteps | control-plane/src/application/experiment_tracking_service.py:578-583 | the nested loops overwrite earlier steps with later ones |
| LatestMetrics.RunStatQuery | control-plane/src/infrastructure/observability/grafana.py:409-419 | the one row at the greatest step that logs the metric, or none |
| LatestMetrics.FoldAgreesWithStat | control-plane/src/application/experiment_tracking_service.py:578-583 | fold and query agree for every table and metric, and are absent together |
| Slugs.SlugifyShape | control-plane/src/core/slugging.py:5-10 | every slug is a non-empty list of lower-case words joined by single dashes |
| Slugs.SlugifyFixed | control-plane/src/core/slugging.py:5-10 | a slug of a slug is itself |
| Slugs.CandidateShape | control-plane/src/core/slugging.py:13-17 | candidates are slugs |
| Slugs.CandidatesDiffer | control-plane/src/core/slugging.py:13-17 | candidates of different indices differ |
| Slugs.GenerateUniqueSlug | control-plane/src/application/deployment_service.py:525-532 | the search ends within one probe more than there are taken slugs and returns the first free candidate |
| KubernetesNames.DnsLabelShape | deployment-service/src/deployment_service/kubernetes_resources.py:36-43 | labels have 1 to 52 characters, alphanumeric ends and no double dash |
| KubernetesNames.DnsLabelIdempotent | deployment-service/src/deployment_service/kubernetes_resources.py:36-43 | making a label of a label changes nothing |
| KubernetesNames.WorkloadNameStartsWithLetter | deployment-service/src/deployment_service/kubernetes_resources.py:25-28 | workload names start with a letter for every slug and identifier |
| KubernetesNames.WorkloadNamesInjective | deployment-service/src/deployment_service/kubernetes_resources.py:25-28 | for slugs of at most 37 characters the name determines the slug and the eight digits |
| KubernetesNames.LongSlugsCollide | deployment-service/src/deployment_service/kubernetes_resources.py:41-42 | for every longer slug, identifiers that differ in the eighth digit share a name |
| KubernetesNames.SecretNamesInjective | deployment-service/src/deployment_service/kubernetes_resources.py:55-57 | pull-secret names determine the first twelve digits |
| KubernetesNames.ServicePort | deployment-service/src/deployment_service/kubernetes_resources.py:31-33 | ports are between 20000 and 29999 |
| ObjectKeys.KeyReadBack | control-plane/src/application/dataset_service.py:76-105 | a built object key is read back exactly if its file type is not empty and has no dot |
| Datasets.UploadKeepsSound | control-plane/src/application/dataset_service.py:39-74 | a fitting new version keeps names and slugs in bijection and versions gapless |
| Datasets.ConfirmingUpload | control-plane/src/application/dataset_service.py:76-105 | confirming a built key makes exactly that row READY and leaves its URI alone |
| Datasets.VersionsAre | control-plane/src/infrastructure/database/repositories.py:1253-1260 | the versions of a slug are exactly 1 to the newest |
| Datasets.HistoryStaysSound | control-plane/src/application/dataset_service.py:39-105 | in every history of uploads and confirmations the registry stays sound |
| Datasets.SameSlugBlocks | control-plane/src/infrastructure/database/repositories.py:1262-1268 | a new name that makes the slug of a dataset with two versions is always refused |
| Datasets.DatasetRegistry.SlugExists | control-plane/src/infrastructure/database/repositories.py:1262-1268 | whether a slug is taken, or an exception when it has more than one row |
| Datasets.DatasetRegistry.SlugOfName | control-plane/src/infrastructure/database/repositories.py:1163-1177 | the slug of a row of the name with the greatest version, or none for an unknown name |
| Datasets.DatasetRegistry.NextVersion | control-plane/src/infrastructure/database/repositories.py:1253-1260 | one more than the largest version of the slug |
| Datasets.DatasetRegistry.GenerateUniqueSlug | control-plane/src/application/dataset_service.py:191-198 | the first free candidate, or an exception exactly if a slug with more than one row comes first |
| Datasets.DatasetRegistry.InitiateUpload | control-plane/src/application/dataset_service.py:39-74 | the next version of a known name or the first of a new one, refused exactly when the slug search raises |
| Datasets.DatasetRegistry.ConfirmUpload | control-plane/src/application/dataset_service.py:76-105 | exactly the row the key names becomes READY under that key's URI |
| Sorting.SortSorted | control-plane/src/core/entities/pagination.py:50 | sorting sorts |
| Sorting.SortStable | control-plane/src/core/entities/pagination.py:50 | sorting keeps elements that are equal in the order as they were |
| Pagination.MatchingIs | control-plane/src/core/entities/pagination.py:40-47 | exactly the items with a search field that contains the search text are listed |
| Pagination.ArrangedIsSorted | control-plane/src/core/entities/pagination.py:49-50 | the listed items are a permutation of the matching ones, in order of the sort field and direction |
| Pagination.ArrangedIsStable | control-plane/src/core/entities/pagination.py:50 | items with the same key stay in their order, in both directions |
| Pagination.PagesTile | control-plane/src/core/entities/pagination.py:52-61 | the pages at offsets 0, limit, 2 limit and so on are the whole sorted list, and every page reports its length |

## Left out

- PlotPipeline.PipelineSound: claimed inside the fragment only; alternatives of different kinds are outside because the last one decides the field (`ScalarUnions.UnionSoundExactly`).
- PlotPipeline.PipelineCoversOnce: `InCover` is sufficient; the exact condition is that the walk comes to the position (`PlotPipeline.PipelineCoversExactly`).
- PlotFields.ExtractPlotFields: the table of plot types that goes with each value type is not modelled, a field has only its value type.
- JsonSchema.Valid: keywords the extractor never reads are not modelled and `oneOf` is read as "at least one", so instances here include all those of the standard.
- References.ReferenceResolves: percent-encoding of URI fragments is not modelled, the code does not decode it either.
- DeploymentPlacement.SettledWhenDrained: like `DeploymentDeletion.DeletionWins`, for runs with one worker process at a time and names that do not clash; with several workers a deployment's tasks can overlap.
- SchemaCycles.AcyclicExtractionEnds: one way, as a condition that needs no walk; the exact condition is `ExtractionOutcomes.SucceedsExactly`.
- DeploymentWakeups.NoLostWakeup: says nothing of a task the worker passed over because another had locked it; if that other crashes before it commits, the task waits for the next notification.
- DeploymentWorkers.DeploymentWorker.RunForever: observed for a finite script of what others do and how calls end.
- ExtractionOutcomes.RaisesExactly: for documents without a cycle in reach; where a walk reaches both, which comes first depends on the order of properties and on the limit.
- DashboardHistories.Serve: requests are served one at a time; two concurrent creations on one run could both see fewer than four plots.
- ObjectKeys.KeyReadBack: `uuid.UUID` and `int` also read spellings with braces, prefixes, signs, spaces or underscores; here they read plain ones. File stems are those of Python 3.13.
- Database calls that raise are taken to have no effect, cluster calls may raise before or after theirs; a failing Grafana call has no effect.
- DeploymentSafety.TasksMoveForwards: rests on database calls that raise having no effect; if the acknowledgement of a commit is lost, marking a task COMPLETED raises after its effect and the handler marks it FAILED.
- A task is a DEPLOY or a DELETE task; the branch for other types, which no producer creates, is not modelled.
- Cluster objects are names with the deployment they were built for; their specifications, and what a patch merges, are not part of this model.
- Waiting for a rollout or for readiness is a success or a failure, without time.
- HTTP, Kubernetes, MinIO, Gitea and Grafana transport, SQLAlchemy and SQL text other than the quoted literals, encryption and tokens.
- Strings are ASCII where slugs, labels and lower-casing are concerned; the path compiler's character classes are parameters.
- Deployment dashboards, the SQL of deployment plots around the path literal, and the gateway beyond its lookup.
- The dashboard application, routes, settings, the SDK and the model server.
