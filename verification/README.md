# Verification of the Node Feature Discovery operator

The operator keeps five objects (the nfd-master and nfd-gc Deployments, the nfd-worker and
nfd-topology-updater DaemonSets, the nfd-worker ConfigMap) in line with a NodeFeatureDiscovery
custom resource (CR), reports their health in the CR's conditions, and on deletion takes them down,
runs a prune job if asked to, and gives up its finalizer. This project models that reconcile
protocol and proves what it keeps in every run, whatever users, Kubernetes and failing calls do
between any two of its API calls.

It is written on two levels.

* `Protocol.dfy` is a state machine over single API calls: contents of the API server, the one-entry
  work queue, the position of the running Reconcile, and a label for every move (the worker takes an
  entry, the controller makes a call, somebody else acts, the operator restarts). Every call can
  fail; a failed write may or may not have taken effect. What each call does to the stores is told
  from before and after it in `Effects`. The theorems over runs are in `Safety`,
  `Orphans`, `Prune`, `Convergence`, `Wakeup`, `Quiet`, `Silence`, `Repair`, `Teardown`,
  `TeardownAlone` and `Limits`.
* `ApiServer.dfy`, `Components.dfy` and `Reconciler.dfy` have the source's own form: a server with
  mutable stores, in-memory copies of objects, and a controller with one method per function of the
  source. Each method ensures that its calls, with everything that others did in between, extend a
  run of the state machine which ends in the state reached (`Valid`, `Continues`), so what is proved
  of all runs holds of that code.

The pure parts stand beside them: `Status` and `StatusHistory` (the status engine), `MasterArgs` and
`Text` (the master's command line), `Desired` (what objects are to contain), `Finalizers`,
`Ownership` (owner references, several CRs in one namespace), and `DeepCopy` (the generated copy
functions and the status patch). `dafny verify dfyconfig.toml` checks everything.

## Assumptions

They are stated in the model, as the moves that are possible or as rules that a theorem names.

* Reads are fresh; one worker, so Reconciles do not overlap.
* Others may do anything except add or remove `nfd-finalizer` on an existing CR, and make a
  NodeFeatureDiscovery the controller of an object it does not own (`Protocol.Possible`).
* Deletion of a component takes effect at once; a CR with finalizers only gets its deletion timestamp
  and goes away with the last finalizer.
* The protocol has one CR at a time; many CRs are the subject of `Ownership`.
* Create-or-patch writes nothing when filling in the object fails, or when it changed nothing.
* The status patch replaces the condition list as a whole (section 2 of RFC 7396).

## What does not hold

Each of these is proved, by a run from an empty namespace, a concrete input or for every state that
it concerns, next to the exact condition under which the promise is kept.

* The topology updater's DaemonSet outlives its CR if `topologyUpdater` was switched off before the
  deletion: nothing removes it (`Limits.TopologyCanBeOrphaned`). Something is left behind exactly if
  the updater is off and its DaemonSet is there when the teardown begins (`Orphans.OrphanExactly`).
* A failed prune job does not block a deletion whose teardown has passed it already: the finalizer
  comes off although the job shows a failure (`Limits.FailureComesTooLate`). It can come off exactly
  if such a teardown, or one whose snapshot did not ask for pruning, is under way
  (`Prune.FailedPruneBlocksExactly`). With an outdated snapshot, as in the second case, this takes a
  server that accepts an update from an outdated copy; one that checks resource versions refuses it.
* The operator does not look at the owner of the prune job it finds, so a finished job of somebody
  else lets the finalizer go without any pruning (`Limits.ForeignJobIsTaken`). Pruning was started
  for this CR exactly if the job found refers to it (`Prune.OwnJobExactly`).
* A prune job of somebody else ends without waking the operator (`Limits.ForeignJobIsNotNoticed`,
  `Limits.ForeignJobExactly`).
* A failed prune job makes a deletion retry for ever, also when nothing else happens; this is the
  only way it does not come to rest (`TeardownAlone.ComesToRestExactly`).
* A change that also strips the controller reference of an object wakes nobody and is not repaired
  (`Limits.StrippedReferenceIsNotRepaired`, `Limits.StrippedReferenceExactly`).
* If a read behind the status fails twice in the same way, the failure stays published although the
  object is there: the second failure is what the conditions already say, and it is not an error of
  the Reconcile (`Limits.WrongStatusCanStay`, `Limits.FailedProbeExactly`). An operator at rest has
  something left to do for a live CR exactly if its conditions tell of such a failure
  (`Wakeup.NoLostWakeup`).
* If another controller owns the worker's ConfigMap, the worker DaemonSet is not repaired either
  (`Repair.RepairExactly`).
* `AreConditionsEqual` does not notice conditions that the new list lacks (`Status.OneDirectionOnly`,
  `Status.OtherDirectionExactly`).
* An object that is left behind is taken over by a CR created again under the same name: its owner,
  by uid, changes while it exists (`Ownership.TakenOverByNamesake`, `Ownership.UidNeverChangesExactly`).
* A comma inside a label is lost on the master's command line (`MasterArgs.CommaIsLost`,
  `MasterArgs.RoundTripExactly`).
* Teardown goes by name and takes away objects that another CR controls
  (`Ownership.TeardownIgnoresOwner`). A reference list that names the CR twice is filled in with two
  controllers (`Ownership.TwoControllers`, `Ownership.SetReferenceExactly`).

## Where code and documentation differ

The type's comments (api/v1/nodefeaturediscovery_types.go:83-87) give the operand image a default; the
code takes the field as it is (:154-156), and so does the model. The pull policy does default to
Always, except for nfd-gc, whose policy is always Always (internal/deployment/deployment.go:122).

## Model

| member | source | states |
|---|---|---|
| Effects.CrInGoodHands | internal/controllers/nodefeaturediscovery_reconciler.go:225-240 | in every run, a call of the controller changes nothing of the stored CR but the conditions (status handler) or, by a finalizer call that the server takes, spec and finalizers to the snapshot's, with the operator's finalizer added at the end or gone; from a current copy uid, spec and the finalizers of others stay, in order and number, and the CR goes away only if nobody else's are on it |
| Effects.PublishedIsFresh | internal/status/status.go:257-353 | what the status handler publishes was computed at the time of its last read and from what that returned |
| Effects.OnlyItsOwnObject | internal/controllers/nodefeaturediscovery_reconciler.go:200-223 | a call changes at most the object it is about; a creation touches no object that is there, a patch makes none, the reported health stays, the owner becomes this CR or stays, and an object that is as it was read ends up as the CR wants it |
| Effects.WokenExactly | internal/controllers/nodefeaturediscovery_reconciler.go:64-98 | in every run, a move queues the CR iff it changes the CR, changes an object into one that an NFD CR controls, deletes one, or ends a Reconcile with an error; a creation does not |
| Safety.Reachable | internal/controllers/nodefeaturediscovery_reconciler.go:112-160 | every state of every run satisfies the safety invariant (who may own components, what a teardown has passed, finalizer count), in stronger form for runs that obey the named rules |
| Safety.OnlyTeardownDrops | internal/controllers/nodefeaturediscovery_reconciler.go:229-240 | no move but the last call of a teardown takes the finalizer off the stored CR |
| Safety.TeardownSafety | internal/controllers/nodefeaturediscovery_reconciler.go:116-131 | in every run, at the move that drops the finalizer: the Reconcile saw the deletion, everything its snapshot asks to remove is not under NFD control, and absent unless outsiders create objects; with pruning, the job it found had succeeded and not failed |
| Safety.OrphanFreedom | internal/controllers/nodefeaturediscovery_reconciler.go:133-160 | a component controlled by an NFD CR has that CR alive and holding the finalizer, also when deletion falls into a creating Reconcile; topology included while it is never switched off |
| Safety.NothingPresentWithoutCr | internal/controllers/nodefeaturediscovery_reconciler.go:116-131 | from a namespace without components, if nobody else creates any, a vanished CR leaves none at all but the topology updater's, stripped references included |
| Orphans.OrphanExactly | internal/controllers/nodefeaturediscovery_reconciler.go:200-223 | in every run, with faults, retries and restarts, in which outsiders neither switch the updater nor delete its DaemonSet nor strip its reference (`TopologyStaysOwned`): when the finalizer of a CR comes off, something under NFD control is left iff, when its teardown began, the updater was off and its DaemonSet there, and then only this DaemonSet |
| Safety.FinalizerAtMostOnce | internal/controllers/nodefeaturediscovery_reconciler.go:133-136 | in every reachable state the finalizer occurs at most once |
| Prune.PruneAfterTeardown | internal/controllers/nodefeaturediscovery_reconciler.go:116-131 | the operator creates the prune job only when all it was asked to remove is gone, with the snapshot's image, the CR as owner, and no pod counted yet |
| Prune.OnePruneJob | internal/controllers/nodefeaturediscovery_reconciler.go:319-334 | two moves of a run that both create the prune job are the same move, unless somebody deletes the job |
| Prune.FailedPruneBlocksExactly | internal/controllers/nodefeaturediscovery_reconciler.go:336-347 | while the job shows a failure, whatever successes it counts, and pruning stays asked for, some run takes the finalizer off iff a teardown of this CR is under way that has passed the job or whose snapshot did not ask for pruning |
| Prune.OwnJobExactly | internal/controllers/nodefeaturediscovery_reconciler.go:324-335 | at the drop after pruning, a job found with a reference to the CR was started for it in this run; unless others strip references or delete the job, one was started iff the job found has the reference |
| Safety.DependencyOrder | internal/controllers/nodefeaturediscovery_reconciler.go:257-284 | without outside deletions, in every reachable state the operator's worker DaemonSet has the ConfigMap it mounts; without outside creations too, every worker DaemonSet does, stripped ones included |
| Convergence.FaultIsolation | internal/controllers/nodefeaturediscovery_reconciler.go:138-159 | for every pattern of failing calls all five handlers run, the Reconcile fails iff one of them did, and each handler that returned without error leaves its objects as the CR wants them |
| Convergence.EndShape | internal/controllers/nodefeaturediscovery_reconciler.go:155-159 | a converging Reconcile ends in its status handler only, with an error iff one of the five handlers had one |
| Wakeup.NoLostWakeup | internal/controllers/nodefeaturediscovery_reconciler.go:64-98 | in every run in which outsiders leave controller references alone, an idle operator with an empty queue has a live CR with finalizer and all requested components in place, and nothing left to do iff its conditions tell of no unreadable component; a deleting CR torn down, which waits only with pruning asked for, and for an unfinished job unless the job is missing or somebody else's; nothing left to do at all if status reads succeed, or nobody else makes a prune job |
| Silence.NoSelfTriggering | internal/controllers/nodefeaturediscovery_reconciler.go:78-89 | from any state with a live CR whose components nobody else controls, idle or with a Reconcile of any snapshot under way, an undisturbed controller starts at most three Reconciles, makes at most 116 moves, can move as long as it is not at rest, and has converged when it rests after a start |
| Silence.SilenceAfterAnyRun | internal/controllers/nodefeaturediscovery_reconciler.go:78-89 | the same from the end of any run in which outsiders leave controller references alone; at rest the CR has converged iff its conditions tell of no unreadable component, and always after a start |
| Silence.ComesToRest | internal/controllers/nodefeaturediscovery_reconciler.go:112-160 | from every such state an undisturbed run to rest exists |
| Repair.RepairExactly | internal/controllers/nodefeaturediscovery_reconciler.go:242-317 | whatever was stored, at the end of an undisturbed Reconcile a requested object is what the CR asks for iff no other controller owns it (for the worker DaemonSet: nor the ConfigMap, unless it was in place before); objects out of reach are untouched |
| Repair.HistoryIsForgotten | internal/controllers/nodefeaturediscovery_reconciler.go:242-317 | two clusters of any histories, repaired for the same CR, agree on labels (except the ConfigMap's own), content and owner of every requested object within reach |
| Quiet.RepeatingChangesNothing | internal/controllers/nodefeaturediscovery_reconciler.go:350-358 | once converged, further Reconciles alter no stored object and wake nobody, although each computes new timestamps |
| Teardown.NeverGrows | internal/controllers/nodefeaturediscovery_reconciler.go:116-131 | with the spec fixed, the lexicographic measure (components left, job not started, finalizer held) never grows under faults, restarts and the named outsiders |
| Teardown.EveryReconcileProgresses | internal/controllers/nodefeaturediscovery_reconciler.go:200-240 | a teardown that ends without error leaves strictly less than there was when it read the CR, unless nothing was left then, or nothing but to wait for a started and unfinished job |
| TeardownAlone.TwoReconcilesSuffice | internal/controllers/nodefeaturediscovery_reconciler.go:116-131 | from any state of a deletion, with a Reconcile of any snapshot under way or none: left alone, it starts at most two Reconciles, and has finished or waits for its job when it rests after one, unless pruning is asked for and the job failed; with that, and a look at the job to come, it never rests |
| TeardownAlone.ComesToRestExactly | internal/controllers/nodefeaturediscovery_reconciler.go:116-131 | left alone, a deletion can come to rest iff pruning is off or the job has not failed; for every state in which the failure is no matter or a look at the job is to come |
| TeardownAlone.RestIsDecidedByTheEnd | internal/controllers/nodefeaturediscovery_reconciler.go:116-131 | in every other state too, it can come to rest iff the Reconcile under way can end with no entry queued or with one that does not get stuck |
| Teardown.EndsWellMeansNoError | internal/controllers/nodefeaturediscovery_reconciler.go:117-130 | every other end of a teardown is an error and queues the CR again |
| Limits.TopologyCanBeOrphaned | internal/controllers/nodefeaturediscovery_reconciler.go:211-216 | a run from an empty namespace after which the CR is gone and its topology DaemonSet is not |
| Limits.StrippedReferenceExactly | internal/controllers/nodefeaturediscovery_reconciler.go:82-97 | a real change to a requested object of a converged cluster wakes the operator or leaves nothing to do iff the new object is controlled by a NodeFeatureDiscovery |
| Limits.StrippedReferenceIsNotRepaired | internal/controllers/nodefeaturediscovery_reconciler.go:91-98 | a run that ends at rest with the worker DaemonSet overwritten |
| Limits.ForeignJobExactly | internal/controllers/nodefeaturediscovery_reconciler.go:82-97 | the end of the prune job is noticed iff the job is controlled by a NodeFeatureDiscovery |
| Limits.ForeignJobIsNotNoticed | internal/controllers/nodefeaturediscovery_reconciler.go:324-347 | a run that ends at rest, with the CR waiting and the foreign job finished |
| Limits.ForeignJobIsTaken | internal/controllers/nodefeaturediscovery_reconciler.go:336-347 | a run in which a foreign job that has succeeded lets the finalizer go |
| Limits.FailureComesTooLate | internal/controllers/nodefeaturediscovery_reconciler.go:122-130 | a run in which the finalizer comes off with pruning asked for and the job failed |
| Limits.FailedProbeExactly | internal/controllers/nodefeaturediscovery_reconciler.go:350-354 | from the invariant of every run that leaves references alone, earlier failures included: a failed read behind the status, in a Reconcile that nothing else makes come back, loses a wake-up iff the stored conditions already tell of that failure |
| Limits.WrongStatusCanStay | internal/status/status.go:182-185 | a run that ends at rest with every component in place and the stored conditions wrong |
| Ownership.SetReferenceExactly | internal/deployment/deployment.go:99 | setting the controller reference fails iff another controller is there; when it succeeds the CR is the controller, and the only one iff the stated condition on the list holds |
| Ownership.UpsertKeepsOthers | internal/deployment/deployment.go:99 | references to other owners stay, in their order |
| Ownership.TwoControllers | internal/deployment/deployment.go:136 | a list with one controller for which the result has two |
| Ownership.OwnerIsFaithful | internal/controllers/nodefeaturediscovery_reconciler.go:91-98 | the protocol's view of an owner agrees with the reference list about who can take over and what is under this CR's control; the watch filter lets through exactly that and what a NodeFeatureDiscovery of another name controls |
| Ownership.MergeIsFaithful | internal/configmap/configmap.go:51-56 | the protocol's rule for the owner after a merge patch is that of the patched reference list |
| Ownership.SetOnUnrepeated | internal/configmap/configmap.go:51-56 | on a list that names no owner twice, the CR ends up as the only controller, and the list is unchanged iff it was already |
| Ownership.CreatedIsOwned | internal/job/job.go:64-106 | in every history, a component or prune job that the operator creates has the CR it was created for, by name and uid, as its only controller |
| Ownership.OwnerNeverChanges | internal/daemonset/daemonset.go:269 | in every history of calls of many CRs' Reconciles, with faults and outsiders between the read and the write of a create-or-patch, a component or prune job that a CR controls has the CR of that name as its only controller, and keeps it while it exists |
| Ownership.UidNeverChangesExactly | internal/daemonset/daemonset.go:88 | by uid, the owner stays the same at every moment of such a history iff no write lands for a CR created again under the same name |
| Ownership.TakenOverByNamesake | internal/daemonset/daemonset.go:88 | a history in which an object left behind is taken over by the next CR of that name |
| Ownership.ContentIsTheOwners | internal/controllers/nodefeaturediscovery_reconciler.go:242-317 | in every such history, other CRs' Reconciles leave an owned object as it is, references included |
| Ownership.TeardownIgnoresOwner | internal/controllers/nodefeaturediscovery_reconciler.go:200-223 | another CR cannot change an owned object by ensuring it, but can take it away by being deleted |
| Status.FirstProblemShows | internal/status/status.go:93-118 | the first component with a problem, in the order worker, master, gc and then topology if enabled, decides the whole list |
| Status.ConditionsTellTheFirstProblem | internal/status/status.go:93-118 | for every cluster: four distinct types, exactly one of Available, Progressing and Degraded, Upgradeable iff Available, Available iff every required component is ready, otherwise the true condition names the first one that is not, with the kind and message that its reading warrants; the others say that they are not met |
| Status.ProblemIsWarranted | internal/status/status.go:234-255 | kind and message told from the reading alone: the error's text; degraded for 0 desired, 0 scheduled or 0 available pods, each with its message; progressing iff pods are scheduled and not as many ready as desired, and never for a Deployment |
| Status.ReasonDecodes | internal/status/status.go:157-232 | the twelve reasons can be told apart |
| Status.CompareConditions | internal/status/status.go:120-134 | the scan that stops at the first difference decides first-match inclusion up to timestamps |
| Status.FindReturnsFirst | internal/status/status.go:122 | what is found is the first entry of the type; nothing is found iff there is none |
| Status.EqualIsTransitive | internal/status/status.go:120-134 | the comparison is transitive on all lists |
| Status.ReflexiveExactly | internal/status/status.go:120-134 | it is reflexive iff entries of one type all say the same |
| Status.OneDirectionOnly | internal/status/status.go:120-134 | a condition of a further type in the stored list is not noticed, in the new list it is |
| Status.OtherDirectionExactly | internal/status/status.go:120-134 | for a stored list without contradictions that answers the new one, the comparison holds the other way round iff the new list has every type of the stored one |
| Status.EqualOnOutputs | internal/status/status.go:257-353 | on outputs of GetConditions the comparison is equality of the lists without timestamps, hence an equivalence |
| Status.TimeIsIgnored | internal/status/status.go:126-131 | when a list was computed does not matter to the comparison |
| StatusHistory.WritesAreChanges | internal/controllers/nodefeaturediscovery_reconciler.go:350-358 | from an empty list, the number of patches equals the number of changes of the report, and what is stored, timestamps included, dates from the last change |
| StatusHistory.WritesOfTheHandler | internal/status/status.go:93-134 | this covers every sequence of clusters at whatever times |
| MasterArgs.GetArgs | internal/deployment/deployment.go:216-239 | the growing slice is the list specified by Args |
| MasterArgs.DecodeArgs | internal/deployment/deployment.go:216-239 | what a reader of the command line gets back, for every spec |
| MasterArgs.RoundTripExactly | internal/deployment/deployment.go:216-239 | decoding gives back the settings, port 0 read as 12000 and a whitelist without a visible character as none, for lists of any length, iff no label contains a comma |
| Text.BlankExactly | internal/deployment/deployment.go:230 | a whitelist is dropped iff it has no visible character; letters and digits are visible |
| MasterArgs.ArgsAreInjective | internal/deployment/deployment.go:216-239 | comma-free specs run the same command line iff their normalised settings agree |
| MasterArgs.CommaIsLost | internal/deployment/deployment.go:223-228 | two specs with different settings and the same command line |
| Finalizers.FilterFinalizers | internal/controllers/nodefeaturediscovery_reconciler.go:234-240 | the loop drops every occurrence and reports whether there was one |
| Finalizers.WithoutKeepsOthers | internal/controllers/nodefeaturediscovery_reconciler.go:235 | the other finalizers stay, each as often as before |
| Finalizers.WithoutAppend | internal/controllers/nodefeaturediscovery_reconciler.go:235 | and in their order |
| Finalizers.SetThenRemove | internal/controllers/nodefeaturediscovery_reconciler.go:229-240 | setting and then removing gives back the original list |
| Desired.SettingsReadBack | internal/daemonset/worker.go:227-236 | image, pull policy, arguments, tolerations, variables and worker configuration can be read off every object that is in place, behind the fixed entries, for lists of any length; which labels it has and who controls it |
| Desired.SameWishExactly | internal/daemonset/daemonset.go:236-270 | two CRs want the same of an object iff their settings for this object agree, whatever they say about others |
| Desired.DesiredIsStable | internal/daemonset/daemonset.go:55-89 | filling in again changes nothing; the reported health stays, and the ConfigMap keeps its own labels |
| Components.SetMasterDeploymentAsDesired | internal/deployment/deployment.go:61-100 | succeeds iff no other controller owns the object; then labels, content and owner are the desired ones and the rest is kept |
| Components.SetGCDeploymentAsDesired | internal/deployment/deployment.go:102-137 | the same for the garbage collector |
| Components.SetWorkerDaemonsetAsDesired | internal/daemonset/daemonset.go:236-270 | the same for the worker |
| Components.SetTopologyDaemonsetAsDesired | internal/daemonset/daemonset.go:55-89 | the same for the topology updater |
| Components.SetWorkerConfigMapAsDesired | internal/configmap/configmap.go:51-56 | the same for the worker's configuration, whose labels stay |
| Reconciler.Controller.CreateOrPatch | internal/controllers/nodefeaturediscovery_reconciler.go:246-248 | read, fill in, write if different: the calls extend a run by the protocol's read and write moves |
| Reconciler.Controller.HandleMaster | internal/controllers/nodefeaturediscovery_reconciler.go:242-255 | extends the run to the worker handler, with the error it returns |
| Reconciler.Controller.HandleWorker | internal/controllers/nodefeaturediscovery_reconciler.go:257-284 | extends the run through ConfigMap and DaemonSet, stopping at the first error |
| Reconciler.Controller.HandleTopology | internal/controllers/nodefeaturediscovery_reconciler.go:286-302 | makes no call and changes nothing unless the topology updater is asked for |
| Reconciler.Controller.HandleGC | internal/controllers/nodefeaturediscovery_reconciler.go:304-317 | extends the run to the status handler |
| Reconciler.Controller.GetConditions | internal/status/status.go:93-118 | the reads made one by one lead to the comparison of the conditions returned |
| Reconciler.Controller.GetNotAvailableConditions | internal/status/status.go:175-232 | one read, which ends the computation or moves to the next component |
| Reconciler.Controller.HandleStatus | internal/controllers/nodefeaturediscovery_reconciler.go:350-358 | patches iff the snapshot's conditions say something else, and ends the Reconcile with an error iff another handler had one or the patch failed |
| Reconciler.Controller.DeleteComponent | internal/daemonset/daemonset.go:91-103 | deletes by name; that the object is gone already is no error |
| Reconciler.Controller.FinalizeComponents | internal/controllers/nodefeaturediscovery_reconciler.go:200-223 | removes in the protocol's order and stops at the first error |
| Reconciler.Controller.FindPruneJob | internal/job/job.go:54-62 | wraps the error so that a missing job is still recognised |
| Reconciler.Controller.HandlePrune | internal/controllers/nodefeaturediscovery_reconciler.go:319-348 | creates the job iff it is missing, fails if the job has failed even when it also succeeded, and says it is done iff pruning is off or the job read has succeeded, also beside that error |
| Reconciler.Controller.SetFinalizer | internal/controllers/nodefeaturediscovery_reconciler.go:229-232 | appends and updates, which ends the Reconcile; the error is none iff the update was taken and reported so, as it is for a current copy without fault |
| Reconciler.Controller.RemoveFinalizer | internal/controllers/nodefeaturediscovery_reconciler.go:234-240 | filters, and updates iff something was dropped; the error is none iff nothing was or the update was taken and reported so |
| Reconciler.Controller.ReconcileDeleted | internal/controllers/nodefeaturediscovery_reconciler.go:116-131 | a teardown is a run of the protocol that ends idle, queued again iff an error is returned |
| Reconciler.Controller.ReconcileLive | internal/controllers/nodefeaturediscovery_reconciler.go:138-159 | the five handlers are such a run, and the joined error is there iff one of theirs is |
| Reconciler.Controller.Reconcile | internal/controllers/nodefeaturediscovery_reconciler.go:112-160 | so is every Reconcile; it returns an error iff its last call or an earlier handler is one (`Effects.ReturnsError`) |
| Reconciler.Controller.ProcessNextWorkItem | internal/controllers/nodefeaturediscovery_reconciler.go:64-76 | taking an entry, reconciling and queueing again on an error is a run that begins with a start |
| Reconciler.Join | internal/controllers/nodefeaturediscovery_reconciler.go:159 | the joined error is nil iff every error is |
| Reconciler.PresentAll | internal/controllers/nodefeaturediscovery_reconciler.go:159 | it holds the errors of all handlers, in their order |
| Reconciler.CodeLeavesNoOrphans | internal/controllers/nodefeaturediscovery_reconciler.go:112-160 | whatever the methods have done, a vanished CR leaves no controlled component and the finalizer occurs at most once |
| Reconciler.CodeLosesNoWakeup | internal/controllers/nodefeaturediscovery_reconciler.go:64-98 | what NoLostWakeup says of an operator at rest with an empty queue, for the state that the methods have reached |
| DeepCopy.CopySlice | api/v1/zz_generated.deepcopy.go:108-117 | nil stays nil, otherwise equal contents in new memory |
| DeepCopy.NodeFeatureDiscovery.OperandDeepCopyInto | api/v1/zz_generated.deepcopy.go:154-184 | the operand part becomes equal, with slices of its own |
| DeepCopy.NodeFeatureDiscovery.SpecDeepCopyInto | api/v1/zz_generated.deepcopy.go:105-119 | the same for the whole spec |
| DeepCopy.NodeFeatureDiscovery.DeepCopyInto | api/v1/zz_generated.deepcopy.go:46-52 | metadata, spec and conditions become equal, with slices of their own |
| DeepCopy.NodeFeatureDiscovery.DeepCopy | api/v1/zz_generated.deepcopy.go:55-62 | an equal object, nil slices included, that shares no memory with the original |
| DeepCopy.CopyOutlivesChanges | api/v1/zz_generated.deepcopy.go:132-141 | no change to memory that existed before the copy alters the copy |
| DeepCopy.StatusPatch | internal/controllers/nodefeaturediscovery_reconciler.go:355-357 | the patch carries the conditions and nothing else, and on any stored object it changes nothing else |

## Left out

- main.go, flags, logging, leader election, health checks and manager wiring: no property of the protocol depends on them.
- Watches and the rate-limited queue: one pending flag, set by the watch rules; delays are not modelled.
- Components.SetMasterDeploymentAsDesired: does not spell out the fixed pod content (replicas, selector, affinity, probes, ports, security context); the application name in `Body` stands for it, because it is finite data that depends on nothing.
- Components.SetGCDeploymentAsDesired: the same for the garbage collector.
- Components.SetWorkerDaemonsetAsDesired: the same for volumes, affinity and security context of the worker.
- Components.SetTopologyDaemonsetAsDesired: the same for volumes and security context of the topology updater.
- Kubernetes' own garbage collection by owner references: it would only remove more; the deletion of the prune job after the CR is among the moves of outsiders.
- Stale caches: reads are fresh.
- Resource versions: an update from an outdated copy may be accepted or refused, both are covered.
- Defaulting by the API server: a stored object is as it was written.
- The content of a merge patch on an object that changed since it was read: labels and content may come out in any mixture, the owner follows the patch.
- OperandSpec.ImagePolicy and the Instance field: not used by the modelled code.
- Wall-clock time and exact error texts: time is an arbitrary number, an error has a kind and an opaque message.
- Pointers inside tolerations and environment variables, and the metadata other than uid, deletion timestamp and finalizers: copied by the library's own functions.
- DeepCopy of a nil receiver, and the list type's copy functions: they add only the nil check and one more loop.
- Spare capacity of Go slices: an append makes a new list.
- Reconciler.Controller.ProcessNextWorkItem: does not model a restart in the middle of a Reconcile; restarts are moves of the protocol, where all theorems include them.
- Reconciler.Controller.HandleStatus: assigns the computed conditions as a value; copies and aliasing of the patch base are modelled by DeepCopy.StatusPatch.
- Ownership.OwnerNeverChanges: does not cover outsiders who change the controller of an object or write lists that name an owner twice (the server refuses two controllers); two CRs' calls interleave only between Reconciles, because one worker serves them all.
- Silence.NoSelfTriggering: does not cover components held by another controller; such a Reconcile returns an error and is repeated by design.
- DeepCopy.SharedSliceShowsChanges: illustrates why the slices are copied; the source makes no such copy.
- Wakeup.NoLostWakeup: asks that outsiders leave controller references alone; Limits.StrippedReferenceExactly says what happens otherwise.
- Prune.FailedPruneBlocksExactly: does not model resource versions; an update from an outdated copy counts as possible, so a server that refuses it blocks more.
