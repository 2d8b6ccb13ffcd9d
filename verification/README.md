# Verified model of the octorun controllers

octorun is a Kubernetes operator that keeps sets of self-hosted GitHub Actions runners. This project models its three
state machines and its runner index over an abstract object store (maps from name to object) and proves what they keep,
on single calls and over whole runs.

- **Revision history** (`Revisions`, `History`, `HistoryProperties`, `Truncation`): a RunnerSet's template is stored as
  ControllerRevisions. MakeHistory sorts the stored ones and reuses the latest, renumbers an older equal one, or creates
  a new one, then moves the owner's pointers; TruncateHistory deletes old revisions nothing refers to.
- **The RunnerSet's runners** (`Fleet`, `FleetProperties`): findRunners adopts orphans, drops complete and outdated idle
  runners and counts the rest; syncRunners creates what is missing or deletes the surplus, Active runners last. Runners
  with finalizers stay listed while they terminate.
- **Whole reconcile passes** (`Reconcile`, `RunnerSetController`): both together with the pointer update, the
  truncation and the deferred status write, over any run of passes and interference. `RunnerSetController` holds the
  reconciler as classes with fields, loops and an in-place sort; each method is proved against the functions and
  relations of the other modules, for which the properties are proved.
- **The Runner lifecycle** (`RunnerLifecycle`, `RunnerController`): the phase machine driven by pod and GitHub state, and
  the deletion protocol with its finalizer, with every answer from outside a parameter. `RunnerController` is its
  imperative form.
- **The runner index and the event hook** (`Base64`, `CompositeIndex`, `GithubHooks`): the formatted, base64-encoded key
  that stands in for a comparison of four fields, and the handling of workflow job events. `Strings` holds byte-wise
  order and decimal text.

The environment is never fixed: API answers, creation times, listing orders, the outcome of the unstable sort, the
names the server generates and everything GitHub says are arbitrary unless a lemma states a condition on them.
The hash of a revision is a parameter `h` of every operation; where a property needs hashes to tell data apart it says so.

Where the code is not what its documentation suggests, the model follows the code:

- The status field's comment presents the collision count as a way around colliding names
  (api/v1alpha2/runnerset_types.go:107-111). The create loop bumps it but never derives the name again, so on a clash no
  iteration ends the loop (`History.CreateLoopEnds`). `History.IntendedSchemeTerminates` is about the documented scheme.
- A first call hashes with no count and stores 0, and the next call hashes with 0, so a template can be stored twice
  (`HistoryProperties.NilProbeDuplicates`). From creation on, no run stores data twice exactly when no template's two hash
  labels parse as different numbers (`HistoryProperties.UniqueFromCreationExactly`), and a first pass settles the history
  exactly when its own template's labels do not (`Reconcile.FirstRevisionRepeatsExactly`).
- A conflict on the renumbering update is retried, but the retry returns success without an update: the store keeps the
  old number and the call returns the new one (`HistoryProperties.RollbackOutcome`, `HistoryProperties.LostUpdateHappens`).
- TruncateHistory deletes from the front of an unsorted list (`Truncation.UnsortedDeletesNewer`). The oldest go first at
  every limit exactly when the unreferenced revisions happen to be listed in ascending order (`Truncation.OldestGoFirst`).
- The selector is checked against the template's labels when a RunnerSet is created but not when its template is edited
  (webhooks/runnerset_webhook.go:96-98, 107-136). A revision of a template that does not match is never listed again. A
  fresh owner's second call then dereferences nil (`HistoryProperties.MismatchFailsSecondCall`). An updated owner is safe
  as long as its current revision stays on a listed one; the call dereferences nil exactly once the pointer has moved to
  the unlisted revision (`Reconcile.UnlistedCurrentFails`, `Reconcile.MismatchingEditFails`), which does happen
  (`Reconcile.MismatchingEditStrands`).
- The update strategy can be edited at any time. Switching rolling updates off breaks the link from runners to stored
  revisions exactly when an idle runner under deletion has lost its revision (`Reconcile.SwitchingOffExactly`,
  `Reconcile.SwitchingOffBreaksLabels`); the pointers are not affected (`Reconcile.PointersNeverDangle`).
- A failed status write after a truncation can leave the persisted current revision dangling
  (`Reconcile.LostStatusWriteHappens`). It does exactly when the pass succeeded up to there, every runner it kept carries
  the new label, and the old revision is among the first unreferenced ones listed (`Reconcile.LostStatusWrite`).
- The user documentation shows a straight line from Idle to Active to Complete (docs/tasks/runner.md:100). Every pass
  resets the phase to Pending first, and a pass that then fails persists that (`RunnerLifecycle.ResetToPending`), which
  can cost a busy runner its pod (`RunnerLifecycle.BusyRunnerLosesPod`).

## Model

| member | source | states |
|---|---|---|
| Revisions.NameInjective | pkg/revision/util.go:34-42 | for one owner, names are equal exactly when hashes are, and a short hash keeps the name within 253 characters |
| Revisions.NameOfParts | pkg/revision/util.go:34-42 | a prefix of up to 223 characters is taken whole, a longer one cut there |
| Strings.LessAtDifference | pkg/revision/util.go:155 | a string is smaller exactly when it is a proper prefix or smaller at the first difference |
| Revisions.RevisionLessByKeys | pkg/revision/util.go:152-161 | a lower number comes first, then an earlier creation, then the smaller name |
| Revisions.RevisionLessStrict | pkg/revision/util.go:152-161 | the three-level order is irreflexive, transitive and asymmetric |
| Revisions.RevisionLessTotal | pkg/revision/util.go:152-161 | revisions with different names are always comparable |
| Revisions.SortedUnique | pkg/revision/revision.go:73 | two ascending listings of the same revisions are the same list, so no outcome depends on listing order |
| Revisions.LastIsGreatest | pkg/revision/revision.go:82 | the last element of a sorted listing is a maximum of the whole set |
| Slices.Swap | pkg/revision/util.go:151 | exchanges two elements in place and nothing else |
| Revisions.SortStable | pkg/revision/revision.go:73 | sorts the slice in place: ascending, a permutation, names stay distinct |
| Revisions.IsEqualChain | pkg/revision/util.go:85-112 | along a chain of equal revisions the raw data agree; the ends are equal exactly when their labels do not clash, and always if the middle label parses |
| Revisions.IsEqualNotTransitive | pkg/revision/util.go:85-112 | concrete revisions on which equality is not transitive |
| Revisions.FindEqual | pkg/revision/util.go:71-81 | returns exactly the equal revisions, in the order of the list |
| Revisions.EqualsSorted | pkg/revision/util.go:71-72 | filtering a sorted listing leaves it sorted |
| Strings.ParseItoa | pkg/revision/util.go:91-105 | decimal text reads back as the number it was written from, and in 32 bits exactly when that fits |
| Strings.ParseExamples | pkg/revision/util.go:91-105 | signs and leading zeros are read, anything else is no number |
| Revisions.LabelHashWraps | pkg/revision/util.go:91-105 | a negative label wraps around to 32 bits without a sign, one out of range is none |
| History.MatchesItems | controllers/runnerset_controller.go:336-345 | a label set matches exactly when it holds every entry of the selector, key and value |
| History.DecideFits | pkg/revision/revision.go:75-138 | which branch is taken: reuse means the greatest revision has the template's data and equals one that equals the template; rollback means the greatest of the equal ones, which is not the greatest of all; create means none is equal; a new number is one above the highest, or 1 |
| History.ReuseGreatest | pkg/revision/revision.go:82-84 | if the greatest stored revision equals the template it is the one reused |
| History.CreateLoopEnds | pkg/revision/revision.go:112-137 | without a clash the loop ends in its first iteration with the template's data stored; with one no iteration ends it and only the count grows |
| History.CreateLoopStored | pkg/revision/revision.go:112-137 | under any API answers, a loop that ends has stored or found exactly the template's data and left the count alone |
| History.CreateLoopOutcome | pkg/revision/revision.go:112-137 | how the loop comes out for any answers: refused, stored or still colliding |
| History.IntendedSchemeTerminates | api/v1alpha2/runnerset_types.go:107-111 | deriving the name again from each bumped count finds a free one within (stored revisions + 1) tries when names are injective in the count |
| HistoryProperties.MadeRevision | pkg/revision/revision.go:73-153 | on success the result has the template's data in all three branches, is the greatest stored revision, and has a strictly larger number than all others if anything was written; the exception is an update lost to a conflict, which leaves the store as it was |
| HistoryProperties.PlanSettles | pkg/revision/revision.go:82-138 | the same for each branch on its own, for any API answers |
| HistoryProperties.PutGreatest | pkg/revision/revision.go:94-99 | storing a listed revision with a number above all others makes it the greatest |
| HistoryProperties.WriteDecides | pkg/revision/revision.go:80-84 | after a write that was not lost, the next decision is to reuse what was written |
| HistoryProperties.Idempotent | pkg/revision/revision.go:80-84 | once the count is stored and unless an update was lost, a second call with nothing changed takes the reuse branch, writes nothing and returns the same revision and pointers |
| HistoryProperties.FailsExactly | pkg/revision/revision.go:112-150 | with a co-operative API the call spins exactly on a clashing new name, dereferences nil exactly on a current revision missing from the list, and succeeds exactly otherwise |
| HistoryProperties.NilControllerExactly | controllers/runnerset_controller.go:349-356 | a missing controller is dereferenced exactly when some revision with all the selector's labels has none |
| HistoryProperties.ReuseOutcome | pkg/revision/revision.go:82-84 | reusing writes nothing and cannot be refused |
| HistoryProperties.RollbackOutcome | pkg/revision/revision.go:85-111 | a rollback is rejected exactly when its update fails; on a conflict it returns the revision under the new number with the store unchanged |
| HistoryProperties.LostUpdateHappens | pkg/revision/revision.go:89-108 | a store and a template for which it does |
| HistoryProperties.CreateOutcome | pkg/revision/revision.go:112-137 | a create is decided by the first answer, or under a clash goes on until an answer is not acceptance |
| HistoryProperties.MismatchFailsSecondCall | controllers/runnerset_controller.go:336-359 | a fresh owner's second call dereferences nil exactly when its selector does not match its template's labels |
| HistoryProperties.NilProbeDuplicates | pkg/revision/util.go:64-66 | a fresh owner without a count gets two revisions of one template exactly when the two hash labels parse to different numbers |
| HistoryProperties.NilProbeDuplicatesHappen | pkg/revision/revision.go:72-152 | hashes and an owner for which it does |
| HistoryProperties.CallWrites | pkg/revision/revision.go:59-155 | whatever the outcome, a call renumbers one listed revision, or creates the template's own under a free name if no listed one equals it, or writes nothing; it never changes an existing count |
| HistoryProperties.WrittenRevision | controllers/runnerset_controller.go:298-334 | every field of a revision a call stores: name and label from the hash, the template's labels and data, the owner as controller, the next number; and that renumbering changes the number only |
| HistoryProperties.UniqueDataOnRuns | pkg/revision/revision.go:80-138 | with a stored count and revisions named by their data, or first ones from before the count whose labels do not clash, no run of edits, calls and deletions makes the owner control two stored revisions with the same data |
| HistoryProperties.UniqueFromCreationExactly | pkg/revision/revision.go:59-155 | for an owner from creation on, edited to matching templates only, that holds on every run exactly when no template's label without a count clashes with its label under 0 |
| HistoryProperties.RevertTakesStored | pkg/revision/revision.go:80-111 | at the end of any run, a successful call on a template whose revision is stored returns that very revision: unchanged if it is the greatest, else under a number above all others |
| HistoryProperties.NoCollisionInPool | pkg/revision/revision.go:113-130 | with hashes that tell the templates in use apart and no foreign revision under the owner's names, a call never collides |
| Truncation.TruncateIsSafe | pkg/revision/revision.go:158-205 | nothing referenced goes and nothing else changes, for every limit and however many deletes fail |
| Truncation.TruncateExactly | pkg/revision/revision.go:191-202 | of h unreferenced revisions exactly max(0, h - limit) go, and only such |
| Truncation.TruncateCounts | pkg/revision/revision.go:158-205 | in terms of pointers and runner labels alone: how many revisions go for every limit and number of successful deletes, and when the call fails or slices out of range |
| Truncation.OldestFirstAtLimit | pkg/revision/revision.go:191-202 | at one limit, every deleted revision is older than every unreferenced one that stays exactly when the cut separates older from newer |
| Truncation.OldestGoFirst | pkg/revision/revision.go:158-202 | that holds at every limit exactly when the unreferenced revisions are listed in ascending order |
| Truncation.BoundedHistory | pkg/revision/revision.go:158-205 | at most limit + 2 + (distinct runner labels) of the owner's revisions remain |
| Truncation.UnsortedDeletesNewer | pkg/revision/revision.go:159-202 | a listing on which the newer revision is deleted and the older one kept |
| Fleet.CountPermutation | controllers/runnerset_controller.go:227 | reordering the slice changes no count |
| Fleet.SortedPrefix | util/sortable/sortable.go:35-49 | a prefix of any sorted slice takes the runners of high priority first |
| Fleet.ChosenBelow | controllers/runnerset_controller.go:220-229 | how many runners below a priority the chosen prefix holds, for every sorted permutation |
| Fleet.ScaleDownMarksExactly | controllers/runnerset_controller.go:218-288 | exactly max(0, live - desired) live runners are chosen, however many are already terminating |
| FleetProperties.ScaleDownMarks | controllers/runnerset_controller.go:218-288 | in the store, only chosen live runners are newly deleted or marked, and with deletes accepted exactly max(0, live - desired) |
| Fleet.ScaleDownSparesActive | controllers/runnerset_controller.go:220-232 | exactly max(0, active - desired) live Active runners are chosen, and none while any other runner is left |
| FleetProperties.RetainedExactly | controllers/runnerset_controller.go:150-190 | the returned slice holds exactly the runners that are neither foreign, nor unadoptable, nor rolled, nor complete, each once |
| FleetProperties.KeptInStore | controllers/runnerset_controller.go:150-195 | every returned runner is in the store as returned, under this controller |
| FleetProperties.IdlePlusActive | controllers/runnerset_controller.go:192-194 | the idle and active counts together never exceed the number of runners |
| FleetProperties.StoreAfterFind | controllers/runnerset_controller.go:150-190 | what findRunners leaves of every runner: selected ones it controls or adopts get the controller, and are removed or marked where it drops them and the delete is accepted |
| FleetProperties.RetainedNames | controllers/runnerset_controller.go:150-190 | which runners the slice holds, by controller, labels and phase |
| FleetProperties.StoreAfterSync | controllers/runnerset_controller.go:273-287 | the first runners of the slice, and no others, are removed or marked where the delete is accepted |
| FleetProperties.BirthsOfPass | controllers/runnerset_controller.go:237-270 | what is created: the template's labels and the revision's, this controller, one runner for each accepted call |
| FleetProperties.FailureOfPass | controllers/runnerset_controller.go:236-287 | syncRunners reports an error exactly when a create or delete it sends is refused |
| FleetProperties.PassRespectsOwners | controllers/runnerset_controller.go:155-162 | a pass sets a controller only where there was none, changes none, deletes only runners it controls or has just adopted, and edits nothing else |
| FleetProperties.ControllerNeverChanges | controllers/runnerset_controller.go:198-216 | with any number of RunnerSets and any order of passes, a runner keeps the first controller it gets |
| FleetProperties.PassCounts | controllers/runnerset_controller.go:218-288 | a pass changes the number of available runners by exactly what is missing or live in surplus |
| FleetProperties.PassKeepsFloor | controllers/runnerset_controller.go:138-288 | a pass never takes the available count below min(before, desired), whatever calls are refused |
| FleetProperties.FinalizerCompletion | controllers/runner_controller.go:163 | a finalizer that finishes takes no available runner away |
| FleetProperties.ScalingNeverOvershoots | controllers/runnerset_controller.go:218-288 | over any interleaving of passes, with any calls refused, and finalizer completions the available count never falls below min(initial, desired) |
| FleetProperties.OnePassSettles | controllers/runnerset_controller.go:138-288 | with a co-operative API and immediate deletes one pass leaves exactly the desired number, none complete, none idle with a stale label under RollingUpdate, no orphan |
| FleetProperties.SettledPassDoesNothing | controllers/runnerset_controller.go:138-291 | a pass over a settled fleet adopts, creates and deletes nothing, whatever the API would answer |
| FleetProperties.StaleRetained | controllers/runnerset_controller.go:116-121 | the runners counted as not updated are stale ones that are neither idle nor complete, and with adoptions accepted all of those |
| FleetProperties.PassAddsNoStale | controllers/runnerset_controller.go:164-189 | no pass adds a stale runner, whatever calls are refused, and its update rule leaves stale pending and active ones in place |
| FleetProperties.PassReducesStale | controllers/runnerset_controller.go:164-189 | a rolling pass whose adoptions and deletes are accepted removes every stale idle or complete runner |
| FleetProperties.StaleNeverGrows | controllers/runnerset_controller.go:164-189 | along any run with one template and no new stale orphans the stale set only shrinks, whatever calls are refused |
| FleetProperties.RetainedStaleNeverIncreases | controllers/runnerset_controller.go:116-121 | from a pass whose adoptions and deletes are accepted on, the number of kept runners with another label never increases, and drops by every stale runner that became idle or complete |
| Reconcile.CurrentMovesWhenAllUpdated | controllers/runnerset_controller.go:116-125 | the current revision moves to the pass's revision exactly when every kept runner carries its label, and moves nowhere else |
| Reconcile.CountsOfPass | controllers/runnerset_controller.go:177-194 | the three counts a written pass reports are the numbers of kept, kept idle and kept active runners |
| Reconcile.HistoryKeepsNames | pkg/revision/revision.go:140-152 | in a sound store MakeHistory never dereferences nil, keeps every name, and leaves both pointers on stored revisions |
| Reconcile.TruncateKeepsNames | pkg/revision/revision.go:169-202 | truncation keeps whatever the pointers and the runners' labels name |
| Reconcile.PassKeepsSound | controllers/runnerset_controller.go:102-133 | a whole pass in which orphans are adopted, complete and rolled runners deleted and the status written keeps all references sound, wherever else the API fails in it, scale-down deletes included |
| Reconcile.PassKeepsPointers | controllers/runnerset_controller.go:102-133 | a pass whose status is written keeps both pointers on stored revisions, whatever else is refused |
| Reconcile.PointersNeverDangle | controllers/runnerset_controller.go:102-133 | on every run of such passes, other RunnerSets' passes, foreign revision writes, edits (the update strategy included) and any changes to runners, both pointers name stored revisions and no call dereferences nil |
| Reconcile.InterferenceKeepsSound | controllers/runnerset_controller.go:69-134 | edits, runner changes and other owners' revision writes between passes keep them sound too |
| Reconcile.SwitchingOffExactly | controllers/runnerset_controller.go:165-175 | switching rolling updates off keeps the runners' labels sound exactly when every idle runner under deletion still names a stored revision |
| Reconcile.SwitchingOffBreaksLabels | controllers/runnerset_controller.go:165-175 | a fleet on which it does not |
| Reconcile.OtherPassInterferes | controllers/runnerset_controller.go:69-134 | a whole pass of another RunnerSet on the shared store, even with an overlapping selector, is such interference |
| Reconcile.NothingDanglesOnRuns | controllers/runnerset_controller.go:102-133 | on every run of interference, of other RunnerSets' passes and of own passes in which orphans are adopted, complete and rolled runners deleted and the status written, no reference of pointers or runners dangles and no call of MakeHistory dereferences nil |
| Reconcile.ConvergesInOnePass | controllers/runnerset_controller.go:69-134 | from any store and any runners one whole pass settles the fleet; on a sound store, unless the label of the pass's revision clashes with the one its data gets under the count now stored, the next repeats the same history result without a write, leaves every runner as it is and both pointers on stored revisions |
| Reconcile.RepeatsExactly | pkg/revision/revision.go:80-153 | where nothing else listed has the template's data, the next call repeats the result exactly when those labels do not clash |
| Reconcile.FirstRevisionRepeatsExactly | pkg/revision/util.go:64-66 | for a RunnerSet without revisions, exactly when its template's label with no count and under the one then stored do not clash |
| Reconcile.NamedDataConverges | pkg/revision/revision.go:80-153 | a RunnerSet whose revisions are named by their data, its first one included, always meets both conditions |
| Reconcile.PassPointers | controllers/runnerset_controller.go:102-133 | where the pointers stand after any pass, and that nothing they then name, nor anything unlisted, is truncated |
| Reconcile.UnlistedCurrentFails | pkg/revision/revision.go:140-150 | after a committed pass the next call dereferences nil exactly when the call landed on an unlisted revision and the pointer moved to it, unless it is stuck creating under a clashing name, which takes a first call without a count |
| Reconcile.MismatchingEditFails | webhooks/runnerset_webhook.go:107-136 | after an edit that does not match the selector, exactly when no listed revision had the new data and every kept runner carries the new label, or no pointer was set |
| Reconcile.MismatchingEditStrands | controllers/runnerset_controller.go:123-125 | an updated RunnerSet without runners is stranded by the first pass after such an edit |
| Reconcile.CurrentTruncatedExactly | pkg/revision/revision.go:169-202 | a pass truncates the current revision it started from exactly when it moves the pointer off it and it is among the first unreferenced ones listed |
| Reconcile.LostStatusWrite | controllers/runnerset_controller.go:87-91 | when the status write of a pass is lost, the next MakeHistory dereferences nil exactly when every kept runner carried the new label and the old current revision was among the first unreferenced ones listed, unless it is stuck creating under a clashing name, which takes a clash before the pass |
| Reconcile.LostStatusWriteHappens | controllers/runnerset_controller.go:123-133 | a concrete pass after which it does |
| RunnerSetController.SortForDelete | util/sortable/sortable.go:29-49 | sorts the slice in place; callers get a sorted permutation and no more |
| RunnerSetController.TakeForDeletion | controllers/runnerset_controller.go:220-229 | all, none, or the front of the sorted slice |
| RunnerSetController.Reconciler.ListRevision | controllers/runnerset_controller.go:336-359 | lists exactly the owner's revisions, and fails exactly when a selected revision has no controller |
| RunnerSetController.Reconciler.UpdateNumber | pkg/revision/revision.go:88-108 | the retry loop sends at most one update; after a conflict it reports success with the store unchanged |
| RunnerSetController.Reconciler.CreateNext | pkg/revision/revision.go:112-137 | the loop refines the recursive creation relation and stores only on success |
| RunnerSetController.Reconciler.SettleTemplate | pkg/revision/revision.go:80-138 | the three-way branch refines the plan taken from the listing |
| RunnerSetController.Reconciler.MakeHistory | pkg/revision/revision.go:59-155 | result, store and owner are those of the specification, in whatever order the listing came |
| RunnerSetController.Reconciler.UpdatePointers | pkg/revision/revision.go:140-152 | the owner's pointers and count after the call, or the nil dereference |
| RunnerSetController.Reconciler.TruncateHistory | pkg/revision/revision.go:158-205 | deletes what the specification says for the listing it got |
| RunnerSetController.Reconciler.PruneHistories | pkg/revision/revision.go:191-204 | deletes a prefix of the collected revisions up to the first failure; a negative limit slices or deletes past the end |
| RunnerSetController.Reconciler.AdoptRunner | controllers/runnerset_controller.go:198-216 | sets the controller of an orphan, and leaves the store alone on failure or when there is a controller |
| RunnerSetController.Reconciler.HandleRunner | controllers/runnerset_controller.go:152-189 | one listed runner ends up with exactly one fate |
| RunnerSetController.Reconciler.FindRunners | controllers/runnerset_controller.go:136-196 | the slice, the store and the three counts after the loop |
| RunnerSetController.Reconciler.CreateRunners | controllers/runnerset_controller.go:231-272 | as many fresh runners as creates were accepted, all with the revision's label; failure exactly when fewer than missing |
| RunnerSetController.Reconciler.DeleteRunners | controllers/runnerset_controller.go:273-287 | deletes or marks exactly the chosen runners whose delete is accepted, carrying on after failures |
| RunnerSetController.Reconciler.SyncRunners | controllers/runnerset_controller.go:218-292 | refines the sync relation, reordering the slice in place |
| RunnerSetController.Reconciler.CountUpdated | controllers/runnerset_controller.go:116-121 | counts the runners with the revision's label |
| RunnerSetController.Reconciler.Reconcile | controllers/runnerset_controller.go:69-134 | a whole pass is a step of the relation all run properties are proved about, so every state has such a step |
| RunnerLifecycle.LivePass | controllers/runner_controller.go:168-315 | everything a pass over a live runner persists, from pod and answers alone: the phase, the condition, the ID, the finalizer, pod and secret |
| RunnerLifecycle.LiveVerdict | controllers/runner_controller.go:168-315 | what such a pass reports: a failure, nothing, or a requeue after five seconds for an offline runner |
| RunnerLifecycle.PassKeepsKnown | controllers/runner_controller.go:249-278 | a pass breaks "Idle or Active implies known and online" exactly when it writes the status but not the newly learned ID |
| RunnerLifecycle.KnownOnRuns | controllers/runner_controller.go:104-126 | on every run whose writes succeed, an Idle or Active runner has an ID and is online, so the Active-without-ID branch is never taken |
| RunnerLifecycle.PodDeletedIff | controllers/runner_controller.go:101-156 | a pass deletes the pod exactly when deletion is requested, the phase is not Active, and the secret was refreshed where stale, a forbidden or unknown token counting as refreshed |
| RunnerLifecycle.ActiveIsProtected | controllers/runner_controller.go:104-129 | a pass on a deleted Active runner changes at most the phase, and sets it to Complete exactly on not busy, forbidden, not found or no ID with the status written; any other error leaves it |
| RunnerLifecycle.DeletionPass | controllers/runner_controller.go:131-165 | what a pass leaves of pod, secret and finalizer once the phase is not Active |
| RunnerLifecycle.DeletionVerdict | controllers/runner_controller.go:101-166 | what such passes report: a requeue for a released runner, a minute's wait for a busy one |
| RunnerLifecycle.PodSurvivesUntilReleased | controllers/runner_controller.go:101-156 | on any run the pod of a deleted Active runner goes only after an earlier pass found it not busy, forbidden, not found or without an ID and moved it from Active to Complete |
| RunnerLifecycle.FinalizerIsLast | controllers/runner_controller.go:153-165 | the finalizer comes off only once pod and secret are deleted or absent |
| RunnerLifecycle.DeletionProgresses | controllers/runner_controller.go:101-166 | every untroubled pass lowers the number of passes still needed by one |
| RunnerLifecycle.DeletionNeverRegresses | controllers/runner_controller.go:101-166 | no pass and no interference raises it |
| RunnerLifecycle.TwoPassesFinish | controllers/runner_controller.go:101-166 | any two untroubled passes on a run finish the deletion, whatever happens around them |
| RunnerLifecycle.ResetToPending | controllers/runner_controller.go:218-315 | exactly which answers put an Idle, Active or Complete runner back to Pending |
| RunnerLifecycle.BusyRunnerLosesPod | controllers/runner_controller.go:218-254 | a run on which a busy runner loses its pod: one GitHub error, then a deletion |
| RunnerController.RunnerReconciler.EnsureSecret | controllers/runner_controller.go:131-151 | when the secret is refreshed, when the pass has to stop, and with what |
| RunnerController.RunnerReconciler.ReconcileStatus | controllers/runner_controller.go:224-315 | the early returns over the working copy refine the status function |
| RunnerController.RunnerReconciler.ReleaseResources | controllers/runner_controller.go:101-166 | the deletion path refines its specification |
| RunnerController.RunnerReconciler.EnsureResources | controllers/runner_controller.go:168-222 | the normal path refines its specification |
| RunnerController.RunnerReconciler.Patch | util/patch/patch.go:102-118 | body and status are written separately, only if changed, and either may fail |
| RunnerController.RunnerReconciler.Reconcile | controllers/runner_controller.go:75-222 | a whole pass with its deferred write is a step of the lifecycle |
| Base64.AlphabetIsStandard | hooks/github_hook.go:81 | the 64 digits are those of section 4 of RFC 4648 |
| Base64.StandardExamples | hooks/github_hook.go:81 | the examples of section 10 of RFC 4648 |
| Base64.RoundTrip | hooks/github_hook.go:81 | decoding an encoded byte string gives it back (section 4 of RFC 4648) |
| Base64.EncodeInjective | hooks/github_hook.go:81 | equal keys come from equal texts |
| Strings.ItoaInjective | hooks/github_hook.go:99 | different IDs have different texts |
| CompositeIndex.KeysAgree | hooks/github_hook.go:76-82 | two keys are equal exactly when name and ID are, and group and URL are or differ only in where the separator between them stands |
| CompositeIndex.KeyText | hooks/github_hook.go:76-82 | the text a key encodes |
| CompositeIndex.SeparatorInUrlCollides | hooks/github_hook.go:76-82 | two different runners with one key, when a URL holds the separator |
| CompositeIndex.IndexAgreesWithScan | hooks/github_hook.go:84-103 | for names without ';' and URLs without ";url:", an indexed lookup finds a runner exactly when all four fields match and it has an ID |
| GithubHooks.IndexIsScan | hooks/github_hook.go:147-163 | so a list call by index returns exactly what a scan would |
| GithubHooks.CandidatesExactly | hooks/github_hook.go:143-167 | which runners an event concerns for any answers of the list calls |
| GithubHooks.CandidateIsDesignated | hooks/github_hook.go:134-186 | an event has a single candidate exactly when a scan designates one, and that runner has the event's ID, name and group and the organization's or the repository's URL |
| GithubHooks.GithubHook.TriggerRunnerReconciliation | hooks/github_hook.go:105-132 | annotates the one runner; a missing one is no error |
| GithubHooks.GithubHook.ProcessWorkflowJobEvent | hooks/github_hook.go:134-186 | an event annotates at most one runner, the single candidate, and leaves every other as it is |

## Left out

- The Kubernetes client, cache staleness, watches, the event recorder, logging and leader election: every read is fresh and successful; only writes are answered by the environment. A read that fails after a successful update is therefore not covered.
- util/patch/patch.go: the merge-patch computation and what the client decodes back into the object after a write. A commit is a body write and a status write.
- FNV hashing, SafeEncodeString and the JSON encoding of templates: the hash is an arbitrary function of the raw data and the count, the template its encoded bytes.
- Decoded `Data.Object` of a revision, which is nil for what this controller stores, and nil revision pointers in IsEqual.
- Label selector expressions: a selector is its matchLabels. Selector errors and the early return for a RunnerSet under deletion write nothing and are not modelled.
- Namespaces of RunnerSets: one store is one namespace, which any number of RunnerSets may share.
- Integer width: int32 counts and int64 revision numbers do not wrap around here, and `int(runnerID)` is the identity.
- A nil history limit, which reads as 0 (pkg/revision/revision.go:207-210), and a nil desired count, which the API server's defaults rule out.
- Running forever: a create loop without an end is observed for a given number of rounds, for every such number.
- The number of steps of the conflict backoff belongs to client-go; from two up every number behaves the same.
- Pod termination: a delete call for a pod or a secret removes it at once.
- Runner annotations other than the hook's and the copied template spec, which no modelled branch reads.
- The Runner's `spec.os`, other conditions, reasons and messages.
- The registration token's value and the clock: a secret is expired or not, and a new one is not.
- The GitHub client, the webhook server, remote execution and pod specs: field copying and I/O.
- api/v1alpha1 conversions, deep copies, metrics, admission webhooks: easy members; the webhooks' effect appears as a condition where a property needs it.
- The index cache: a list call by index field returns the runners whose computed key matches.
