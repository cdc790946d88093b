# forge-sync: a verified model

forge-sync keeps repositories on GitHub and on a Forgejo instance equal without
making either of them the master. This project models the parts of it in which
the hard decisions are made and proves what they achieve.

**The reconciler of issues, releases and comments.** A run compares each mapped
pair of objects with the content both sides last agreed on, pairs unmapped
objects first by content and then by number and title (or tag), and copies what
is left to the other forge. Nothing is atomic: a run may stop before or after
any remote call or table write. `Protocol` describes on values what a run is
going to do (`PlanOf`), the states any part of its work can lead to in any order
(`Interrupted`), those in which it can really stop, with its work done in order
(`Stopped`), and a whole run (`Run`). `Reconciler` is the program itself, with
classes for the two forges, the mapping table and a network that fails after any
number of calls; it is proved to refine the protocol, and to end only in such a stop.
The consequences are proved about the protocol: `Outcomes` (what becomes of each object in one run), `Convergence` (perfect matching, third
run quiet), `FirstRun` (exactly when one run is enough; losing the table), `History`
(no lost edit over arbitrary histories), and crash safety. There `AfterStop` says what
is unmapped after a stop, `CrashPlans` what the next run then plans, `CrashRecovery`
and `CrashSafety` what any number of crashes lead to, `RunStates` and `CrashStates`
exhibit stops that do harm and give the exact condition, and `CrashCases` and
`CrashExample` say what it comes to. One model covers three reconcilers: `pins` is
true for releases, whose mapped survivors stay with their row; comments have no
slot (number or tag), so their second pairing pass is empty, and a `World` then
is one thread.

**Pull requests.** Forges may refuse pull requests in many ways, so the promise
is accounting. `PullRequests` says what each answer leads to, `PullForges` what a
forge may reply, and `PullReconciler` is the run. `PullLosses`, `PullDisplacements` and
`PullStories` say exactly which pull requests a run can lose track of, over everything
GitHub may reply, and `PullHistory` which edits can be lost and when a pair comes to rest.

**Refs.** `RefPlan` plans pushes over an ancestry check that may fail, `RefSync`
proves what a plan achieves, `RefProtocol` pushes it and interleaves users.

**The rest.** `WorkerPool` is the cycle's pool of workers as interleaved steps.
`Ledger` and `Webhooks` are the conflict and delivery tables under any
interleaving. `Assets`, `Paging`, `Pacing` and `Retry` are smaller algorithms.

## Reading the results

- The digest is represented by the content it is computed from, that is, it is
  taken to be injective. Labels are a multiset because they are sorted first.
- Ids are natural numbers that a forge never hands out twice. Update calls name an
  address: the number of an issue, the id of a release or comment.
- Users edit between runs, never within one: nothing is read again before an update.
- A failing call may have taken effect all the same (`late`), so stopping between a
  remote change and its table row is one of the places where a run can stop.

Where the code and its documentation disagree, the model follows the code:

- The repository's README (lines 175-176) says that a crash heals by itself and never
  duplicates objects. `CrashSafeIff` is the exact condition for issues, releases and
  comments, over the states in which a run can stop: the next run does what is left of
  the stopped one's plan if and only if (1) no two objects still to be copied, of either
  forge, have the same content, (2) nothing crosses: no two objects that are not meant
  for each other have a content that otherwise only objects in other pairs by number or
  tag have, and (3) no object to be copied from GitHub has the tag of exactly one object
  to be copied from Forgejo. `CrashesCreateNoDuplicates` proves safety over any number of
  crashes under this condition. Where (1) fails, a crash between creating a copy and
  writing its row costs one object more on both forges (`GitHubTwinsAreDuplicated` and
  its companions). Where (2) fails, three issues that all pair by number can become
  four (`NumberPairsAreNotSafe`). An orphaned row (below) stops every run, so the
  condition is stated for worlds without one, or with pinned survivors.
- One run is not always enough to converge: a pair found by number or tag keeps
  Forgejo's content as baseline. `OneRunSettlesIff` gives the exact condition.
- A mapping that lost its GitHub side pins its survivor only for releases. For issues
  and comments such a row makes a run that can reach both forges fail with a UNIQUE
  violation, and nothing else does (`Reconciler.Reconciler.Reconcile`).
- A resolved conflict that is found again stays hidden, because the insert finds the
  resolved row (`ResolvedConflictStaysHidden`); and no reconciler reads the resolution,
  although the repository's README (lines 65-66) says the next run treats it as canonical.
- The comment in internal/releases/reconcile.go:282-285 says oversized assets are never
  downloaded. One is, as soon as its own skip cannot be recorded in some pass
  (`ArrivesIff`), and this is the only way in which a second pass uploads anything
  (`SecondPassIsQuietIff`).
- The second leftover loop for pull requests never marks the GitHub pull request it
  settles on, so a later Forgejo pull request can take the row of an earlier one, which
  then is in no row and no conflict. `LostIff` says exactly when GitHub can reply so, for
  leftovers that are in a row already (adopted by the first loop, say) and for those
  that are not. All that are apart from the later ones stay accounted for
  (`PullReconciler.Reconciler.Reconcile`).
- After Forgejo refuses to edit a locked pull request, the next run takes Forgejo's
  unchanged text for an edit and puts it back on GitHub. `TwoRunsOverwriteIff` shows that,
  without edits in between, this is the only case in which a run overwrites a text
  right after another. `OnlyRefusalsLoseEdits` lists every way in which a text that
  was never agreed on is lost, over any history: such a refusal before, or a pull request
  that GitHub cannot reopen.
- The repository's README (line 174) says that repeating a run is a no-op when nothing
  changed. For a pull request pair this fails when head, base, draft or merged flag
  differ (Forgejo's listing carries no draft flag): these are compared but never copied,
  so every run updates the pair, in turns in one direction and the other
  (`UpdateSettlesIff`, `NeverAtRest`).
- An update of a Forgejo issue is two requests, and the labels come second. A stop in
  between leaves a pair diverged for good if the update was to change both the labels
  and something else (`HalfUpdateDivergesIff`).
- The retry delay is multiplied in 64 bits and can wrap; `DelayIsIntendedIff` says exactly
  when it is still the documented one. It never exceeds the cap.
- Neither forge is privileged in ref planning unless two different commits contain each
  other, as annotated tags of one commit can (`VerdictMirrorsIff`). A tag that must move is
  refused on every cycle; refs are pushed in name order, so branches are never held up by it
  (`StoppedAtTagBranchesAreEqual`).

## Model

| member | source | states |
|---|---|---|
| Pairing.Pairs | internal/issues/reconcile.go:264-309 | the pairs are exactly the objects that are alone with their key on both sides and whose names agree; the map is injective |
| Pairing.UniquePairs | internal/issues/reconcile.go:264-309 | the group-by loops return that set of pairs for every listing order and every iteration order of the groups, with mutually inverse maps |
| Pairing.KeyMatches | internal/releases/reconcile.go:380-400 | a key yields a pair if and only if both its groups are singletons and the names agree |
| Pairing.SingletonIsAlone | internal/comments/reconcile.go:231-248 | a group has one member exactly when no other object shares the key |
| Protocol.PlanSplits | internal/issues/reconcile.go:133-200 | consumed bookkeeping: every unmapped object of either forge is paired once or copied once, never both |
| Passes.HashPairIff | internal/issues/reconcile.go:264-285 | x and y are paired by content if and only if their contents are equal and no other unmapped object of either forge has that content |
| Passes.SlotPairIff | internal/issues/reconcile.go:287-309 | of what the first pass left, x and y are paired if and only if both are issues with one number and one title, or both releases with one tag, and nothing else of their kind on their forge has that number or tag; comments never |
| Forges.Store.UpsertMapping | internal/state/store.go:233-256 | insert or replace by GitHub id; refused without any change when another row has the Forgejo id; uniqueness is kept |
| Forges.Store.AddConflict | internal/state/store.go:484-498 | recording a recorded conflict changes nothing, and a failed call may have recorded it |
| Forges.Forge.Create | internal/issues/reconcile.go:171-184 | a fresh id with the given content, or no change when the call failed without effect |
| Forges.Forge.Update | internal/forgejo/client.go:186-203 | the object at the address takes the content; a call that fails may have changed nothing, all, or, for an issue on Forgejo, all but the labels |
| Reconciler.Reconciler.ReconcilePair | internal/issues/reconcile.go:84-130 | the three-way comparison finishes the pair, stops in a reachable state, and never fails on UNIQUE; a final pair causes no write |
| Reconciler.Reconciler.ReconcileRow | internal/releases/reconcile.go:82-162 | exactly which objects of a row count as mapped, with and without pinning; a one-sided row is recorded as missing |
| Reconciler.Reconciler.ReconcileMapped | internal/comments/reconcile.go:97-156 | after the loop the consumed objects are exactly those that are not free |
| Reconciler.Reconciler.PairByContent | internal/issues/reconcile.go:133-147 | rows are written for exactly the pairs of equal content unique on both sides, and no other row changes; UNIQUE fails only over an orphaned row |
| Reconciler.Reconciler.PairBySlot | internal/releases/reconcile.go:182-193 | rows are written for exactly the issues with one number and title, and the releases with one tag, that are unique among what the first pass left, each with Forgejo's content as baseline; no other row changes, on failure either |
| Reconciler.Reconciler.CopyToForgejo | internal/issues/reconcile.go:171-185 | every leftover of GitHub gets one copy and its row; UNIQUE never fails here |
| Reconciler.Reconciler.CopyToGitHub | internal/issues/reconcile.go:186-200 | every leftover of Forgejo gets one copy and its row; UNIQUE fails only over an orphaned row |
| Reconciler.Reconciler.Reconcile | internal/issues/reconcile.go:38-202 | the program refines the protocol: it always ends in one of the stops of a run, and in a whole run on success; fails on UNIQUE only over an orphaned row, and with one it never succeeds; a dry run changes nothing; a settled world causes no write call |
| Convergence.JoinCollision | internal/issues/reconcile.go:135-168 | only a row that lost its GitHub side can hold the Forgejo id of a pair that is being recorded |
| Convergence.CopyCollision | internal/releases/reconcile.go:213-230 | the same for a copy; with pinned survivors neither can happen |
| Convergence.CompletedRunHadNoOrphans | internal/issues/reconcile.go:69-81 | a run that completes started without orphaned rows, unless survivors are pinned |
| Convergence.PerfectMatching | internal/issues/reconcile.go:66-200 | after a complete run every object of either forge is in exactly one row, and unless survivors are pinned each row names two existing objects or two missing ones |
| Convergence.RunOfMatchedSettles | internal/issues/reconcile.go:82-131 | a run that meets nothing unmapped leaves nothing to do |
| Convergence.SettledIsFixpoint | internal/releases/reconcile.go:107-156 | a settled world is left unchanged by any run, complete or not: no object, row or conflict differs |
| Convergence.ThirdRunIsQuiet | internal/issues/reconcile.go:82-168 | after two complete runs a third changes nothing, whatever the start, conflicts and number pairs included |
| FirstRun.OneRunSettlesIff | internal/issues/reconcile.go:149-168 | one run is enough if and only if the objects it pairs by number or tag have equal contents |
| FirstRun.NewRowView | internal/issues/reconcile.go:137-200 | a row written by a run is final at once when its pairs by slot agree |
| FirstRun.LostTableIsRecovered | internal/issues/reconcile.go:133-147 | with distinct contents on each forge, a lost mapping table is paired again exactly and nothing is copied |
| Convergence.HalfUpdateDivergesIff | internal/forgejo/client.go:186-203 | a stop between the two requests of an issue update leaves a pair that no later run finishes if and only if labels and another field were to change; else the next run finishes it |
| Outcomes.PairOutcome | internal/issues/reconcile.go:84-130 | what a complete run makes of a mapped pair, from its two contents and the baseline: which content both sides and the baseline have afterwards, or that nothing changed and the conflict is on record |
| Outcomes.ConflictOutcome | internal/issues/reconcile.go:69-130 | exactly which conflicts a complete run adds: missing partners and pairs that changed on both sides, with the contents found |
| Outcomes.JoinOutcome | internal/issues/reconcile.go:133-168 | a complete run maps every pair of either pass, with Forgejo's content as baseline, and writes neither object |
| Outcomes.ForgejoCopyOutcome | internal/issues/reconcile.go:171-185 | an unmapped GitHub object that neither pass pairs has a new copy on Forgejo, mapped to it with its content as baseline |
| Outcomes.GitHubCopyOutcome | internal/issues/reconcile.go:186-200 | the same in the other direction |
| Outcomes.EditIsCopied | internal/issues/reconcile.go:84-130 | after a run that found a pair without conflict, an edit of one side alone reaches the other with the next run; it is never a conflict and never undone |
| AfterStop.FreedAfterStop | internal/issues/reconcile.go:82-200 | after any part of a run's work unmapped are exactly the objects that were, and the new ones, without those recorded with their mates; they are unchanged |
| CrashPlans.FirstPassPlan | internal/issues/reconcile.go:137-147 | recording some pairs found by content changes neither the other such pairs nor the second pass |
| CrashPlans.WrongPairCrosses | internal/issues/reconcile.go:149-168 | after a stop in the second pass the next first pass finds a pair that is not meant only if two objects cross |
| CrashPlans.ForgejoCopiesResume | internal/issues/reconcile.go:171-185 | after a stop while GitHub's leftovers are copied, the next run pairs exactly the copies without a row with their originals |
| CrashPlans.GitHubCopiesResume | internal/issues/reconcile.go:186-200 | the same while Forgejo's leftovers are copied |
| CrashPlans.StopResumes | internal/issues/reconcile.go:66-200 | wherever a run of a crash-proof world stops, the next plan is what is left of its plan, and the world is still crash-proof |
| CrashRecovery.CrashStep | internal/issues/reconcile.go:66-200 | one more interrupted run keeps the recovery invariant with the births of both runs |
| CrashSafety.CrashesRecover | internal/issues/reconcile.go:66-200 | after any number of crashed runs the recovery invariant holds, the next plan continues the first, and the world is still crash-proof |
| CrashSafety.CrashesResume | internal/issues/reconcile.go:133-200 | the next plan joins only mates and copies exactly the leftovers without a copy |
| CrashSafety.CrashesCreateNoDuplicates | internal/issues/reconcile.go:133-200 | crashes anywhere, then one complete run: each object has exactly one counterpart, each leftover was copied once over all runs together, and both forges have the sizes of an uninterrupted run, in every crash-proof world |
| CrashSafety.RunReachesSizes | internal/issues/reconcile.go:171-200 | how many objects each forge holds after any complete run |
| CrashStates.CrossedIsMispaired | internal/issues/reconcile.go:149-168 | if two objects cross, the stop after all other pairs were recorded makes the next run pair them |
| CrashStates.TakenSlotIsMispaired | internal/releases/reconcile.go:182-211 | if a GitHub leftover has the tag of one Forgejo leftover, the stop after all others were copied makes the next run pair them instead |
| CrashStates.GitHubTwinsAreDuplicated | internal/issues/reconcile.go:171-185 | two GitHub leftovers of any kind with one content: a stop after the copy of one was created costs one object more on both forges |
| CrashStates.EqualLeftoversAreDuplicated | internal/releases/reconcile.go:203-211 | the same for a GitHub leftover and a Forgejo leftover with one content |
| CrashStates.ForgejoTwinsAreDuplicated | internal/comments/reconcile.go:179-190 | the same for two Forgejo leftovers |
| CrashStates.CrashSafeIff | internal/issues/reconcile.go:66-200 | the next run does what is left of the plan after every possible stop if and only if the world is crash-proof, for all kinds of objects, unless an orphaned row stops every run anyway |
| CrashCases.DistinctIsCrashProof | internal/issues/reconcile.go:133-168 | unmapped objects that differ in content, and in number or tag, on each forge are crash-proof |
| CrashCases.IssuesAreNotTaken | internal/issues/reconcile.go:149-168 | issue numbers are unique on each forge, so for issues the third condition always holds |
| CrashCases.LeftoversDifferIff | internal/issues/reconcile.go:133-147 | if nothing pairs by number or tag, leftovers differ if and only if the unmapped contents of each forge do |
| CrashCases.CommentsAreCrashSafeIff | internal/comments/reconcile.go:158-190 | comments are safe from crashes if and only if the unmapped comments of each forge have different contents, unless an orphaned row stops every run anyway |
| CrashExample.NumberPairsAreNotSafe | internal/issues/reconcile.go:149-168 | three issues that all pair by number: after a stop that wrote one row, every complete run leaves four issues on both forges |
| CrashExample.PairedTwinIsSafe | internal/issues/reconcile.go:149-185 | an issue to be copied whose twin pairs by number does no harm: the twin is recorded first |
| History.BaselinesAreAgreed | internal/issues/reconcile.go:86-168 | in any history of edits and runs, interrupted or not, each baseline was once held by both sides or is Forgejo's content recorded at identity pairing |
| History.OverwrittenIsBaseline | internal/issues/reconcile.go:98-124 | a run overwrites a content only if it equals the baseline, and only by the partner's content, on Forgejo perhaps with the labels still missing |
| History.NoEditIsLost | internal/comments/reconcile.go:115-155 | in any history only an agreed content of a mapped object is ever overwritten; unmapped objects are never written |
| History.BothFreshEditsKept | internal/issues/reconcile.go:119-130 | if both sides changed to different contents since they agreed, a complete run keeps both and the conflict is on record |
| WorkerPool.ConservedStep | internal/reconcile/engine.go:144-173 | every dispatched mapping is in the buffer, with one worker, among the results, or lost, after each step of any goroutine |
| WorkerPool.InvStep | internal/reconcile/engine.go:132-188 | each step keeps the bookkeeping: no error, cancellation or loss without its reason |
| WorkerPool.PoolIsTruthful | internal/reconcile/engine.go:174-188 | in every interleaving a nil error comes with the result of each mapping exactly once, any worker error is reported as one that did happen, and an incomplete run is reported only after outside cancellation and when some mapping has no result |
| WorkerPool.RunsAreBounded | internal/reconcile/engine.go:141-174 | every interleaving for n mappings ends after at most 7n + 3 steps |
| WorkerPool.NoDeadlock | internal/reconcile/engine.go:143-180 | until all goroutines have ended some step is possible, even with jobs left in the buffer |
| RefPlan.Union | internal/gitrefs/policy.go:78-92 | all ref names of both forges, each once, in strictly ascending order |
| RefPlan.Plan | internal/gitrefs/policy.go:35-76 | fails exactly when an ancestry check it needs fails; else a conflict is listed if and only if both forges have the ref at two commits and neither check says yes, a push to GitHub if and only if GitHub lacks the ref or its commit is an ancestor of Forgejo's, a push to Forgejo if and only if Forgejo lacks it or only the second check says yes; in strictly ascending name order |
| RefSync.RefsOccurOnce | internal/gitrefs/policy.go:42-75 | no ref occurs twice in a plan, within a list or across the two |
| RefSync.PlanIsFixpoint | internal/gitrefs/policy.go:42-73 | applying a plan deletes nothing, moves each ref only to a commit containing its old one, makes a ref equal on both forges unless its two commits differed and neither contained the other, and planning again gives no action and the same divergences |
| RefSync.PushAcceptedIff | internal/gitrefs/sync.go:104-114 | an unforced push of the plan is accepted if and only if it does not move an existing tag |
| RefSync.VerdictMirrorsIff | internal/gitrefs/policy.go:51-67 | swapping the forges mirrors the verdict on a ref unless its two different commits contain each other |
| RefSync.PlanMirrors | internal/gitrefs/policy.go:35-76 | with an antisymmetric ancestry, swapping the forges gives the same lists with from and to, and the two commits of a conflict, exchanged |
| RefProtocol.Synchronizer.Sync | internal/gitrefs/sync.go:66-115 | the pushes of a prefix of the plan took effect, all of it on success; it stops only at a lost connection, a protected name or an existing tag; conflicts are recorded first; dry runs and failed plans change nothing |
| RefProtocol.StoppedAtTagBranchesAreEqual | internal/gitrefs/sync.go:104-114 | a synchronization that stops at a tag has already made every branch equal that did not diverge |
| RefProtocol.OnlyForward | internal/gitrefs/sync.go:91-115 | with users pushing meanwhile and wherever it stops, every ref of each forge only moves forward |
| RefProtocol.UntouchedFollowsPlan | internal/gitrefs/sync.go:91-115 | a ref no user pushed is where the undisturbed synchronization would have it |
| RefProtocol.UntouchedBecomesEqual | internal/gitrefs/sync.go:104-115 | when all pushes are accepted, every ref no user pushed is equal on both forges or diverged at the fetch |
| RefProtocol.StopsOnlyForReason | internal/gitrefs/sync.go:104-114 | a push is refused only for a ref a user pushed after the fetch, or an existing tag |
| PullRequests.LandedGitHub | internal/pullrequests/reconcile.go:211-272 | whatever Forgejo answers, the GitHub leftover is in a row or named by a conflict, and consumed pull requests keep theirs |
| PullRequests.LandedForgejo | internal/pullrequests/reconcile.go:273-333 | whatever GitHub answers, the Forgejo leftover is in its target's row or named by a conflict, and no other row changes |
| PullRequests.EnterExtends | internal/pullrequests/reconcile.go:341-351 | an upsert with its UNIQUE fallback accounts for both pull requests and keeps the mapping injective |
| PullLosses.ApartIsAccounted | internal/pullrequests/reconcile.go:273-333 | whatever GitHub replies, a Forgejo leftover that is apart from all later ones is in a row or named when the loop ends |
| PullDisplacements.OriginsExist | internal/pullrequests/reconcile.go:273-333 | in any fitting run each leftover displaced from its row before its turn goes back to an earlier leftover of its own that was in no row and had no listed counterpart |
| PullDisplacements.LostLoses | internal/pullrequests/reconcile.go:273-333 | whoever is lost in a fitting run loses to a later leftover: they share a target, and enough earlier leftovers could free both for it |
| PullStories.LosesToIsLost | internal/pullrequests/reconcile.go:278-332 | for any leftover that loses to a later one there are replies of GitHub after which it is in no row and no conflict |
| PullStories.LostIff | internal/pullrequests/reconcile.go:273-333 | over all fitting replies: a leftover that no conflict names, in a row or not, can be lost if and only if it loses to a later one |
| PullStories.UnmappedLosesIff | internal/pullrequests/reconcile.go:278-332 | of two leftovers in no row the earlier loses to the later if and only if their head refs are equal and they do not both have a listed counterpart of their own |
| PullStories.NoneLostIff | internal/pullrequests/reconcile.go:273-333 | with no leftover in a row, none that is unnamed can be lost if and only if each is apart from all later ones |
| PullHistory.NextRunOverwritesIff | internal/pullrequests/reconcile.go:87-157 | without edits in between, the second of two runs overwrites a title, body or state if and only if the first met a lock on the way to Forgejo and the texts differ |
| PullHistory.TwoRunsOverwriteIff | internal/pullrequests/reconcile.go:104-157 | the same for two successive comparisons of a pair, in terms of what they leave on the forges and in the row |
| PullHistory.OnlyRefusalsLoseEdits | internal/pullrequests/reconcile.go:87-157 | in any history of edits and runs a text is overwritten only by the other side's, and only if it was agreed on, refused by Forgejo before, or met a pull request GitHub cannot reopen |
| PullHistory.NoRefusalNoLoss | internal/pullrequests/reconcile.go:97-157 | in a history without refusals only agreed texts are overwritten |
| PullHistory.OneSidedEditIsCopied | internal/pullrequests/reconcile.go:88-157 | in any history, after a run over two equal sides and edits of one side alone the next run copies that side to the other, and never finds a clash |
| PullHistory.EditAfterUpdateIsCopied | internal/pullrequests/reconcile.go:97-157 | the same after an accepted update when head, base, draft and merged flag agree |
| PullHistory.AdoptedTextSurvives | internal/pullrequests/reconcile.go:525-531 | a row entered for a leftover has GitHub's digest as baseline, so its first comparison is in sync or copies Forgejo's text to GitHub, never the reverse |
| PullHistory.UpdateSettlesIff | internal/pullrequests/reconcile.go:97-157 | after an accepted update the pair is in sync if and only if head, base, draft and merged flag agree |
| PullHistory.NeverAtRest | internal/pullrequests/reconcile.go:87-157 | otherwise every further run updates the pair again, in turns in one direction and the other |
| PullForges.FirstFitIsFirst | internal/pullrequests/reconcile.go:480-523 | adoption finds the first unconsumed candidate with the same refs (and normalized title if asked), and nothing only if there is none |
| PullForges.AdoptionPrefersTitle | internal/pullrequests/reconcile.go:236-245 | adoption on Forgejo takes the first unconsumed candidate with the same refs and normalized title, before any with the refs only; then the first with the refs; none only if there is none |
| PullReconciler.Reconciler.ReconcilePair | internal/pullrequests/reconcile.go:87-171 | case by case (sides equal, only GitHub changed, only Forgejo changed, both changed) and for every reply: which forge changed and how, the baseline left in the row, and the conflict recorded for a locked or clashing pair |
| PullReconciler.Reconciler.ReconcileMapped | internal/pullrequests/reconcile.go:69-172 | consumed are exactly the pairs listed on both sides; every row is compared or reported with both ids, and keeps its partner |
| PullReconciler.Reconciler.RecordPairs | internal/pullrequests/reconcile.go:177-209 | each pair is in the books, as a row, or after an equal digest as a clash naming both, and no other row changes; the second pass adopts Forgejo's content as baseline and ends at a clash |
| PullReconciler.DigestPairIff | internal/pullrequests/reconcile.go:416-438 | two unconsumed pull requests are paired by digest if and only if it is equal and no other has it |
| PullReconciler.IndexPairIff | internal/pullrequests/reconcile.go:441-468 | they are paired by number if and only if no other has it and the normalized titles and both refs agree |
| PullReconciler.Reconciler.PairByIndex | internal/pullrequests/reconcile.go:441-468 | exactly the pairs with a number unique on both sides whose normalized titles and refs agree |
| PullReconciler.Reconciler.Adopt | internal/pullrequests/reconcile.go:480-523 | the search loop finds the first fitting candidate |
| PullReconciler.Reconciler.LandOnForgejo | internal/pullrequests/reconcile.go:215-271 | one create request; unless refused, g has a row with its own digest as baseline and the created pull request or an unconsumed one with the same refs as partner; the reply decides which conflict is written otherwise, or the run ends with a cause |
| PullReconciler.Reconciler.LandOnGitHub | internal/pullrequests/reconcile.go:277-332 | the same towards GitHub: at most one row is entered, for f, and its baseline is the digest of the pull request on GitHub, as listed if it was adopted from the listing |
| PullReconciler.Reconciler.CopyToForgejo | internal/pullrequests/reconcile.go:211-272 | one request per leftover in listing order, the books follow answer by answer, every leftover is accounted for, and every one not refused has a row with its own digest as baseline |
| PullReconciler.Reconciler.CopyToGitHub | internal/pullrequests/reconcile.go:273-333 | one request per Forgejo leftover; the replies of the request log, GitHub's pull requests before and after each, and the answers form a fitting run, and the books are what this run leads to; each row entered has the digest of its GitHub pull request as baseline; leftovers apart from all later ones are accounted for |
| PullReconciler.Reconciler.CopyLeftovers | internal/pullrequests/reconcile.go:211-333 | both loops: each unconsumed pull request is requested once; what the first loop refused counts as consumed in the second and is named; the second loop starts from consistent books if rows of unlisted pull requests link equal head refs |
| PullReconciler.Reconciler.Reconcile | internal/pullrequests/reconcile.go:41-335 | on success the mapping is injective, mapped pairs are kept, the pairs of both passes entered, exactly the leftovers requested once each, no row or conflict dropped; every listed GitHub pull request is in a row or named, and every listed Forgejo one too unless a later leftover is not apart from it; a run that fails met a failing call, a lock at the last resort, a number clash or an unexpected reply |
| Ledger.ConflictTable.Add | internal/state/store.go:484-498 | a new key gets a fresh id and is unresolved; a known key changes nothing |
| Ledger.ConflictTable.Resolve | internal/state/store.go:527-542 | exactly one unresolved row is ticked off, or nothing changes and it says so |
| Ledger.ConflictsAreKept | internal/state/store.go:484-542 | at every later moment each row is there with its id and columns, resolved rows are still resolved, ids and keys are unique |
| Ledger.TableIsSet | internal/state/store.go:484-542 | seen by the columns of its UNIQUE constraint, the table over time is a set that only grows by what is added, whatever operators resolve |
| Ledger.AddInsertsOne | internal/state/store.go:484-498 | for any reconciler whose conflicts have their own columns, recording one inserts exactly it into the set that reconciler sees |
| Ledger.ResolvedConflictStaysHidden | internal/state/store.go:500-505 | a conflict that was resolved is never reported again, however often it is found |
| Webhooks.InvStep | internal/webhooks/server.go:93-108 | one owner per claimed delivery, at every step of any request |
| Webhooks.ProcessedAtMostOnce | internal/webhooks/server.go:93-108 | under any interleaving and redelivery each delivery is processed at most once, its mark finds the claim, and a first 202 means processed and marked |
| Webhooks.AnswersAreTruthful | internal/webhooks/server.go:93-108 | a first 202 means that the processor succeeded; 500 means that claiming, processing or marking failed |
| Webhooks.AbandonedClaimIsFinal | internal/state/store.go:449-462 | when the claiming request died before processing, no redelivery is ever processed |
| Paging.ListAll | internal/forgejo/client.go:144-170 | the items at exactly the positions that are not skipped (pull requests, if asked), in order, whether the forge answers past the end with nothing or its last page; 50,000 items or more are an error, never a cut listing |
| Paging.RepeatMeansEnd | internal/forgejo/client.go:347-351 | a repeated first id occurs exactly when the listing is exhausted |
| Pacing.Pacer.Reserve | internal/forgejo/client.go:78-93 | the start is the later of the clock and one interval after the previous start |
| Pacing.NextSlotIsEarliest | internal/forgejo/client.go:78-93 | a time is no earlier than the reserved start if and only if it is not before the clock and one interval after the previous start |
| Pacing.WindowHoldsFew | internal/forgejo/client.go:78-93 | for any clock readings a half-open window holds at most length / interval starts, rounded up |
| Retry.Do | internal/api/retry.go:80-117 | at most MaxAttempts calls with a sleep of the computed length between each two; stops at the first success or error that may not be repeated and returns it |
| Retry.DelayIsIntendedIff | internal/api/retry.go:131-149 | with a cap, the delay is the documented one if and only if the product fits 63 bits, or what is left of it or the server's wish reaches the cap |
| Retry.LateRetriesDoNotWait | internal/api/retry.go:141-148 | a permitted policy whose thirty-fifth retry does not wait although 30 s are documented |
| Retry.WaitIsBounded | internal/api/retry.go:88-115 | the whole wait is at most (MaxAttempts - 1) times the larger cap |
| Retry.ServerIsObeyed | internal/api/retry.go:131-149 | the server's wish is a lower bound of the delay up to the cap, and the cap is the rate limit's own when a rate limit is reported and such a cap is set |
| Assets.AssetReconciler.CopyMissing | internal/releases/reconcile.go:249-263 | the target gains exactly the assets whose name it lacks and that are not too large or whose own skip failed to be recorded; every other missing one is recorded |
| Assets.AssetReconciler.ReconcileAssets | internal/releases/reconcile.go:237-280 | the same in both directions, each judged by the release as listed, with every record failing or not on its own; nothing is removed |
| Assets.CopiesPick | internal/releases/reconcile.go:249-299 | what is copied is, in order, every asset whose name is missing and whose size is within a positive limit, or whose record failed |
| Assets.PassMakesUnion | internal/releases/reconcile.go:249-278 | afterwards each side has the names of both, except names of which every asset was skipped |
| Assets.SecondPassIsQuietIff | internal/releases/reconcile.go:249-299 | a second pass uploads nothing if and only if no record of a still missing asset fails in it |
| Assets.ArrivesIff | internal/releases/reconcile.go:249-299 | over any number of passes a name missing on Forgejo arrives if and only if one of GitHub's assets of that name is small enough or its record fails in one of the passes |

## Left out

- Repository discovery, adoption, migration and visibility: settings writes and mapping writes of one repository, outside the object protocol.
- The last known state kept in a conflict row, except in `Ledger`: the protocol needs only the columns of the UNIQUE constraint.
- That rows of pull requests which are no longer listed link equal head refs (`HeadsAgree`): it holds of every row when it is written, and refs never change, but histories of such rows are not modelled.
- Malformed listings and validation of created objects: a forge is taken to answer with well-formed objects.
- Order of rows, timestamps and the sorting of results: nothing in the modelled decisions depends on them.
- Copying assets inside the release loop: `Assets` models the two copying loops of one release on their own.
- Numbers in pull request rows and update calls by number: a pull request is updated by its id.
- Title normalization of pull requests is an arbitrary function, which covers the one in use.
- The state a failed pull request run leaves: its forges and its table may fail at any call, so contracts speak of successful runs and of the causes of failure.
- The mutex of each repository: it serializes runs of one repository, which the model assumes by having one run at a time.
- Removing an empty mapping list early in the worker pool: zero repositories return at once; the pool is modelled for one or more.
- Git itself: a forge accepts a push that creates a ref, repeats its value or moves a branch forward, and may protect names; fetching is one call.
- The empty repository name that makes ref planning fail at once.
- Saturation of the pacing clock: times are unbounded integers, so a first request long after the zero time needs no special case.
- Conversion of 2^63 and larger powers to a duration depends on the machine; `Retry` leaves its value open.
- HTTP, JSON, signatures, SQLite, wiring of hooks, action secrets, health checks and configuration.
