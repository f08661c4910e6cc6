# file.local: a verified model of two-peer synchronization

file.local keeps one directory tree the same on two machines. This project models the
logic of that synchronization in Dafny and proves what the program relies on: that a
three-way merge of two edited files is the merge a reader would expect, that both peers
compute one plan from two snapshots, that one peer can check the other's merges, that a
plan can be installed across any number of crashes without losing what was there, that
two installations reserve each other without waiting in a circle, and that no change is
forgotten between a filesystem event and the round that carries it.

Run `dafny verify dfyconfig.toml` to check everything.

## How the model is laid out

| files | part of the program |
|---|---|
| `Utils`, `Bytes`, `Model`, `Paths` | machine arithmetic, byte strings and their order, entries and versions, ancestors of paths |
| `Merge`, `Compose`, `MergeLaws`, `Components`, `ThreeWay` | the line-based three-way merge (`src/merge.rs`) |
| `Reconcile`, `PlanLaws` | reconciling two record lists into a plan (`src/reconcile.rs`) |
| `Versions`, `History`, `Scan`, `ScanLaws` | how versions come to be, over every history of two replicas |
| `Heads`, `ExchangeLaws` | the exchange of acknowledged heads at the end of a round |
| `RoundBudget`, `RoundMerges`, `Materialize`, `MaterializeLaws`, `AbsorptionLaws` | the merges of one round, their budget, and what they do to a plan |
| `Validate`, `ValidateLaws`, `AcceptedLaws`, `RoundLaws`, `RoundRuns` | the responder's two checks of a materialized plan, and the rounds of every history |
| `Install`, `InstallLaws`, `InstallEnds` | installing one record, restartable after a crash |
| `ApplyOrder`, `Ignoring`, `ApplyLaws` | applying a whole plan to a directory tree, some of it ignored |
| `Deferral` | deferring paths that keep changing |
| `Reservation`, `ReservationLaws`, `ReservationGuards`, `Permits`, `PermitLaws` | the reservation handshake and the permits of many installations |
| `Transfer` | batches of objects and their receipts |
| `Watch`, `WatchLoops` | watch generations, the debounce and the loops around them |
| `Calendar` | dates and timestamps of log lines |

Code that changes variables step by step is a method or a class whose contract ties it to
a function; the theorems are lemmas about those functions. Protocols between two peers,
and callbacks beside a loop, are state machines whose steps interleave freely: a lost
message, a timeout or an error is a step at which an endpoint stops.

What the program takes from outside is a parameter with a contract: the line diff (its
script tiles both files, equal ranges are equal, and a file against itself has no change;
`Merge.TrivialDiff` shows the contract can be met), the UTF-8 check, the content hash, the
stored objects, the signature of a record (it fills in the authenticators and nothing
else; `Versions.SomeSigner` is one) and the counter of a share (every number is larger
than the ones before).

## What was found

* **A deletion can lose an edit** (`InstallLaws.DeletionCanLoseAnEdit`). When a deletion
  was rolled back and the process stopped before the intent was retired, the next run
  stages its marker again under a phase that already says *owned*. If it stops while the
  marker is half written, and the run after that stops between its two exchanges, the run
  after that moves the half-written marker back over the edited file and removes the file.
  `InstallLaws.SurvivesIff` gives the exact condition over all histories of stopped runs:
  what was found is kept at every moment, until a run that was told to expect it lets it
  go, if and only if no run starts with it exchanged for a half-written marker and gets as
  far as its third effect.
* **A deletion can leave its half-written marker behind** (`InstallLaws.MarkerCanBeLeft`).
  When a run goes on from such a marker, is told to expect the file it finds, and stops
  right after it has removed that file, the marker stands at the target and nothing at the
  temporary. No later run recognizes it (`InstallLaws.MarkerStays`), and a scan would
  record it as a file of the user. `InstallLaws.MarkerLeftIff` says exactly which runs do
  this. But for such runs and the fatal ones every history is all or nothing
  (`InstallLaws.AllOrNothingIff`); installs always are (`InstallLaws.InstallIsAtomic`).
* **An edit that makes the target equal to the record** while a temporary of an
  interrupted run is still there is taken for an interrupted exchange: the target is
  replaced by the temporary (`InstallLaws.EqualEditSurvivesIff`). A run that stopped after
  the first bytes of a new file is enough: `InstallLaws.EqualEditCanBeLost`.
* **An interrupted install can give up for good** (`InstallEnds.InstallCanGiveUpForGood`).
  A run that was rolled back owns its temporary's name; when the next run stops while it
  writes the file there again, the temporary is neither the record nor what was expected,
  and its phase says *owned*. Every later run gives up without changing anything, unless
  it is told to expect exactly what was written (`InstallEnds.HalfWrittenStays`); a
  temporary still *creating* is given up for a new name instead
  (`InstallEnds.InterruptedEnds`). The file found at first is never touched.
* **A watch round gives up on its own finished deletions.** The guard that protects the
  local snapshot looks every path up through its parents, so a deleted path whose
  directory is deleted too counts as changed, although nothing has changed
  (`ApplyOrder.DeletedDirectoryStops`). Deferring all such paths lets the round end
  (`Deferral.DeferralSettles`), and leaves each side its own files there
  (`Deferral.EndpointsConverge`).
* **A plan need not be a tree.** When one side deletes a directory and the other puts a new
  file into it, the plan keeps the deletion and the file: it stops at the side of the file,
  while the other side makes the directory again (`ApplyOrder.NewChildBlocks`). On an
  undisturbed disk a plan is applied to exactly what it wants if and only if that is a tree
  and there is no deletion as above (`ApplyOrder.PlanApplies`).
* **A recorded path that becomes a pipe, a socket or a device loses its record without a
  tombstone** (`Scan.ScanShare`): the scan neither records nor misses it, so the peer's
  record alone decides about the path.
* **A stored base need not have been held by both replicas at one moment**
  (`ExchangeLaws.BaseCanBeStoredApart`): the connector stores it even when the responder
  has given up waiting. It was held by the responder at its offer and by the connector at
  its answer, and by both at the answer unless the responder had left and then scanned,
  installed or dropped that path (`ExchangeLaws.AckedWasHeld`).
* **A whole-file winner is kept as it was**, so it has not seen the loser, and the same
  conflict is reported again until a later version settles it (`PlanLaws.ReportedAgain`).
  A materialized merge has seen both inputs and is reported once
  (`AbsorptionLaws.MaterializedAbsorption`).
* **Which of two unusable inputs a merge complains about** depends on the order of the
  sides, and nothing else does (`ThreeWay.MergeSwap`).

## Model

| member | source | states |
|---|---|---|
| Merge.Lines | src/merge.rs:95-108 | the loop cuts bytes into exactly the lines of `LinesOf`: each ends with its newline but perhaps the last, none is empty, and together they are the input |
| Merge.LinesUnique | src/merge.rs:95-108 | a byte string has one list of lines only |
| Merge.EditsRewrite | src/merge.rs:110-137 | dropping equal operations and splitting equal-length replacements line by line leaves a script that still rewrites the base into the side |
| Merge.NoChangeNoEdits | src/merge.rs:110-137 | a script of equal operations gives no edits |
| Merge.EditsLineByLine | src/merge.rs:110-137 | every edit of a script is a changed operation of it, or one line of one whose two ranges are equally long |
| Merge.RewritesOrdered | src/merge.rs:110-137 | edits that rewrite base into side are in range and in strict base order |
| Compose.Append | src/merge.rs:265-282 | appends lines one by one and fails exactly when the whole would pass the output limit |
| Compose.Render | src/merge.rs:232-257 | renders one side of a segment: base gaps and the side's own lines, or the output limit |
| Compose.CollectGroup | src/merge.rs:162-189 | the nested loops collect the group that `Grow` describes, taking each side's joining edits in turn; which edits belong together is stated on their ranges by `Components.CellsAreComponents` |
| Compose.GroupIsLeast | src/merge.rs:162-189 | the collected group is the least closed one: it covers its edits, no further edit joins it, and every closed group contains it |
| Compose.GroupUnique | src/merge.rs:162-189 | there is one such group only, whatever order its edits are taken in |
| Compose.GroupBounds | src/merge.rs:139-222 | every pass takes an edit, stays inside base and sides, and leaves only later edits |
| Compose.SettleGroup | src/merge.rs:191-214 | renders both sides of a group, picks a text and records a hunk, or fails on a limit |
| Compose.TakeGroup | src/merge.rs:153-216 | the body of the outer loop is one step of `ComposeGroup` |
| Compose.ComposeSides | src/merge.rs:139-222 | the whole loop computes `ComposeFrom` from the start of the files |
| Components.CellsAreComponents | src/merge.rs:151-230 | the cells with edits are exactly the connected components of the edits, where two edits are connected when they start at one line or their base ranges share a line; the collision is stated on the ranges alone |
| Components.SharedCellCollides | src/merge.rs:224-230 | a cell with edits of both sides holds one of each that start together or overlap |
| Components.ApartSidesMerge | src/merge.rs:139-222 | when no edit of one side collides with one of the other, every cell has the base text on at least one side, so that no hunk arises |
| MergeLaws.CellsPartition | src/merge.rs:139-222 | gaps and groups cut the base without gap or overlap, and every edit of either side lies in exactly one of them, in order |
| MergeLaws.SideColumn | src/merge.rs:139-247 | the texts of one side's cells, put together, are that side |
| MergeLaws.SettleIsRule | src/merge.rs:191-214 | a group resolves to the three-way choice and records a hunk exactly when both sides differ from the base and from each other |
| MergeLaws.ComposeIsFold | src/merge.rs:139-222 | composing is resolving the cells one after the other |
| MergeLaws.FoldIsOutput | src/merge.rs:139-222 | a successful merge is the chosen text of every cell, with one hunk per contested cell |
| MergeLaws.FoldFailures | src/merge.rs:272-299 | with room for both sides the only failure is the number of hunks |
| MergeLaws.HunksIncrease | src/merge.rs:284-299 | hunks are reported in base order and do not overlap |
| MergeLaws.FoldSwap | src/merge.rs:139-222 | swapping sides and winner changes nothing but the hunks' columns |
| MergeLaws.UneditedSide | src/merge.rs:191-196 | where a side has no edits every cell has the base text on that side |
| MergeLaws.EqualSides | src/merge.rs:198-202 | equal sides have equal cells |
| ThreeWay.MergeFiles | src/merge.rs:48-65 | the merge: admission checks, two edit scripts, composition |
| ThreeWay.WorkFits | src/merge.rs:84-93 | within the line limits the checked arithmetic cannot overflow |
| ThreeWay.CellsPartitionFiles | src/merge.rs:48-65 | the cells of a merge partition the base file, and their columns are the three files |
| ThreeWay.MergeCorrect | src/merge.rs:48-222 | a merge is refused at admission, or for more than the limit of contested cells, or is the three-way choice in every cell; the output limit is never the reason |
| ThreeWay.MergeLimits | src/merge.rs:272-299 | a successful merge keeps the output and hunk limits |
| ThreeWay.AdmittedIff | src/merge.rs:67-93 | a merge is admitted if and only if every file is text of few enough lines and the work is within its limit, each said of the bytes |
| ThreeWay.RefusalIsTrue | src/merge.rs:67-93 | each reason of refusal is true of the files it names |
| ThreeWay.MergeComesTo | src/merge.rs:191-214 | an admitted merge within the hunk limit is, cell by cell, the text of the side that alone changed it, or of the winner, with a hunk exactly where both changed it differently and the ranges and texts of both |
| ThreeWay.MergeUnchangedA | src/merge.rs:48-65 | merging an unchanged first side gives the second side, without hunks |
| ThreeWay.MergeUnchangedB | src/merge.rs:48-65 | merging an unchanged second side gives the first side, without hunks |
| ThreeWay.MergeAgreement | src/merge.rs:48-65 | merging two equal sides gives that side, without hunks |
| ThreeWay.MergeSwap | src/merge.rs:48-65 | with sides swapped and the winner negated a merge gives the same bytes or refusal with swapped hunks, if and only if the two sides are not refused for different reasons of their own |
| Model.LwwAntisymmetric | src/model.rs:268-273 | last-write-wins is antisymmetric and ties only versions of one identity and time; its direction is `PlanLaws.LastWriterWins` |
| Model.LwwTransitive | src/model.rs:268-273 | last-write-wins is transitive |
| Model.RememberSees | src/scan.rs:465-473 | remembering a version adds exactly the sight of it and of its predecessors |
| Versions.RememberKeeps | src/scan.rs:465-473 | a version that is known or surpassed changes nothing, a later one takes the place of the one before it, and a new peer comes last |
| Reconcile.CanonicalSwap | src/reconcile.rs:199-212 | the canonical order of a conflict's inputs does not depend on which came first |
| Reconcile.ConflictRemembers | src/reconcile.rs:32-98 | a conflict gives back the winner and the loser it was made from |
| Reconcile.DecideSymmetric | src/reconcile.rs:131-191 | the two peers judge a pair of versions alike if and only if the pair is comparable |
| Reconcile.ReconcileRecords | src/reconcile.rs:123-197 | the loop over the sorted paths builds `PlanOf`; which version that is at each path is `PlanLaws.PlanPrevails` |
| Reconcile.PlanCovers | src/reconcile.rs:123-197 | the plan has one record per path of either side, in path order, each the decision of its path |
| Reconcile.PlanSymmetric | src/reconcile.rs:123-212 | swapping the sides gives the same plan, conflict order, canonical inputs and winner indices included, if and only if every shared path holds a comparable pair |
| Bytes.LessIff | src/reconcile.rs:123-128 | the byte order of paths and peers is decided by the first byte that differs, a prefix coming first |
| PlanLaws.LastWriterWins | src/reconcile.rs:131-191 | of two versions that have not seen each other the later time wins, and at one time the peer that is later in byte order |
| PlanLaws.PlanPrevails | src/reconcile.rs:123-197 | at every shared path the plan holds the version that knows the other, or the later one; at any other path the only one |
| PlanLaws.DecideReports | src/reconcile.rs:146-186 | exactly which pairs are a merge candidate, a whole-file conflict with which reason, a destructive conflict, or nothing, in terms of what the versions know |
| PlanLaws.ReportIs | src/reconcile.rs:199-212 | a conflict is about the winner's path, without base, merge or hunks, and has both versions in the order of their identities |
| PlanLaws.NothingLostAtPath | src/reconcile.rs:131-191 | a file version that lost without having been seen is an input of exactly one conflict or candidate, together with the winner |
| PlanLaws.PlanAt | src/reconcile.rs:123-197 | all a plan says of a path is the decision of that path |
| PlanLaws.NothingLost | src/reconcile.rs:123-197 | no silent loss over whole plans |
| PlanLaws.Absorption | src/reconcile.rs:123-197 | reconciling a side with the plan's records returns them, and reports nothing that was not reported |
| PlanLaws.ReportedAgain | src/reconcile.rs:131-191 | exactly what is reported again at a path of that side |
| Versions.SequenceSource.Next | src/scan.rs:283-347 | a fresh number is larger than all before |
| Versions.RememberInto | src/sync.rs:3223-3239 | the loop over a version's sight and identity computes `RememberVersion` |
| Versions.RememberVersionSees | src/sync.rs:3223-3239 | afterwards exactly what was remembered, what the version had seen and the version itself are seen |
| Versions.MergedSees | src/sync.rs:2775-2797 | a merged version has seen what its inputs had seen, and its inputs, and no more |
| Versions.MergedInPeerOrder | src/sync.rs:3223-3239 | what a merged version has seen is listed strictly in the order of the peers |
| History.StepKeeps | src/scan.rs:283-347 | every scan, drop, plan, merge, apply and head-exchange step of two replicas keeps the causal invariant |
| History.RunKeeps | src/main.rs:8046-8220 | so does every run |
| History.SightIsOneWay | src/reconcile.rs:131-169 | in every reachable world no two differently identified versions of a path have seen each other, and one identity is one version |
| History.RecomputedPlanIsTheSame | src/main.rs:6186-6190 | in every reachable world the responder, which swaps the sides, computes the connector's plan |
| History.MergeIsAbsorbed | src/sync.rs:2775-2808 | a merge made in a round meets either of its inputs without a conflict |
| History.BasesAreGenuine | src/reconcile.rs:158-169 | a version's base was acknowledged and has been seen by it, so the two sight guards never fail on equal bases |
| Scan.ScanPath | src/scan.rs:283-311 | an entry equal to the recorded one keeps its version; any other gets a new one: of this replica, under a higher number, with the time of the entry, signed, knowing exactly the version it replaces and what that knew, and with the base both peers acknowledged or the one it inherits |
| Scan.ScanEntries | src/scan.rs:228-313 | the walk decides the found entries in order, as a run of the history's scan steps, and passes over special files |
| Scan.ScanMissing | src/scan.rs:314-347 | a recorded path that was not found keeps its tombstone, keeps its record if it exists on disk, and otherwise gets a tombstone that knows exactly the version it deletes and what that knew, made at the time of the scan and without a base |
| Scan.DropSpecial | src/state.rs:6425-6469 | storing a scan removes exactly the records of the special files |
| Scan.ScanShare | src/scan.rs:171-384 | a whole scan is a run of the history, its list is the replica's records, and a recorded path keeps a record exactly when it was not found as a special file |
| ScanLaws.PeerFollows | src/scan.rs:283-347 | a peer that still holds the version a scan replaced takes the new one, edit or deletion, without a conflict or a candidate, whichever side reconciles |
| ScanLaws.AcknowledgedEditsMerge | src/scan.rs:290-300 | edits of both sides of a file they acknowledged become one merge candidate on that file and no conflict, and the later edit is the winner |
| Heads.AckAcceptedIff | src/sync.rs:1450-1466 | an acknowledgement is accepted if and only if it is a strictly sorted list of regular files each equal to the responder's record |
| Heads.IntersectIsAgreement | src/sync.rs:1437-1448 | the intersection is exactly the regular files both sides record identically, strictly sorted |
| Heads.IntersectFromHeads | src/main.rs:8191-8196 | the connector, which sees only the responder's heads, finds the same agreement, and so would the responder |
| Heads.AcknowledgementAccepted | src/main.rs:6274-6282 | the responder never rejects the intersection the connector sends |
| ExchangeLaws.AnswerIsAgreement | src/main.rs:8191-8196 | the connector answers the heads it was sent with exactly the regular files both list, and the answer passes the responder's check |
| ExchangeLaws.ExchangeKeeps | src/state.rs:4596-4649 | with scans, installs and drops in between, a waiting responder still has what it offered, and the connector has stored exactly the answer |
| ExchangeLaws.HeadsAreNeverRefused | src/main.rs:6279-6282 | in every reachable world the connector can answer an offer, and the responder accepts the answer |
| ExchangeLaws.AckedWasHeld | src/main.rs:8191-8196 | every base ever stored was held by the responder at its offer and by the connector at its answer; both held it at that moment if the responder still waited, and exactly unless a scan, install or drop of the path after it left took it away for good |
| ExchangeLaws.FinishedExchangeAgrees | src/main.rs:6279-6289 | a finished exchange leaves both replicas with the same heads, and one moment found the version of every one of them at both |
| ExchangeLaws.BaseCanBeStoredApart | src/main.rs:8191-8196 | a concrete run stores a base that no moment finds at both replicas |
| RoundBudget.ComputeMergeOutcomes | src/sync.rs:3055-3132 | the loop over candidates computes the outcomes under the shared budget, or stops with the same error |
| RoundBudget.MergeCandidateStep | src/sync.rs:3065-3131 | one candidate under what is left of work, hunks and output; what its outcome has to do with the three files is `RoundMerges.OutcomesAreTrue` |
| RoundBudget.RoundBudgetHolds | src/sync.rs:3065-3131 | over any candidate list the accepted merges stay within count, work, hunk and byte limits, each within the merge's own limits, and after one refusal for the budget every later outcome is that refusal |
| RoundMerges.OutcomesAreTrue | src/sync.rs:3065-3131 | every outcome is the three-way merge of the bytes of base, winner and loser in which the winner takes what is contested, under the hash of its bytes and with the winner's mode, or a refusal that is true of these files |
| RoundMerges.AcceptedComesTo | src/sync.rs:3105-3131 | an accepted merge is, cell by cell, the winner's text where both changed it, with the winner's text in the hunk's first column |
| RoundMerges.RefusedIff | src/sync.rs:3067-3131 | the first refusal for the budget comes exactly where a candidate does not fit into what those before it left |
| RoundMerges.OutcomesAreComputed | src/sync.rs:3055-3066 | the outcomes are computed for candidates in path order when every one that counts is too large or can be read |
| RoundMerges.MergedRecordIs | src/sync.rs:2780-2801 | the record of an accepted merge, field by field |
| Materialize.MaterializeMerges | src/sync.rs:2775-2813 | the loop replaces candidate after candidate and sorts the conflicts, drawing one increasing number per merge |
| MaterializeLaws.PlanWellShaped | src/reconcile.rs:123-197 | a reconciled plan has unique paths, strictly ordered conflicts and candidates, and at a candidate's path the winner and no conflict |
| MaterializeLaws.MaterializedView | src/sync.rs:2775-2819 | a well-shaped plan can always be materialized, and then says at each path a candidate's outcome or what it said before |
| MaterializeLaws.ConflictListsEqual | src/sync.rs:3216-3219 | a sorted conflict list is determined by what it holds at each path |
| AbsorptionLaws.MergeSettles | src/sync.rs:2775-2808 | a materialized merge meets either input without a conflict |
| AbsorptionLaws.MaterializedAbsorption | src/sync.rs:2775-2813 | reconciling either side with the materialized plan returns its records, reports no new conflict, and offers again only candidates that fell back |
| AbsorptionLaws.RoundsAreAbsorbed | src/main.rs:8100-8103 | so it is in every reachable world of two replicas |
| Validate.ValidateShape | src/sync.rs:2837-2981 | the checks of records, numbers, bytes, candidates and conflicts decide `ShapeOk` |
| Validate.VerifyMaterialized | src/sync.rs:2983-3039 | recomputing the outcomes and comparing candidate by candidate decides `Verified` |
| ValidateLaws.AcceptedAgrees | src/sync.rs:2837-3039 | soundness: an accepted plan is, path by path, the deterministic materialization up to fresh numbers and authenticators |
| ValidateLaws.AgreesAccepted | src/sync.rs:2837-3039 | completeness: every such plan is accepted |
| ValidateLaws.AcceptedIffAgrees | src/sync.rs:2837-3039 | the two checks together accept exactly those plans |
| ValidateLaws.MaterializedAgrees | src/sync.rs:2775-2813 | what the connector materializes is such a plan |
| ValidateLaws.ConnectorIsAccepted | src/main.rs:6186-6233 | whatever the connector materializes from comparable snapshots, the responder, which reconciles the other way round, accepts |
| RoundLaws.GreatestIsOld | src/sync.rs:2855-2867 | in every reachable world the numbers a plan knows of a replica stay within that replica's counter |
| RoundLaws.RoundsAreAccepted | src/main.rs:6186-6233 | after every run of two replicas, what either of them materializes with fresh numbers the other accepts, reading from its own store |
| RoundLaws.MaterializedLosesNothing | src/sync.rs:2775-2819 | no silent loss in the materialized plan: a file version its record neither keeps, has seen nor equals is an input of the only conflict of its path, and so are both inputs of a merge with overlaps |
| RoundLaws.RoundsLoseNothing | src/main.rs:8100-8104 | so it is in every reachable world, whichever replica connects |
| ValidateLaws.AcceptedAlike | src/sync.rs:2837-3039 | any two accepted plans hold the same records but for numbers and signatures, and as many conflicts, at every path |
| AcceptedLaws.AcceptedMeans | src/sync.rs:2837-3039 | whatever is accepted holds at every candidate's path the outcome the responder computes itself: the merged file as a version of the connector that knows both inputs and what they knew, under a number of its own above every number known of the connector, reported exactly when it has overlaps; or the winner with the reason it was kept whole; and every other path is as reconciled |
| AcceptedLaws.MaterializedMeans | src/sync.rs:2775-2819 | what the connector materializes holds that too |
| AcceptedLaws.ShapeMeans | src/sync.rs:2868-2951 | the first check alone, before any contents are looked at: every reconciled record is unchanged, or the winner of a merge that fell back, or a fresh signed version of the connector of the winner's mode and at most the permitted size |
| AcceptedLaws.ShapeLimits | src/sync.rs:2837-2981 | it also bounds the bytes of all merges of a round, keeps their numbers apart, and allows a candidate one report at most, with its base and both its versions |
| AcceptedLaws.BytesAdd | src/sync.rs:2935-2943 | the bytes of the proposed merges add up, each counted once |
| RoundRuns.RoundIsRun | src/sync.rs:2775-2819 | a round is a run of the history: planning path after path with the numbers drawn comes to exactly the materialized plan, and changes nothing else |
| Install.Installer.ApplyRecordNow | src/sync.rs:2229-2368 | performs, effect by effect, exactly the effects of `ApplyRecord`, with its outcome |
| Install.Installer.ApplyNow | src/sync.rs:2051-2077 | one turn of the apply loop: skip, rotate, announce, install |
| Install.Installer.RecoverTombstoneNow | src/sync.rs:2370-2398 | the effects of recovering an interrupted deletion |
| Install.Installer.RecoverDisplacedNow | src/sync.rs:2421-2445 | the effects of recovering an interrupted exchange |
| Install.Installer.AtomicInstallNow | src/sync.rs:2453-2504 | the effects of exchange, verification and rollback |
| Install.Installer.DeleteNow | src/sync.rs:2330-2365 | the effects of a deletion with its rollback |
| Install.Installer.ResumeNow | src/sync.rs:2259-2291 | what a run does with a temporary it finds |
| Install.Installer.WriteTemp | src/sync.rs:2304-2313 | a staged file grows byte by byte, so a crash can leave any prefix |
| InstallLaws.ApplyGood | src/sync.rs:2229-2504 | one run from any slot earlier runs can leave: every effect is safe, applied means the record is at the target and the temporary name is free, invalidated or failed means the found entry is back |
| InstallLaws.StoppedSafe | src/sync.rs:2229-2504 | stopping a run anywhere leaves a safe slot, but for the half-written marker of a re-staged deletion |
| InstallLaws.InstallIsAtomic | src/sync.rs:2229-2328 | for a record that is no deletion, at every moment of every history of stopped runs, what was found is kept or the record is in place with the temporary free |
| InstallLaws.CrashSafe | src/sync.rs:1735-1800 | any number of runs stopped anywhere, each told to expect any entry, leave a slot from which what was found can be recovered, until a run that was told to expect it lets it go; the one fatal kind of run is excepted |
| InstallLaws.SurvivesIff | src/sync.rs:2229-2504 | over every history of stopped runs, what was found is at every moment kept or let go of by a run told to expect it, if and only if no run before that is fatal |
| InstallLaws.AllOrNothingIff | src/sync.rs:2229-2504 | over every history, what was found is at every moment kept, or let go of and replaced by the record or by the whole marker of a deletion, if and only if no run is fatal and none leaves its half-written marker |
| InstallLaws.AppliedIsTrue | src/sync.rs:2229-2504 | from any slot at all, a run that says it applied the record has put it at the target and freed the temporary |
| InstallEnds.AppliedStands | src/sync.rs:2229-2504 | what stands at the target then, by kind: nothing, a directory, the link, or a file of the record's hash and mode |
| InstallEnds.FreshEnds | src/sync.rs:2229-2328 | a run that finds nothing staged has nothing to do, or ends exactly as comparing what is there with what was expected says, with what was there kept unless it applied the record |
| InstallEnds.WrongSizeFails | src/sync.rs:2307-2310 | a stored object of another size than the record says is never staged: the run fails and what was there stays |
| InstallEnds.InterruptedEnds | src/sync.rs:2255-2291 | a run that finds the temporary of an interrupted one ends as a first run would when that is whole, gives one still being created up for a new name, and otherwise leaves an owned one, or removes it when it was expected |
| InstallEnds.ExchangedEnds | src/sync.rs:2370-2445 | a run that finds the exchange done lets the displaced entry go exactly when it is what was expected and can be removed, and else puts it back; a full directory of a deletion stays |
| InstallEnds.InstallCanGiveUpForGood | src/sync.rs:2272-2291 | a concrete history after which every run gives up with nothing changed, unless it expects what was written |
| InstallLaws.NothingLostInstalling | src/sync.rs:2229-2504 | without a fatal run, what was found is at the target or the temporary until a run told to expect it lets it go, and the last run's outcome is true: applied means the record is in place and nothing unexpected was removed, otherwise what was found is back; deletions of directories in use are excepted where they fail |
| InstallLaws.TornRun | src/sync.rs:2330-2365 | left alone, a run that finds a half-written marker still ends well |
| InstallLaws.DisplacedSurvivesIff | src/sync.rs:2249-2254 | with the found file at the temporary of a deletion, the next run keeps it if and only if the whole marker stands at the target |
| InstallLaws.DeletionCanLoseAnEdit | src/sync.rs:2330-2349 | a concrete history of three crashes that loses a file no run was told to expect |
| InstallLaws.MarkerLeftIff | src/sync.rs:2338-2366 | exactly which runs leave a half-written marker at the target |
| InstallLaws.MarkerStays | src/sync.rs:2345-2355 | every later run gives up and leaves it there, unless it is told to expect the marker |
| InstallLaws.MarkerCanBeLeft | src/sync.rs:2338-2366 | a concrete history without a fatal run that leaves the marker behind |
| InstallLaws.EditIsAdopted | src/sync.rs:2255-2258 | an edit between runs becomes what the install preserves, unless it equals the record while a temporary exists |
| InstallLaws.EqualEditSurvivesIff | src/sync.rs:2421-2445 | in that case the target survives if and only if the temporary is what was expected |
| InstallLaws.PrefixReplacesEdit | src/sync.rs:2255-2258 | after a stop at any byte of staging a new file, the next run replaces such an edit by the prefix staged so far |
| InstallLaws.EqualEditCanBeLost | src/sync.rs:2421-2445 | a concrete history from a pending slot in which an edit that no run was told to expect is lost |
| ApplyOrder.Disk.ApplyRecord | src/sync.rs:2229-2248 | one record: missing parents are made, a matching entry is left alone, a recorded one is replaced unless it is a directory in use |
| ApplyOrder.Disk.ApplyUnlessGuarded | src/sync.rs:2039-2062 | a record of the local snapshot is only looked for, through its parents, and anything else is applied |
| ApplyOrder.Disk.ApplyPlan | src/sync.rs:1966-2147 | a plan is refused untouched when an ignored record collides; otherwise the loop applies what is taken of it in order, without ignored and retained records and under the snapshot guard, up to the first that stops, and leaves the tree of `LeftBy` |
| Ignoring.IgnoredIsUntouched | src/sync.rs:1997-2025 | whatever the disk holds at an ignored path stays, and at most a missing directory is made there |
| Ignoring.VisiblePlanApplies | src/sync.rs:1966-2147 | with ignored records a plan is applied to the end, to exactly what is kept, if and only if none collides, what is kept is a tree, and the deletions in the snapshot can be found |
| ApplyLaws.PlanRefusedIff | src/sync.rs:1966-1975 | a plan is refused exactly when it brings a new record for an ignored path at which something stands or above which a file is in the way |
| ApplyLaws.RecordedAfterwards | src/sync.rs:1989-2019 | what is recorded afterwards, path by path: the plan's record where it is not ignored and not a deletion of the unknown, and an ignored record as it was |
| ApplyOrder.OrderedMembers | src/sync.rs:1990-2032 | the accepted records that are not retained, sorted by kind and depth |
| ApplyLaws.AppliedInOrder | src/sync.rs:2025-2032 | deletions come first and the deepest first among them, then directories, then the rest, and among those the shallowest first; level records keep the plan's order |
| Paths.DepthCounts | src/sync.rs:2026-2027 | the depth of a canonical path is one more than the number of its ancestors |
| ApplyOrder.ParentsReady | src/sync.rs:2025-2032 | when a record's turn comes every ancestor is a directory already |
| ApplyOrder.DisplacedIsEmpty | src/sync.rs:2025-2032 | when a record's turn comes the directory it removes or displaces is empty |
| ApplyOrder.PlanApplies | src/sync.rs:2018-2147 | a plan that covers what is recorded in a well-formed tree is applied to the end, without making a parent and leaving exactly the tree it wants, if and only if everything it wants lies in directories it wants and no deletion of the snapshot lies in a missing directory |
| ApplyOrder.PlanEndsOrStops | src/sync.rs:2057-2078 | where such a deletion is all that stands in the way, the round is given up as changed |
| ApplyLaws.SnapshotIsLookedAt | src/sync.rs:2039-2062 | records of the local snapshot are only looked for: nothing changes, and the round is given up as soon as the disk does not show one |
| ApplyLaws.StoppedPlanIsHalfway | src/sync.rs:2035-2147 | a round that is given up has applied a beginning of its records, and every path holds what was recorded or what is wanted there |
| ApplyLaws.MadeAreParents | src/sync.rs:2239-2242 | every directory the loop makes is a missing parent of something it applies |
| ApplyOrder.UnguardedPlanApplies | src/sync.rs:1716-1731 | outside a watch round every plan whose tree is well formed is applied to the end |
| ApplyOrder.DeletedDirectoryStops | src/sync.rs:2630-2648 | a watch round over a deleted directory with a deleted entry, and nothing to do, is given up |
| ApplyOrder.NewChildBlocks | src/sync.rs:2350-2363 | when one side deletes a directory and the other puts a new file into it, the plan stops at the other side, and the first side makes the directory again |
| ApplyOrder.StepIsInstall | src/sync.rs:2229-2504 | the step on the tree succeeds, finds a change or fails exactly when a fresh run of the install protocol does, leaves at the target what that leaves, and otherwise what was there |
| Deferral.ComputeRoot | src/main.rs:7889-7909 | the walk up the ancestors computes the root of a deferred path, which `Deferral.RootIsHighest` says what it is |
| Deferral.ComputeEffectivePlan | src/main.rs:7863-7948 | the plan that remains for one side: the full plan outside the region, the side's own records inside |
| Deferral.RootIsAnchored | src/main.rs:7889-7909 | every proper ancestor of a root is a directory on both sides and in the plan |
| Deferral.RootIsHighest | src/main.rs:7889-7909 | the root is exactly the highest ancestor that does not stay a directory, or the deferred path itself when all of them do |
| Deferral.RegionExactly | src/main.rs:7910-7913 | a path is in the region if and only if it is a deferred path or below one, or is at or below an ancestor of one that does not stay a directory |
| Deferral.RegionClosed | src/main.rs:7910-7913 | the region is closed under descendants |
| Deferral.RegionSymmetric | src/main.rs:7889-7913 | both endpoints, which swap the sides, compute the same region |
| Deferral.EffectiveAt | src/main.rs:7914-7934 | path by path: inside the region what the side has, outside it what the plan says |
| Deferral.EffectiveReports | src/main.rs:7930-7945 | the remaining plan reports exactly the conflicts and offers exactly the candidates outside the region |
| Deferral.EffectiveInOrder | src/main.rs:7914-7945 | the remaining records are strictly in path order, and the conflicts and candidates stand in the plan's order |
| Deferral.DeferralKeepsTrees | src/main.rs:7863-7948 | for any deferred set the remaining plan has unique paths and a well-formed tree when the side and the plan have |
| Deferral.DeferredPlanApplies | src/main.rs:8163-8171 | it is applied to the end, in order, on that side's disk, if and only if it describes a tree and no deletion it leaves as it is lies in a missing directory |
| Deferral.DeferralSettles | src/main.rs:7910-7934 | once every such deletion is deferred, none stands in the way |
| Deferral.EndpointsAgreeOutside | src/main.rs:8104-8105 | outside the region both endpoints are left with the same records, and with the same conflicts and candidates |
| Deferral.EndpointsConverge | src/main.rs:8163-8171 | after both endpoints have applied, their trees are equal outside the region and their own inside, and equal everywhere when nothing is deferred |
| Deferral.AcceptedIff | src/main.rs:7816-7819 | an invalidation is accepted if and only if it names a path of the plan outside the region, so one not deferred yet |
| Deferral.InvalidationCycle.ObservePath | src/main.rs:7798-7809 | the first invalidation asks for another try, later ones defer their path |
| Deferral.EachRoundDefersOne | src/main.rs:7965-7989 | the deferred paths are exactly those of the invalidated rounds after the first, all different |
| Deferral.CycleIsBounded | src/main.rs:7965-7989 | with paths from a finite set a cycle has at most one invalidated round more than there are paths |
| Deferral.Lockstep | src/main.rs:8149-8157 | with honest reports the endpoints begin every round with equal cycles and no report is refused |
| Deferral.CyclesStartAfresh | src/main.rs:7785-7809 | both cycles are what was observed since the last completed round, and nothing before it |
| ReservationLaws.RunKeeps | src/main.rs:3970-4359 | in every interleaving of both endpoints, progress frames, failed commits and stops, the joint invariant holds |
| ReservationLaws.ReservationIsSafe | src/main.rs:4130-4147 | when the higher peer is done the authority accepted the same identity, order, nonce and generations, both permits were held at one instant, and no handshake frame is left in a channel |
| ReservationLaws.ConnectorIsHonoured | src/main.rs:4175-4209 | the authority accepts the identity and generations the connecting peer chose |
| ReservationLaws.NothingIsRefused | src/main.rs:4043-4135 | no endpoint refuses a frame of an honest peer; a handshake fails only by a stop or a failed commit |
| ReservationLaws.ResetsAreBounded | src/main.rs:3764-3772 | the reset counters differ by at most one, the loop of preparations runs at most nine times, and the higher peer never finds too many resets |
| ReservationLaws.LowerPermitFirst | src/main.rs:4330-4335 | while the higher peer waits for its permit the authority holds the lower one, unless it has stopped |
| ReservationLaws.CanComplete | src/main.rs:3970-4359 | wherever a run has come while neither endpoint stopped, it can be completed |
| ReservationGuards.HigherFinishesExactly | src/main.rs:4151-4359 | whatever frames arrive, the higher peer is done only after one exact exchange: its submission, the issue and its acknowledgement, at most eight preparations that were each reset on their own checkpoint, and the last preparation, its commit, the reservation, the start and its acceptance, with every frame taken and sent on the issued terms and generations |
| ReservationGuards.AuthorityAcceptsExactly | src/main.rs:3970-4148 | whatever frames arrive, the authority accepts only after that exchange seen from its side, on the terms it issued and the generations it was given |
| Permits.PeerOrderAgrees | src/sync.rs:310-326 | the endpoints agree on who is the authority, exactly one of them |
| Permits.OrderedPeers | src/sync.rs:310-326 | there is an order exactly between two different names of one to 128 letters, digits, hyphens and underscores |
| Permits.RoundTakesBoth | src/main.rs:4104-4115 | a round takes the permits of both peers, that of the one that sorts lower first |
| Permits.PermitIsExclusive | src/main.rs:3886-3905 | an installation's permit is held by one task at a time, in every run |
| Permits.NoCyclicWait | src/main.rs:4104-4115 | with any number of installations and rounds in both directions, no chain of waiting tasks closes |
| Permits.SomeoneMoves | src/main.rs:4104-4115 | while a task is unfinished, some task can go on, in whatever order the queues let waiting tasks through |
| PermitLaws.RoundIsTask | src/main.rs:4330-4335 | a reservation holds and waits for what its endpoints do |
| PermitLaws.StepIsTaskStep | src/main.rs:4104-4115 | every step of the handshake takes the next permit, drops one, or changes neither |
| Transfer.TransferBatchEnds | src/main.rs:4443-4465 | the greedy loop computes `BatchEnds`, or refuses more batches than receipts are allowed |
| Transfer.BatchesAreMinimal | src/main.rs:4443-4465 | the batches partition the list, each keeps both limits or is one object, and no such partition has fewer |
| Transfer.Receiver.TakeObject | src/main.rs:6373-6395 | the receiver's check of an object against order, size, batch boundary and byte limit |
| Transfer.Receiver.TakeBatchEnd | src/main.rs:6396-6405 | the receiver's check of a batch end, and the receipt |
| Transfer.Send | src/main.rs:4743-4810 | sender and receiver together, each with its own byte limit: the transfer is given up before it starts for the sender's limit or its batches, refused exactly beyond the receiver's limit, and otherwise every receipt has the cumulative count and bytes |
| Transfer.AcceptsExactlyTheTransfer | src/main.rs:6373-6405 | the receiver accepts a transfer to its end if and only if it is frame by frame the honest sender's and keeps the receiver's limit |
| Watch.WatchState.RecordChange | src/watch.rs:75-89 | counts a change, or loses the watcher when the count would no longer fit |
| Watch.WatchState.CompleteThrough | src/watch.rs:101-118 | completion under the lock, refused after a loss |
| Watch.GenerationCounts | src/watch.rs:75-99 | until a loss the generation is the number of changes; it is lost exactly when a loss was reported or the count ran out |
| Watch.LossIsSticky | src/watch.rs:91-99 | the first loss stays, whatever is reported later |
| Watch.CompletionIsHonest | src/watch.rs:101-118 | no round completes after a loss; otherwise completion says exactly whether a change is left |
| Watch.Debounce.TakeDue | src/watch.rs:182-193 | takes a due debounce and disarms it |
| Watch.DueIff | src/watch.rs:164-193 | a debounce is due exactly when events were notified and have stopped for the debounce or began a maximum burst ago; a deadline past the end of time is never reached |
| Watch.BurstIsBounded | src/watch.rs:164-180 | the deadline of a burst is at most the maximum burst after its first event, and passes exactly when the events pause or the burst is used up |
| WatchLoops.RespondTurn | src/main.rs:5584-5605 | one turn of the responder's loop is the machine's three steps |
| WatchLoops.TurnIs | src/main.rs:5584-5605 | a turn notes the instant of a wake, advertises the generation it finds when that is new and the events are ripe, and ends after a loss |
| WatchLoops.SaysOnlyWhatIsNew | src/main.rs:5584-5605 | in whatever order things happen, only a ripe timer lets the responder advertise, and only a new generation it has reached |
| WatchLoops.ResponderLosesNothing | src/main.rs:5584-5605 | a generation beyond the advertised one means a queued wake, a callback about to queue one, or an armed debounce |
| WatchLoops.PendingIsAdvertised | src/main.rs:5584-5605 | with quiet callbacks two turns advertise what is pending, the second when the debounce is due |
| WatchLoops.ScheduleTurn | src/main.rs:7681-7700 | one look of the connector's loop is the machine's step |
| WatchLoops.LookIs | src/main.rs:7681-7715 | a look ends the session after a loss, notes the instant of anything new, and starts a round, for all there is, exactly when the events are ripe or an audit is due |
| WatchLoops.ConnectorLosesNothing | src/main.rs:7681-7731 | between rounds an idle debounce means the last completed round covered everything scheduled |
| WatchLoops.ChangeReachesARound | src/main.rs:7681-7731 | a change no completed round covers is noticed at the next look, and a round that starts covers everything there is |
| WatchLoops.DueStartsARound | src/main.rs:7699-7715 | the look that finds the debounce due starts the round |
| Calendar.EpochIsFirst | src/main.rs:8570-8587 | day zero is 1970-01-01 |
| Calendar.SuccessorDay | src/main.rs:8570-8587 | every day, before or after the epoch, has a date, and the next day has the next date of the Gregorian calendar |
| Calendar.DatesRise | src/main.rs:8570-8587 | later days have later dates |
| Calendar.FourDigitYears | src/main.rs:8549-8563 | the year has four digits exactly through the last second of 9999 |
| Calendar.TimestampShape | src/main.rs:8549-8563 | the text has the twenty characters of RFC 3339 section 5.6 exactly through year 9999, with its separators in their places |
| Calendar.TimestampReadsBack | src/main.rs:8549-8563 | through year 9999 the digits are read back as the date of the day and the time of day they were made from |
| Calendar.TimestampsRise | src/main.rs:8549-8563 | through year 9999 the text of a later second sorts later |

## Left out

- SSH processes, sockets, polling, deadlines and progress-rate limits: an endpoint that gives up is a step at which it stops.
- The command line, status and JSON output, service management and the editor client.
- SQLite and the object store: phase changes of an install intent are atomic and durable, a paired commit is a compare-and-swap that may fail, a stored object has the bytes its hash names.
- Hashing, base64, UTF-8 validation, serde encodings and permission bits other than the executable one: parameters or abstracted.
- gitignore matching: which records are ignored is a parameter; for a scan, ignored paths that are recorded are those of `present`. Looking up an ignored path through a symbolic link is taken to find nothing.
- Power loss that reorders unsynced writes: a crash keeps every effect so far and loses every later one.
- Writers racing with an exchange and its rollback.
- Three or more replicas of one share, and legacy records without authenticators (`src/scan.rs:349-375`).
- The order of the directory walk in a scan: the found entries are a list without duplicates.
- Preview of merges, `preview_merges`, and the plan report.
- Validation of remote records against claimed sequence numbers and authenticators in the state layer.
- `ApplyProgressValidator`, the heartbeat, the audit schedule and the retry backoff: an overdue audit is a parameter of a connector's look.
- Merge.EditsRewrite: the diff's script is only assumed to tile both files; that its changes are strictly increasing and minimal is not needed and not assumed.
- One-shot sessions, in which every generation is zero and a responder that is the higher peer refuses any other (`src/main.rs:5255-5312`): the higher peer of the model takes the generations of the issue it answers, as in a watch session.
- Reservation safety says nothing of the authority's own result: it can accept while the higher peer has already stopped.
- WatchLoops.ResponderLosesNothing: serving a round in between two turns is not a step of the machine, since it changes none of its variables.
