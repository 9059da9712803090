# EDM controller verification

A Dafny model of the stateful cores of an EDM motion controller, with proofs of the properties those cores
exist to provide. `dafny verify dfyconfig.toml` checks the whole project.

What is modelled, one group of modules for each component:

- **Alarm versus motion admission** (`AlarmWords`, `AlarmMachine`, `AlarmControl`, `AlarmImage`, `AlarmLedger`,
  `AlarmAdmission`, `AlarmSolo`, `AlarmCalls`, `AlarmBounded`, `AlarmExample`). Every atomic load, store, compare-exchange and fetch operation of `AlarmManager`
  is one step of one of fewer than 2^31 threads that run Trigger, Clear, promotion, admission and the operations of a
  reservation holder in any interleaving. The packed words are records; `AlarmWords` proves that the packing loses
  nothing and that the source's additions and masks act on the words as the model acts on the records. History
  variables (unbounded counters, the arguments of every Trigger call, the sets of calls by where they live and the
  publications since the last clear) are read by no step. The results are global: no lost alarm, image freeze, exact
  quiet interval, exact deferred accounting, and refinement of the shared slot array to a list of publications, each
  with the calls it stands for. Each call also does its work: what it leaves behind when its thread runs alone from
  any reachable state, what can stop a Clear among the others, and wait-freedom: no interleaving and no failing
  compare-exchange makes a call take more than 320 steps of its own.
- **Pause transaction** (`GapPause`, `GapPauseRuns`, `GapPauseProgress`). The 13-phase HOLD / retreat / return /
  resume class, each method tied to a function on its state, and results over every sequence of calls: what every run
  keeps, that machining runs only under an accepted START, and that a pause comes to its end.
- **Retained path** (`Trigonometry`, `RetainedPath`, `RetainedMotion`, `RetainedSharpness`, `RetainedKernel`,
  `RetainedExample`). Station table, geometry check, cursor-to-row search, seam ownership and the span-wise velocity
  bound over exact reals, the kernel that relies on them, and what the checks say about the motion they admit, on
  lines and on arcs: enough to bound it, and no more than that. Sine, cosine and half their period are any three
  values that obey the laws of `Trigonometry.Lawful`: bounds, evenness, quarter and half turns, the fall of the cosine
  over half a turn, and the mean value theorem. Everything else about arcs is proved from these, among it that the
  nine extrema of `MaximumAbsTrig` suffice.
- **Recorders and publication** (`CommTrace`, `SyncHistory`, `SyncHandover`, `AnalogPublisher`, `AnalogBinding`,
  `Seqlock`). Two rings, one of them put in order by three in-place reversals, the passing of a ring between writer
  and reader word by word, running maxima, a word-wise seqlock, clock conversion, A/D numbering and bit extraction.
- **Work time** (`WorkTimer`), **expression recogniser** (`LocalAssignment`), **file save** (`FileSave`), **scaling
  and mirror transitions** (`ScaleMirror`) and **callback gate and drain** (`CoreTimer`).
- `Summation` is the shared theory of sums over threads, `Numbers` holds the source's unsigned integer types, `Reals`
  small facts about exact reals, and `Optional` the value that may be absent.

Objects whose methods update fields are classes here too; each method's postcondition ties the new state to a function
of the old one, and the properties are lemmas about those functions or invariants the methods keep. Protocols between
threads are transition systems with one atomic operation per step.

What the source does that its comments do not say, stated as lemmas:

- `Publisher::Read` before the first `Publish` succeeds and returns zero words that nobody published
  (`Seqlock.ReadBeforePublish`); afterwards every accepted read is the latest complete snapshot.
- `ValidWorkEvidence` is not inductive: from some valid evidence `TriggerWork` changes the record and then returns
  false (`WorkTimer.ValidIsNotInductive`), exactly when the event's work is not earned. From the empty record this
  never happens.
- `CommitScaleMirrorTransition` refuses a prepared candidate exactly when its command clears a leftover centre of an
  axis whose mirror is off (`ScaleMirror.CommitInvertsPrepare`); a valid frozen snapshot has no such centre.
- The per-axis tests that Step makes after a passed ValidateTraversal are not redundant on arcs. The geometry check
  tolerates stored end points off the circle, and the charge does not see that distance: an arc exists on which a step
  is charged exactly its limit, passes, and is then refused with VelocityLimit
  (`RetainedExample.OffCircleStepIsRefused`). The tests never change a step if and only if no stored end point makes
  the way longer than the curves and the charged seams, and every arc's curve begins and ends inside the limits
  (`RetainedKernel.TestsNeverFireExactly`); lines always comply.
- `HasAlarm()` makes two loads, and a promotion between them hides an alarm whose `Trigger` has returned and that was
  never cleared (`AlarmExample.HasAlarmOverlooks`). For a call that had returned and was not cleared a false answer
  has only two causes, that promotion or a writer that carries the call (`AlarmLedger.FalseHasAlarm`).
- With an already-set overflow bit `DeferAlarm` absorbs increments, so the update counter equals the recorded alarms
  and clears only together with the absorbed ones (`AlarmLedger.DeferredAccounting`).

## Model

| member | source | states |
|---|---|---|
| AlarmWords.PackingIsInjective | EtherCAT_Master_RTOS/AlarmManager.h:196-203 | two intent words are equal exactly when sequence, RESERVED bit and active count are |
| AlarmWords.UnpackPack | EtherCAT_Master_RTOS/AlarmManager.h:196-203 | shifting and masking the packed word gives its three fields back |
| AlarmWords.PackedOperations | EtherCAT_Master_RTOS/AlarmManager.cpp:50-62 | the 64-bit additions and subtractions of the source are the record operations while fewer than 2^31 intents are active, and the 2^31st carries into RESERVED |
| AlarmWords.PayloadRoundTrip | EtherCAT_Master_RTOS/AlarmManager.cpp:387-398 | a code 0..65535, any int32 line and an axis -128..127 survive packing and sign-extending extraction |
| AlarmWords.PackedFields | EtherCAT_Master_RTOS/AlarmManager.h:205-218 | the four fields of the deferred word are recovered by the source's masks and shifts |
| AlarmWords.PackedCoalesce | EtherCAT_Master_RTOS/AlarmManager.cpp:406-430 | the desired word DeferAlarm computes by masks is the coalesced record: first payload kept, count saturating into overflow |
| AlarmControl.ControlRun | EtherCAT_Master_RTOS/AlarmManager.cpp:46-152 | in every reachable state the active count is the number of threads in a window, the writer flag has one holder, and RESERVED covers every holder |
| AlarmControl.NoCarry | EtherCAT_Master_RTOS/AlarmManager.cpp:47-53 | the active count never carries into the RESERVED bit |
| AlarmControl.ImageFreeze | EtherCAT_Master_RTOS/AlarmManager.cpp:50-86 | while RESERVED is set no thread that saw it clear is in its window, and only the reservation holder changes slots, count, flag or update counter |
| AlarmControl.ImageWriterUnique | EtherCAT_Master_RTOS/AlarmManager.cpp:578-599 | no two threads are ever among the image stores at once |
| AlarmLedger.LedgerRun | EtherCAT_Master_RTOS/AlarmManager.cpp:382-567 | books, carried units and the location of every Trigger call are kept in every interleaving |
| AlarmLedger.NoLostAlarm | EtherCAT_Master_RTOS/AlarmManager.cpp:46-152 | every Trigger call is cleared, in the image with its publication and its slot, in the nonzero deferred word, carried by a thread that holds an active intent, or still in its own call |
| AlarmLedger.FlagShowsImage | EtherCAT_Master_RTOS/AlarmManager.cpp:578-599 | the alarm flag is set exactly when some call is in the image, and then the alarm count is positive |
| AlarmLedger.HasAlarmExact | EtherCAT_Master_RTOS/AlarmManager.cpp:154-158 | with its two loads at any two moments, HasAlarm is true exactly when some call was in the image at the first or is in the deferred word at the second |
| AlarmLedger.FalseHasAlarm | EtherCAT_Master_RTOS/AlarmManager.cpp:154-158 | when HasAlarm is false, every call made before its first load had been cleared, was still in its own call, was carried by the writer, or was exchanged out of the deferred word between the loads |
| AlarmExample.HasAlarmOverlooks | EtherCAT_Master_RTOS/AlarmManager.cpp:154-158 | a concrete interleaving in which HasAlarm is false although a Trigger has returned and nothing was cleared |
| AlarmLedger.ClearedOnlyFromImage | EtherCAT_Master_RTOS/AlarmManager.cpp:127-146 | a call becomes cleared only by a clear that finds it materialised, made by the holder or under the writer flag with RESERVED clear |
| AlarmLedger.DeferredAccounting | EtherCAT_Master_RTOS/AlarmManager.cpp:496-561 | update advance, pending units, carried units and absorbed increments add up to recorded alarms plus effective clears |
| AlarmLedger.AbsorbedNeedsOverflow | EtherCAT_Master_RTOS/AlarmManager.cpp:427-450 | an increment is absorbed only by a deferral that finds the overflow bit set, and then the word is unchanged |
| AlarmLedger.PromotionPublishesFirst | EtherCAT_Master_RTOS/AlarmManager.cpp:496-561 | promoting a word with a nonzero count publishes the first deferred alarm with all counted units and empties the word |
| AlarmLedger.CoalescingKeepsFirst | EtherCAT_Master_RTOS/AlarmManager.cpp:406-430 | later deferrals leave the first payload of a pending word unchanged |
| AlarmAdmission.QuietInterval | EtherCAT_Master_RTOS/AlarmManager.cpp:256-282 | short of a full sequence wrap the releasing compare-exchange succeeds exactly when no Trigger, Clear or promotion opened an intent since the acquiring one |
| AlarmAdmission.AdvanceIsHolders | EtherCAT_Master_RTOS/AlarmManager.cpp:285-379 | the sequence advances without an intent only by the holder's own ClearUnder and TriggerUnder, and its reservation stays current |
| AlarmAdmission.AcquiredMeansAlarmFree | EtherCAT_Master_RTOS/AlarmManager.cpp:677-720 | ACQUIRED with requireNoAlarm implies that every Trigger call has been cleared or has not executed its first instruction |
| AlarmImage.ImageRefinesLog | EtherCAT_Master_RTOS/AlarmManager.cpp:578-599 | at every moment the readable slots are exactly the first 64 alarms published since the last clear, none torn |
| AlarmImage.ImageHoldsCall | EtherCAT_Master_RTOS/AlarmManager.cpp:578-599 | every Trigger call in the image has its publication, among the first 64 its slot, and unless it was deferred exactly its own code, line and axis there |
| AlarmImage.ClearEmptiesImage | EtherCAT_Master_RTOS/AlarmManager.cpp:139-146 | when the clearing stores are done the count is zero and all 64 slots have their initial value; that a Clear makes them is AlarmSolo.ClearClears |
| AlarmSolo.ClearClears | EtherCAT_Master_RTOS/AlarmManager.cpp:90-152 | from any reachable state with RESERVED and the writer flag clear, a thread that calls Clear and runs alone until it is idle again leaves, if HasAlarm() was true, no flag, count, pending word or filled slot, every visible and pending call cleared and the counter advanced by the pending units and one; if it was false, exactly the state it found |
| AlarmSolo.ClearDecidesOnce | EtherCAT_Master_RTOS/AlarmManager.cpp:94-147 | among any steps of the others a returned Clear was decided at exactly one of its own steps: it emptied the image, or it met a pending word at its first or second test, no alarm, RESERVED, or a busy writer flag |
| AlarmSolo.IdleMeansFree | EtherCAT_Master_RTOS/AlarmManager.cpp:50-86 | when every thread is idle the writer flag is clear and no intent is active |
| AlarmCalls.TriggerShows | EtherCAT_Master_RTOS/AlarmManager.cpp:46-88 | a Trigger alone with RESERVED and the writer flag clear is in the image in its own slot, and everything pending behind it, when it returns |
| AlarmCalls.TriggerWaits | EtherCAT_Master_RTOS/AlarmManager.cpp:55-79 | a Trigger alone against RESERVED or a busy writer flag leaves the image alone and its alarm in the deferred word: first payload kept, count saturating |
| AlarmCalls.BeginAcquires | EtherCAT_Master_RTOS/AlarmManager.cpp:602-720 | with no pending word an admission alone acquires exactly when counter, alarm condition, expected state, active count, RESERVED and writer flag admit it, and changes nothing but the RESERVED bit |
| AlarmCalls.BeginAfterPending | EtherCAT_Master_RTOS/AlarmManager.cpp:602-720 | with a pending word that nothing blocks it publishes that word first and then acquires exactly when no alarm-free start is required and the counter, the word and the active count after the promotion are the expected ones |
| AlarmCalls.BeginBlocked | EtherCAT_Master_RTOS/AlarmManager.cpp:602-720 | with a pending word and RESERVED or the writer flag set it fails and publishes nothing |
| AlarmCalls.EndReleases | EtherCAT_Master_RTOS/AlarmManager.cpp:256-282 | ending an admission alone gives the reservation back whether current or not, and publishes every alarm that waited for it unless another thread holds the writer flag |
| AlarmCalls.ClearUnderClears | EtherCAT_Master_RTOS/AlarmManager.cpp:285-330 | the holder alone clears the image exactly when its reservation is current and there is an alarm, and stays the current holder; otherwise nothing changes |
| AlarmCalls.TriggerUnderShows | EtherCAT_Master_RTOS/AlarmManager.cpp:333-379 | the holder alone publishes its alarm exactly when its reservation is current and was made without requireNoAlarm, and stays the current holder; otherwise nothing changes |
| AlarmBounded.CallsAreBounded | EtherCAT_Master_RTOS/AlarmManager.cpp:382-567 | whatever the others do and however often a compare-exchange fails, a thread still in its call has taken at most 320 steps in it |
| AlarmBounded.EveryCallReturns | EtherCAT_Master_RTOS/AlarmManager.cpp:382-567 | a thread that makes any call from any state and runs alone is idle again |
| GapPause.Transaction.constructor | EtherCAT_Master_RTOS/EDM157GapPause.h:794-804 | a new transaction is the cleared one |
| GapPause.Transaction.Clear | EtherCAT_Master_RTOS/EDM157GapPause.h:486-486 | clearing gives the state of a new transaction |
| GapPause.Transaction.BeginHold | EtherCAT_Master_RTOS/EDM157GapPause.h:534-637 | a HOLD past its guards re-brakes an anchored excursion or captures a new pose; refused it changes nothing; false may follow a changed state when receipts are invalid |
| GapPause.Transaction.BeginResume | EtherCAT_Master_RTOS/EDM157GapPause.h:638-652 | accepted exactly under the guards; returns along the path unless the rest pose is the anchor |
| GapPause.Transaction.RejectStart | EtherCAT_Master_RTOS/EDM157GapPause.h:653-654 | the rejected START fence only rises |
| GapPause.Transaction.PlanRetreat | EtherCAT_Master_RTOS/EDM157GapPause.h:517-528 | a target is planned exactly when one is needed and it lies the frozen jump height behind the anchor |
| GapPause.Transaction.PlanRetreatUnavailable | EtherCAT_Master_RTOS/EDM157GapPause.h:529-533 | a needed plan may be declared unavailable, nothing else |
| GapPause.Transaction.ObservePathMapped | EtherCAT_Master_RTOS/EDM157GapPause.h:760-783 | one image of a path-return HOLD: capture, rest capture, excursion bounds, or rejection |
| GapPause.Transaction.ObserveMapped | EtherCAT_Master_RTOS/EDM157GapPause.h:655-697 | one mapped image: ignored outside a HOLD, rejected, or accepted with the state of its mode |
| GapPause.Transaction.ObserveProof | EtherCAT_Master_RTOS/EDM157GapPause.h:698-733 | one proof: counted only for the latest image one tick after the proof before, otherwise the count restarts or a resume is rejected; where 200 of them lead is GapPauseProgress.StillQualifies |
| GapPauseRuns.RestedStep | EtherCAT_Master_RTOS/EDM157GapPause.h:655-783 | in every zero-output phase the latest image stands still at the rest pose, and resuming, that pose is the anchor |
| GapPauseRuns.ProvedStep | EtherCAT_Master_RTOS/EDM157GapPause.h:698-733 | the counter and last tick are those of the consecutive still images proved since the last reset |
| GapPauseRuns.FencedStep | EtherCAT_Master_RTOS/EDM157GapPause.h:550-654 | every call keeps the fences at or above the accepted sequences |
| GapPauseRuns.ResumeNeedsEvidence | EtherCAT_Master_RTOS/EDM157GapPause.h:641-646 | every accepted BeginResume follows 200 valid proofs at consecutive ticks of images at one still pose, the last at most one tick old |
| GapPauseRuns.RunningOnlyAtAnchor | EtherCAT_Master_RTOS/EDM157GapPause.h:698-733 | Running is entered only by a counted proof of an image with zero velocity and exactly the anchor pose, later than the resume seed |
| GapPauseRuns.SequencesIncrease | EtherCAT_Master_RTOS/EDM157GapPause.h:550-654 | between Clears the accepted HOLD sequences and the accepted START sequences strictly increase |
| GapPauseRuns.StartConsumedOnce | EtherCAT_Master_RTOS/EDM157GapPause.h:643-647 | an accepted START is above every START accepted since the last Clear |
| GapPauseRuns.LastStartRules | EtherCAT_Master_RTOS/EDM157GapPause.h:638-652 | in Returning, ReturnQualifying, Resuming and Running the last accepted START is the resume sequence, above the floor of the latest HOLD |
| GapPauseRuns.RunsOnlyByStart | EtherCAT_Master_RTOS/EDM157GapPause.h:638-733 | whenever a run is in one of these phases a START above the floor of the latest HOLD was accepted, and neither a HOLD nor a Clear came after it |
| GapPauseRuns.HeldAtTargetOrAnchor | EtherCAT_Master_RTOS/EDM157GapPause.h:517-533 | an uninterrupted path-return HOLD is held exactly at the planned target, one jump height behind the anchor, or at the anchor when no retreat was available |
| GapPauseRuns.AnchorIsPermanent | EtherCAT_Master_RTOS/EDM157GapPause.h:618-625 | once captured, the anchor of a path-return HOLD survives every further HOLD, retreat, re-braking and return, and a resume ends exactly on it |
| GapPauseProgress.StillQualifies | EtherCAT_Master_RTOS/EDM157GapPause.h:698-725 | 200 still images with valid proofs take Qualifying with a plan to Retreating, without one as far as no retreat is available to Held, TopQualifying and Requalifying to Held, and ReturnQualifying to Resuming |
| GapPauseProgress.FirstHoldIsTaken | EtherCAT_Master_RTOS/EDM157GapPause.h:534-617 | a cleared transaction takes exactly the HOLDs of a mapped image at most one tick and 1500 us old |
| GapPauseProgress.LaterHoldIsTaken | EtherCAT_Master_RTOS/EDM157GapPause.h:534-617 | after any run exactly the fresh HOLDs with a later sequence, a floor at or above every START seen and the held scope and kind are taken |
| GapPauseProgress.PauseCompletes | EtherCAT_Master_RTOS/EDM157GapPause.h:534-783 | from any state that takes the HOLD, stop, plan, retreat, 200 proofs, START, return, 200 proofs and acknowledgement end in Running under that START at the anchor |
| GapPauseProgress.FirstPauseCompletes | EtherCAT_Master_RTOS/EDM157GapPause.h:534-783 | the same from a cleared transaction for every fresh HOLD |
| GapPauseProgress.UnplannedIsHeld | EtherCAT_Master_RTOS/EDM157GapPause.h:529-533 | without an available retreat a path HOLD is held at the anchor after 200 proofs |
| GapPauseProgress.SecondHoldIsHeld | EtherCAT_Master_RTOS/EDM157GapPause.h:618-625 | a second HOLD in an anchored path pause revokes the START and is held again, with its anchor and its plan, 200 proofs after its stop |
| GapPauseProgress.PlainPauseCompletes | EtherCAT_Master_RTOS/EDM157GapPause.h:655-733 | a HOLD without path return is held where it stopped and runs again under its START |
| GapPauseProgress.BrakingFollows | EtherCAT_Master_RTOS/EDM157GapPause.h:655-783 | while braking any current image in motion is taken; only the first braking follows its pose |
| GapPauseProgress.ExcursionFollows | EtherCAT_Master_RTOS/EDM157GapPause.h:760-783 | on the excursion an image between target and anchor that moves towards the end of its leg changes only the dates, and one that moves away is rejected |
| GapPauseProgress.RestRefusesExactly | EtherCAT_Master_RTOS/EDM157GapPause.h:655-783 | in a zero-output phase an image is rejected exactly when it moves, leaves the rest pose, is not mapped or is older |
| RetainedPath.Path.Copy | EtherCAT_Master_RTOS/EDMCNCRetainedKernel.h:70-70 | a copied path shows the same rows and stations from its own storage |
| RetainedPath.Path.Capture | EtherCAT_Master_RTOS/EDMCNCRetainedPath.h:26-63 | succeeds exactly for sources whose rows pass the geometry, kind, length and connection checks, with their rows and running stations; otherwise the reason is that of the first failing test |
| RetainedPath.OwnerIsUnique | EtherCAT_Master_RTOS/EDMCNCRetainedPath.h:79-93 | every cursor is owned by one row, a seam by the row that ends there |
| RetainedPath.Path.FindRow | EtherCAT_Master_RTOS/EDMCNCRetainedPath.h:82-86 | the search finds the owning row |
| RetainedPath.Path.Evaluate | EtherCAT_Master_RTOS/EDMCNCRetainedPath.h:75-98 | exactly the cursors on the path are evaluated, with the owner's 1-based ordinal, its parameter and the pose |
| RetainedPath.EvaluateAxis | EtherCAT_Master_RTOS/NCPathCoreRetainedPath.cpp:62-119 | the canonical value of one axis of a line, an arc or a combined row, or refusal |
| RetainedPath.Path.ValidateBounds | EtherCAT_Master_RTOS/EDMCNCRetainedPath.h:100-119 | None exactly when every row keeps within limits and travel, else the reason of the first test that fails |
| RetainedPath.MaximumAbsTrig | EtherCAT_Master_RTOS/EDMCNCRetainedPath.h:171-185 | one if a listed extremum lies in the span, else the larger end value; on canonical angles it bounds the sine or cosine on the whole span and is at most one |
| RetainedPath.Path.ValidateTraversal | EtherCAT_Master_RTOS/EDMCNCRetainedPath.h:121-169 | None exactly when both cursors are on the path and every axis's charged velocity is allowed |
| Trigonometry.NineExtremaSuffice | EtherCAT_Master_RTOS/EDMCNCRetainedPath.h:177-183 | between any two angles in [-3 pi, 3 pi] no value of the sine or cosine exceeds the maximum found from the two ends and nine extrema |
| RetainedMotion.ArcIsCanonical | EtherCAT_Master_RTOS/EDMCNCRetainedPath.h:177-178 | every angle of an admitted arc lies in [-3 pi, 3 pi] |
| RetainedMotion.ArcMoves | EtherCAT_Master_RTOS/EDMCNCRetainedPath.h:143-152 | on any part of an arc a coordinate moves at most the radius times the turned angle times the maximum of that part, interior extrema included |
| RetainedMotion.RowSpan | EtherCAT_Master_RTOS/EDMCNCRetainedPath.h:135-157 | along the curve of a row the displacement is at most the charged rate times the cursor span |
| RetainedMotion.ExcessIsTolerated | EtherCAT_Master_RTOS/NCPathCoreRetainedPath.cpp:261-275 | what a stored end point adds to the charged way is at most the tolerance of the geometry check, and nothing on a line |
| RetainedMotion.Displacement | EtherCAT_Master_RTOS/EDMCNCRetainedPath.h:133-161 | over all crossed rows and seams the displacement is at most the charge plus the excess of the row ends used |
| RetainedMotion.TraversalDominates | EtherCAT_Master_RTOS/EDMCNCRetainedPath.h:121-169 | if ValidateTraversal passes, each axis displacement between the two poses obeys the same velocity limit up to the excess of the row ends used |
| RetainedMotion.DominatedExactlyWhenTight | EtherCAT_Master_RTOS/EDMCNCRetainedPath.h:133-161 | the charge is at least the displacement on every span exactly when no row end has an excess |
| RetainedMotion.TraversalSufficesExactlyWhenTight | EtherCAT_Master_RTOS/EDMCNCRetainedPath.h:121-169 | under all limits that Begin admits every passed traversal keeps the velocity limits, if and only if no row end has an excess |
| RetainedMotion.LinesAreTight | EtherCAT_Master_RTOS/NCPathCoreRetainedPath.cpp:99-104 | a path of lines has no excess |
| RetainedMotion.ArcStays | EtherCAT_Master_RTOS/NCPathCoreRetainedPath.cpp:276-283 | an arc stays between the lower and the higher of its two curve ends and its checked box |
| RetainedMotion.BoundsCoverPath | EtherCAT_Master_RTOS/EDMCNCRetainedPath.h:100-119 | if ValidateBounds passes and the arcs' curve ends are inside the limits, the pose at every cursor is inside its limits and its travel |
| RetainedMotion.PathKeptExactlyWhenEndsAre | EtherCAT_Master_RTOS/EDMCNCRetainedPath.h:100-119 | after a passed ValidateBounds every pose of the path is inside limits and travel if and only if the curve of every arc begins and ends inside them |
| RetainedSharpness.MaximumIsTaken | EtherCAT_Master_RTOS/EDMCNCRetainedPath.h:171-185 | the maximum of MaximumAbsTrig is taken at some angle of the span |
| RetainedSharpness.RateIsLeast | EtherCAT_Master_RTOS/EDMCNCRetainedPath.h:135-157 | on the crossed part of a row, line or arc, the charged rate is the least one that bounds the motion of the axis between any two of its cursors |
| RetainedSharpness.TopRateIsSome | EtherCAT_Master_RTOS/EDMCNCRetainedPath.h:133-157 | the rate charged for a span is zero or that of a row it crosses |
| RetainedSharpness.SeamsAcross | EtherCAT_Master_RTOS/EDMCNCRetainedPath.h:158-161 | from a cursor of one row to a cursor of the next exactly the seam between them is charged |
| RetainedSharpness.LineIsChargedExactly | EtherCAT_Master_RTOS/EDMCNCRetainedPath.h:133-161 | on part of a line the charge of every axis is its displacement |
| RetainedSharpness.LineTraversalIsExact | EtherCAT_Master_RTOS/EDMCNCRetainedPath.h:121-169 | a move along one line passes exactly when the velocity of every axis is within its limit |
| RetainedSharpness.LineBoundsAreExact | EtherCAT_Master_RTOS/EDMCNCRetainedPath.h:100-119 | for a path of lines ValidateBounds accepts exactly the paths that keep every limit and travel at every cursor |
| RetainedKernel.TestedExactly | EtherCAT_Master_RTOS/EDMCNCRetainedKernel.h:90-101 | the chain of per-axis tests finds nothing exactly when every axis keeps its limits, its travel and its velocity |
| RetainedKernel.StepTestsCannotFire | EtherCAT_Master_RTOS/EDMCNCRetainedKernel.h:90-101 | on a path without excess whose arcs end inside the limits, a step leaves the same snapshot with and without its per-axis tests |
| RetainedKernel.TestsNeverFireExactly | EtherCAT_Master_RTOS/EDMCNCRetainedKernel.h:90-101 | under all limits that Begin admits the per-axis tests of Step never change anything if and only if no row end has an excess and every arc's curve ends inside those limits |
| RetainedKernel.RunNeedsNoTests | EtherCAT_Master_RTOS/EDMCNCRetainedKernel.h:77-107 | under that condition whole runs with and without the tests are the same |
| RetainedKernel.RunStaysWithinLimits | EtherCAT_Master_RTOS/EDMCNCRetainedKernel.h:77-107 | on every run each accepted step, also the completing one, stands inside limits and travel and obeyed the velocity limit: with the tests always, without them under the exact condition |
| RetainedKernel.StepAnswersExactly | EtherCAT_Master_RTOS/EDMCNCRetainedKernel.h:77-107 | on every run an admissible candidate is shown whole: its state, reason, anchor, cursor, steps and committed flag, and ordinal, parameter and pose of the row that owns the cursor; any other candidate is refused with the reason of its first failing test and everything shown before |
| RetainedKernel.TerminalForever | EtherCAT_Master_RTOS/EDMCNCRetainedKernel.h:77-84 | after a completed, cancelled or failed step no sequence of steps changes anything the kernel shows |
| RetainedExample.OffCircleStepIsRefused | EtherCAT_Master_RTOS/EDMCNCRetainedKernel.h:88-101 | a concrete admitted arc with a step that passes ValidateTraversal and is refused with VelocityLimit |
| RetainedKernel.Kernel.Begin | EtherCAT_Master_RTOS/EDMCNCRetainedKernel.h:34-75 | a run number is used once; a started run stands at the origin of its own copy of a bounded path; every refusal is a fault with the reason of the first test that fails |
| RetainedKernel.Kernel.Step | EtherCAT_Master_RTOS/EDMCNCRetainedKernel.h:77-107 | a live kernel shows the pose of its own cursor; a fault keeps the last accepted values; what each step answers is RetainedKernel.StepAnswersExactly |
| RetainedKernel.Kernel.Cancel | EtherCAT_Master_RTOS/EDMCNCRetainedKernel.h:109-117 | takes the scalar answer and keeps the last accepted values; a terminal state stays |
| CommTrace.TimingIsValidExactlyWhenOrdered | EtherCAT_Master_RTOS/EDM174CommunicationTrace.h:163-194 | a recorded cycle escapes the invalid-timing count exactly when all stamps are present and ordered and its frequency is the session's |
| CommTrace.FlagsNameTheFault | EtherCAT_Master_RTOS/EDM174CommunicationTrace.h:165-176 | for callback, communication and motion one flag says that a stamp is missing, one that the pair is reversed, and one each that communication or motion leaves the callback |
| CommTrace.FlagsNameTheNeighbour | EtherCAT_Master_RTOS/EDM174CommunicationTrace.h:177-194 | the flags for stage order, the previous cycle, its overlap, the native clock stamps and their frequency |
| CommTrace.EligibleExactly | EtherCAT_Master_RTOS/EDM174CommunicationTrace.h:196-222 | each maximum takes exactly the cycles with ordered stamps of its stretch, inside the callback for communication and motion |
| CommTrace.BestIsMaximum | EtherCAT_Master_RTOS/EDM174CommunicationTrace.h:196-222 | the retained cycle is the first that attains the maximum over all eligible cycles |
| CommTrace.FirstMaximumIsUnique | EtherCAT_Master_RTOS/EDM174CommunicationTrace.h:196-205 | the first attaining cycle is the retained one |
| CommTrace.RingInOrder | EtherCAT_Master_RTOS/EDM174CommunicationTrace.h:137-139 | the last min(n, 20) cycles are the rotated full ring or the filled part of a short one |
| CommTrace.ReversedAt | EtherCAT_Master_RTOS/EDM174CommunicationTrace.h:224-234 | the element a reversal puts at each place |
| CommTrace.TripleReversal | EtherCAT_Master_RTOS/EDM174CommunicationTrace.h:235-241 | reversing both parts and then the whole is a rotation |
| CommTrace.Collector.Reverse | EtherCAT_Master_RTOS/EDM174CommunicationTrace.h:224-234 | the stretch is reversed in place and the rest unchanged |
| CommTrace.Collector.OrderHistory | EtherCAT_Master_RTOS/EDM174CommunicationTrace.h:235-241 | a full history is rotated in place into chronological order |
| CommTrace.Collector.Reset | EtherCAT_Master_RTOS/EDM174CommunicationTrace.h:153-161 | a session transition clears the whole value |
| CommTrace.Collector.Maximum | EtherCAT_Master_RTOS/EDM174CommunicationTrace.h:196-205 | the running maximum of one more cycle |
| CommTrace.Collector.UpdateMaxima | EtherCAT_Master_RTOS/EDM174CommunicationTrace.h:207-222 | all four maxima are those of the log with the cycle, and the largest gap keeps its predecessor |
| CommTrace.Collector.Record | EtherCAT_Master_RTOS/EDM174CommunicationTrace.h:106-143 | appends the prepared cycle; true exactly for the fault that freezes a nonzero session; a zero or frozen session changes nothing |
| CommTrace.Collector.MarkPublished | EtherCAT_Master_RTOS/EDM174CommunicationTrace.h:145-147 | only a frozen trace becomes published |
| CommTrace.Collector.FrozenSnapshot | EtherCAT_Master_RTOS/EDM174CommunicationTrace.h:126-136 | at freeze the history is the last min(n, 20) prior cycles in order without the bad one, and each maximum is the true first maximum |
| SyncHistory.TicksIncrease | EtherCAT_Master_RTOS/EDM206SyncHistory.h:132-133 | ticks strictly increase between any two rows of a session |
| SyncHistory.KeptAt | EtherCAT_Master_RTOS/EDM206SyncHistory.h:223-228 | slot first + index of the ring holds row number index of the last min(n, 128) rows |
| SyncHistory.MarkedIsHonest | EtherCAT_Master_RTOS/EDM206SyncHistory.h:167-175 | the fault row keeps no input of another sample |
| SyncHistory.FramedIsHonest | EtherCAT_Master_RTOS/EDM206SyncHistory.h:134-152 | a frame row claims no value of another tick, time or identity, and a source interval only between complete consecutive rows of one owner |
| SyncHistory.PartialIsHonest | EtherCAT_Master_RTOS/EDM206SyncHistory.h:162-166 | a partial fault row is honest and claims no interval |
| SyncHistory.NewRowIsComplete | EtherCAT_Master_RTOS/EDM206SyncHistory.h:251-291 | a new row carries on each axis the pending control, written value and input if and only if it was captured for exactly its identity, tick and time, and then exactly that value, and the prior receipt if and only if it is an earlier one of its owner |
| SyncHistory.FrameLogIsComplete | EtherCAT_Master_RTOS/EDM206SyncHistory.h:128-153 | a frame with a later nonzero tick, and no other, adds one row, with the identity, times and flags of the frame, the frame value and the current reference of every axis, and the matching pending values |
| SyncHistory.FrozenIsComplete | EtherCAT_Master_RTOS/EDM206SyncHistory.h:157-187 | the fault row is the row of the fault's tick, or an appended partial one with what was captured for it; its mark takes inputs of other samples away and nothing else |
| SyncHistory.Recorder.constructor | EtherCAT_Master_RTOS/EDM206SyncHistory.h:292-302 | a new recorder is idle and empty |
| SyncHistory.Recorder.Start | EtherCAT_Master_RTOS/EDM206SyncHistory.h:236-249 | admits a session exactly while the writer owns the ring and the session was not the last frozen one; a new session empties ring and pending values |
| SyncHistory.Recorder.ObserveControl | EtherCAT_Master_RTOS/EDM206SyncHistory.h:114-121 | replaces one axis's pending control and drops its written value |
| SyncHistory.Recorder.ObserveWritten | EtherCAT_Master_RTOS/EDM206SyncHistory.h:122-127 | sets one axis's pending written value |
| SyncHistory.Recorder.ObserveInput | EtherCAT_Master_RTOS/EDM206SyncHistory.h:104-113 | sets one axis's pending input when the capture is admissible |
| SyncHistory.Recorder.Append | EtherCAT_Master_RTOS/EDM206SyncHistory.h:251-291 | appends exactly the row made of the pending values captured for it; that this row carries a pending value if and only if it was captured for this identity, tick and time is SyncHistory.NewRowIsComplete |
| SyncHistory.Recorder.ObserveFrame | EtherCAT_Master_RTOS/EDM206SyncHistory.h:128-153 | one more row unless the tick is zero or not later; nothing while the reader's side owns the ring |
| SyncHistory.Recorder.Freeze | EtherCAT_Master_RTOS/EDM206SyncHistory.h:157-187 | a fault that is not stale finds or appends its row, marks it, seals the header with the fault's axis, site, mode and reason, and ends writing |
| SyncHistory.Recorder.SampleReachesRow | EtherCAT_Master_RTOS/EDM206SyncHistory.h:104-153 | a control, written value and input captured for one sample, with calls in between that capture nothing else for that axis, are in the last row of the log, whole, after the frame of the same identity, tick and time |
| SyncHistory.Recorder.ObserveAccepted | EtherCAT_Master_RTOS/EDM206SyncHistory.h:190-203 | keeps exactly the complete exact receipts of another session or of a later tick; all six zero exactly when every value is zero |
| SyncHistory.Recorder.PublishContained | EtherCAT_Master_RTOS/EDM206SyncHistory.h:204-214 | Ready exactly after containment with a zero image accepted at or after the fault |
| SyncHistory.Recorder.BeginRead | EtherCAT_Master_RTOS/EDM206SyncHistory.h:216-222 | claims a ready ring once and hands out a header that describes it |
| SyncHistory.Recorder.ReadRow | EtherCAT_Master_RTOS/EDM206SyncHistory.h:223-228 | returns row number index of the last min(n, 128) appended rows, in order |
| SyncHistory.Recorder.EndRead | EtherCAT_Master_RTOS/EDM206SyncHistory.h:229-233 | only the claimed session's end returns the ring |
| SyncHistory.Recorder.PlayWhileOwned | EtherCAT_Master_RTOS/EDM206SyncHistory.h:101-103 | from Freeze to EndRead no sequence of whole writer and reader calls changes a row |
| SyncHandover.NeverBoth | EtherCAT_Master_RTOS/EDM206SyncHistory.h:204-249 | step by step, no store of the writer to a payload word can come between the payload reads of the reader |
| SyncHandover.CopyIsSealed | EtherCAT_Master_RTOS/EDM206SyncHistory.h:216-228 | a header or row copy that the reader completes is word for word what the ring held when Ready was stored |
| SyncHandover.RowsUntouched | EtherCAT_Master_RTOS/EDM206SyncHistory.h:101-103 | from the store of Frozen until the reader stores Idle no interleaving of loads, stores and reads changes a row word |
| SyncHandover.CallRecords | EtherCAT_Master_RTOS/EDM206SyncHistory.h:104-188 | a recording call past its session tests makes all its stores on an idle or recorded ring, and a fault then freezes it |
| SyncHandover.ContainedIsReady | EtherCAT_Master_RTOS/EDM206SyncHistory.h:204-214 | containment on a frozen ring stores the header words and makes the ring ready |
| SyncHandover.ClaimCopies | EtherCAT_Master_RTOS/EDM206SyncHistory.h:216-222 | claiming a ready ring copies its header words |
| SyncHandover.RowIsCopied | EtherCAT_Master_RTOS/EDM206SyncHistory.h:223-228 | under the claimed session a row read copies the words of the row |
| SyncHandover.RingIsReturned | EtherCAT_Master_RTOS/EDM206SyncHistory.h:229-233 | ending the claimed session gives the ring back, ending another does not |
| AnalogPublisher.SplitConversion | EtherCAT_Master_RTOS/EDMAnalogInput.h:280-284 | seconds and fraction recombine to the exact floor of ticks times unit over frequency |
| AnalogPublisher.Exact | EtherCAT_Master_RTOS/EDMAnalogInput.h:275-286 | no intermediate value overflows, and the result is refused exactly when it exceeds 64 bits |
| AnalogPublisher.QpcMicroseconds | EtherCAT_Master_RTOS/EDMAnalogInput.h:275-286 | returns floor(ticks * 10^6 / frequency) for admissible inputs that fit |
| AnalogPublisher.QpcMilliseconds | EtherCAT_Master_RTOS/EDMAnalogInput.h:262-273 | returns floor(ticks * 10^3 / frequency) for admissible inputs that fit |
| AnalogPublisher.AppendKeepsOrder | EtherCAT_Master_RTOS/EDMAnalogInput.h:215-232 | one more observation keeps the certified samples strictly ordered |
| AnalogPublisher.CycleReports | EtherCAT_Master_RTOS/EDMAnalogInput.h:191-234 | the three bad-cycle reasons in their order, the status flags and clocks of every cycle, and value, capture times and number of a good one |
| AnalogPublisher.Publisher.ConfigureBeforeStart | EtherCAT_Master_RTOS/EDMAnalogInput.h:160-186 | resets the writer and never reuses a producer generation |
| AnalogPublisher.Publisher.ObserveFromPdo | EtherCAT_Master_RTOS/EDMAnalogInput.h:191-234 | samples marked rtSampleValid have strictly increasing capture time and sequence on every run between configurations |
| Seqlock.ReadIsAtomic | EtherCAT_Master_RTOS/EDMAnalogInput.h:241-260 | an accepted Read is one whole image, the latest complete snapshot at both sequence loads, in every interleaving short of a full wrap |
| Seqlock.FailedReadIsEmpty | EtherCAT_Master_RTOS/EDMAnalogInput.h:243-259 | a Read gives up only after its third attempt and returns nothing |
| Seqlock.ReadBeforePublish | EtherCAT_Master_RTOS/EDMAnalogInput.h:241-256 | before the first Publish a Read is accepted with words nobody published |
| Seqlock.PublishCompletes | EtherCAT_Master_RTOS/EDMAnalogInput.h:290-297 | a publication run to its end makes its snapshot the words and the latest snapshot |
| Seqlock.QuietReadSucceeds | EtherCAT_Master_RTOS/EDMAnalogInput.h:241-256 | a Read while nothing is published succeeds at its first attempt with the latest snapshot |
| Seqlock.AttemptFailsExactly | EtherCAT_Master_RTOS/EDMAnalogInput.h:243-256 | an attempt fails exactly when a publication is in progress at its first load or one has begun or ended before its last |
| AnalogBinding.NumberedIsUnique | EtherCAT_Master_RTOS/EDMAnalogInput.h:57-59 | an A/D number names one channel of one layout |
| AnalogBinding.Resolve | EtherCAT_Master_RTOS/EDMAnalogInput.h:60-110 | finds that channel, judges it in order, and configures it exactly when readable, expected and validated |
| AnalogBinding.FieldSkipsBytes | EtherCAT_Master_RTOS/EDMAnalogInput.h:122-123 | whole bytes below the offset do not matter |
| AnalogBinding.TailField | EtherCAT_Master_RTOS/EDMAnalogInput.h:123-127 | two bytes, or three when shifted, hold the whole field |
| AnalogBinding.ReadRaw16 | EtherCAT_Master_RTOS/EDMAnalogInput.h:115-131 | reads exactly the 16 bits at the offset of the image taken as one number, signed or not, and no byte outside it |
| AnalogBinding.ReadConfigured | EtherCAT_Master_RTOS/EDMAnalogInput.h:60-131 | a configured binding can always be read and yields the bits of its own channel |
| WorkTimer.WorkEvidence.BeginWork | EtherCAT_Master_RTOS/EDM130WorkTimer.h:955-959 | new state and result of starting work |
| WorkTimer.WorkEvidence.AccrueWork | EtherCAT_Master_RTOS/EDM130WorkTimer.h:960-971 | new state and result of one accrual, the due interval saturating; what they add up to is WorkTimer.WorkIsAccounted |
| WorkTimer.WorkEvidence.TriggerWork | EtherCAT_Master_RTOS/EDM130WorkTimer.h:972-979 | new state and result of a trigger |
| WorkTimer.WorkEvidence.CompleteWork | EtherCAT_Master_RTOS/EDM130WorkTimer.h:980-986 | new state and result of a completion |
| WorkTimer.EarnedStep | EtherCAT_Master_RTOS/EDM130WorkTimer.h:955-986 | from earned evidence the trailing check succeeds, and completed * workTime + elapsed <= total is kept |
| WorkTimer.WorkNeverOutrun | EtherCAT_Master_RTOS/EDM130WorkTimer.h:938-986 | on every run every event, also the running one, is backed by its own full interval of work |
| WorkTimer.WorkIsAccounted | EtherCAT_Master_RTOS/EDM130WorkTimer.h:955-986 | on every run the total is the sum of the accepted eligible accruals that directly continue an eligible one, the elapsed time is the smaller of the work time and that sum since the last completion, and the event is due exactly when a full work time has been worked since then |
| WorkTimer.WorkedIsTriggered | EtherCAT_Master_RTOS/EDM130WorkTimer.h:972-979 | after a full work time since the last completion a later trigger is accepted and starts the next event |
| WorkTimer.TriggeredIsCompleted | EtherCAT_Master_RTOS/EDM130WorkTimer.h:980-986 | a running event is completed by a later call, and the next interval starts at zero |
| WorkTimer.CallIsAcceptedExactly | EtherCAT_Master_RTOS/EDM130WorkTimer.h:955-986 | when each call of a run is accepted, told by the calls accepted before it |
| WorkTimer.RefusalChangesNothing | EtherCAT_Master_RTOS/EDM130WorkTimer.h:955-986 | on every run a false return leaves the evidence unchanged and valid |
| WorkTimer.ValidIsNotInductive | EtherCAT_Master_RTOS/EDM130WorkTimer.h:972-979 | valid evidence exists from which a trigger changes the record and returns false |
| WorkTimer.TriggerFailsExactlyWhenUnearned | EtherCAT_Master_RTOS/EDM130WorkTimer.h:972-979 | from valid evidence the trailing check of a trigger fails exactly when its work is not earned |
| WorkTimer.TrailingCheckFailsExactly | EtherCAT_Master_RTOS/EDM130WorkTimer.h:955-986 | from valid evidence the trailing check of an admitted call fails exactly for a trigger whose work is not earned |
| WorkTimer.SecondEventFollows | EtherCAT_Master_RTOS/EDM173G76Gap.h:275-288 | snapshots at the first and second completion of any run satisfy the work conjuncts of FollowsCompletedEvent230 |
| LocalAssignment.Arithmetic.Parse | EtherCAT_Master_RTOS/EDM140LocalAssignment.h:37-44 | accepts exactly the scanned texts of length 1..64, with the mask of the scanned tree, else mask zero |
| LocalAssignment.Arithmetic.Expression | EtherCAT_Master_RTOS/EDM140LocalAssignment.h:47-57 | result, position and variables read are those of the expression scan |
| LocalAssignment.Arithmetic.Term | EtherCAT_Master_RTOS/EDM140LocalAssignment.h:59-69 | result, position and variables read are those of the term scan |
| LocalAssignment.Arithmetic.Factor | EtherCAT_Master_RTOS/EDM140LocalAssignment.h:71-107 | result, position and variables read are those of the factor scan, with the nesting bound |
| LocalAssignment.ExprSound | EtherCAT_Master_RTOS/EDM140LocalAssignment.h:47-107 | a successful scan prints back to the text it consumed, within the nesting bound |
| LocalAssignment.ExprComplete | EtherCAT_Master_RTOS/EDM140LocalAssignment.h:47-107 | a printed tree within the bound is scanned to exactly that tree |
| LocalAssignment.RecogniserIsGrammar | EtherCAT_Master_RTOS/EDM140LocalAssignment.h:37-107 | the accepted texts are exactly those of length 1..64 that the grammar derives with nesting at most 8 |
| LocalAssignment.DerivationIsUnique | EtherCAT_Master_RTOS/EDM140LocalAssignment.h:37-107 | two derivations of one text are the same tree |
| LocalAssignment.MaskIsExact | EtherCAT_Master_RTOS/EDM140LocalAssignment.h:94-94 | equal masks mean equal sets of variables read |
| LocalAssignment.ParseText | EtherCAT_Master_RTOS/EDM140LocalAssignment.h:37-44 | the recogniser accepts exactly the grammar, and its mask is that of every derivation |
| FileSave.SaveBackup | EtherCAT_Master_RTOS/CoordinateFileSave.h:117-140 | while the backup is written and verified the target is untouched |
| FileSave.SaveTarget | EtherCAT_Master_RTOS/CoordinateFileSave.h:153-176 | while the target is written and verified the backup is untouched |
| FileSave.PreviousReadGuard.Destroy | EtherCAT_Master_RTOS/CoordinateFileSave.h:55-66 | the previous file is closed at the end of scope unless it was closed before |
| FileSave.Guarded | EtherCAT_Master_RTOS/CoordinateFileSave.h:84-176 | the order probe, backup, close, target keeps the survivability statement |
| FileSave.Write | EtherCAT_Master_RTOS/CoordinateFileSave.h:76-177 | a valid previous text is at every point the target or exactly the backup; invalid or unprotected cases touch nothing; ok means target is payload; one close; and unless some call of the file layer fails, the save succeeds exactly for a payload of legal size over a valid previous text or two missing names, else with the reason of its case |
| FileSave.SaveKeepsRecoverable | EtherCAT_Master_RTOS/CoordinateFileSave.h:68-75 | one save never passes through a state without a valid file when there was one |
| FileSave.SaveAll | EtherCAT_Master_RTOS/CoordinateFileSave.h:68-75 | over any number of saves a valid file exists at every point, and without faults the last payload is the target |
| ScaleMirror.CommitInvertsPrepare | EtherCAT_Master_RTOS/CoordinateManager.cpp:1189-1263 | a prepared candidate is committed except exactly when its command cleared a leftover centre of an axis whose mirror was off |
| ScaleMirror.ValidFrozenAlwaysCommits | EtherCAT_Master_RTOS/CoordinateManager.cpp:1189-1263 | from a valid frozen snapshot every prepared candidate is committed |
| ScaleMirror.CommitAcceptsOnlyPrepared | EtherCAT_Master_RTOS/CoordinateManager.cpp:1209-1248 | a committed candidate is the frozen snapshot or one that some command prepares |
| ScaleMirror.StaleCenterIsRefused | EtherCAT_Master_RTOS/CoordinateManager.cpp:1232-1248 | a concrete bare G150 that Prepare accepts and Commit refuses |
| ScaleMirror.GenerationAdvances | EtherCAT_Master_RTOS/CoordinateManager.cpp:1197-1203 | generation and revision advance by one exactly when the candidate differs |
| ScaleMirror.PreparedObeys | EtherCAT_Master_RTOS/CoordinateManager.cpp:1164-1186 | a prepared candidate has the commanded mode, factor and centre, or on every axis the commanded mirror and centre, and everything else as it was |
| ScaleMirror.PreparedExactly | EtherCAT_Master_RTOS/CoordinateManager.cpp:1146-1207 | with rules that forbid nothing a command is prepared exactly when it is legal, the tool radius is off, the frozen snapshot is current, and the counters have room unless it changes nothing |
| ScaleMirror.CoordinateManager.BuildCurrentSnapshot | EtherCAT_Master_RTOS/CoordinateManager.cpp:784-795 | the rebuilt scaling and mirror fields are those of the live members |
| ScaleMirror.CoordinateManager.BuildScaleMirrorSelection | EtherCAT_Master_RTOS/CoordinateManager.cpp:1146-1187 | the selection of an admissible command, axis by axis |
| ScaleMirror.CoordinateManager.PrepareScaleMirrorTransition | EtherCAT_Master_RTOS/CoordinateManager.cpp:1189-1207 | the checked candidate of a command, or none |
| ScaleMirror.CoordinateManager.CommitScaleMirrorTransition | EtherCAT_Master_RTOS/CoordinateManager.cpp:1209-1263 | commits exactly the recoverable candidates; the rebuilt live snapshot then is the new frozen one; refused it changes nothing |
| ScaleMirror.CoordinateManager.Transition | EtherCAT_Master_RTOS/CoordinateManager.cpp:1189-1263 | prepare and commit keep a synchronised manager synchronised and succeed together, and the live members then show what was commanded |
| CoreTimer.PackedGate | EtherCAT_Master_RTOS/CoreTimerLifecycle.h:70-73 | stop bit and count share a word without disturbing each other |
| CoreTimer.CountIsAdmitted | EtherCAT_Master_RTOS/CoreTimerLifecycle.h:41-62 | the count is the number of admitted handlers and never carries into the stop bit |
| CoreTimer.DrainedForever | EtherCAT_Master_RTOS/CoreTimerShutdown.h:33-66 | once zero is seen after the stop request no handler is admitted and none ever will be |
| CoreTimer.DeletedOnlyDrained | EtherCAT_Master_RTOS/CoreTimerShutdown.h:49-65 | the timer is deleted only after the gate was seen drained |
| CoreTimer.AdmittedSeesOwner | EtherCAT_Master_RTOS/CoreTimerShutdown.h:49-65 | an admitted handler always finds Owner attached and its timer not yet deleted |
| CoreTimer.TryEnterAlone | EtherCAT_Master_RTOS/CoreTimerLifecycle.h:41-62 | from any reachable state an undisturbed callback is admitted exactly when no stop is requested and the count has room; leaving restores the gate, and a refused callback leaves no trace |
| CoreTimer.DrainCompletes | EtherCAT_Master_RTOS/CoreTimerShutdown.h:33-66 | once shutdown has begun, after every admitted handler has left the owner sees zero, deletes the timer and detaches Owner |

## Left out

- C++ memory ordering: atomic operations are sequentially consistent steps in `AlarmMachine`, `Seqlock` and `CoreTimer`.
- AlarmAdmission.AcquiredMeansAlarmFree: does not say whether a refused admission returns BUSY or SUPERSEDED, because that choice and its loads change no shared state.
- IEEE arithmetic: positions, speeds and snapshots are exact reals, so NaN, infinity, signed zero and rounding guards of the source have no counterpart; the station metric check that only rounding can fail is absent from `RetainedPath.Path.CopyRows`.
- Trigonometry.Lawful: the laws of sine and cosine are hypotheses about the two functions the source calls, and pi is half their period; the rounding of the source's constant is not modelled.
- RetainedKernel.Kernel.Step: the scalar kernel that moves the cursor is given by the candidates it returns; its servo and jump logic is not part of this model.
- RetainedPath.Path.Capture: the checks in pulses, of lengths and of directions are one given flag of each row, and the pulse half of the end-point connection is another.
- RetainedKernel.Kernel.Begin: whether the scalar kernel admits the run, and its reason if not, is a given answer.
- GapPause.Transaction.BeginHold: the guards and receipts of flush and nominal-work pauses are given as answers of the environment, because their predicates rest on recipe headers outside this model.
- GapPause.Transaction.BeginResume: whether the pause context is valid is a given answer.
- GapPause.Transaction.ObserveMapped: the rest checks of flush dwells are one given answer.
- SyncHistory.Recorder.ObserveInput: the configuration captured with an input is not modelled.
- SyncHistory.Recorder.ObserveFrame: the constants of each axis copied from the configuration are not modelled.
- SyncHistory.Recorder.Freeze: the header's copy of the captured configuration is not modelled.
- SyncHistory.Recorder.PlayWhileOwned: writer and reader calls interleave as whole calls here; `SyncHandover` interleaves their single steps, with the conditions on sessions, modes and ticks as choices of the environment.
- FileSave: the backup name is never an alias of the target, and writers are serialised, as the source demands of its caller.
- AnalogPublisher: the snapshot fields that publication copies without interpreting are one record.
- CoreTimer: cancelling and waiting have no effect on the gate and are not steps; timer creation and re-arming are not modelled.
- CompensationEngine, recipe binders, EDM173 geometry and fingerprints, coordinate transforms and the automatic flush cycle: they rest on code that is not present, or would add only straight conjunctions.
