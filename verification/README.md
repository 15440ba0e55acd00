# PSOperator, modelled and proved

PSOperator lets an untrusted planner operate a desktop through a gatekeeper: an
observer signs what it saw, a replay gate admits each signed snapshot once, the
gatekeeper checks the planner's action against it, and an executor presses the
keys. A stop file pre-empts everything, an audit log records everything, and a
harness drives a coding model under budgets. These files model the parts of that
system with real state and prove what they promise. `dafny verify dfyconfig.toml`
checks them all.

How the files fit together:

- **Replay gate.** `GateState` holds the values and the decision for one
  envelope. `GateRuns` is the state machine of whole runs: presentations,
  interrupted writes, restarts, power losses. `AttestationGate` is the class with
  its fields, on a `Disk` that knows at every moment what a power loss could
  leave; each call of `Admit` is one step of a run. `GateLifetime` settles what
  forgetting nonces costs.
- **Kill switch.** `KillSwitch` is the protocol as atomic file-system steps of one
  drill and any number of operators; `KillSwitchRuns`, `KillSwitchReader` and
  `KillSwitchDrill` prove what all interleavings keep, `KillSwitchEngage` and
  `KillSwitchDisengage` exactly when an engage or a disengage keeps its promise, and
  `KillSwitchRaces` has a schedule for each way it does not. `KillSwitchProgram` runs the functions one system call at a
  time, with operators moving in between, and shows that every execution is one of
  those schedules.
- **Harness.** `Harness` (with `Ladder`), `LoopSteps` (one round as a function),
  `LoopRuns` (its invariant), `LoopTheorems` (promises read off the trace),
  `LoopTrace` (the rules every trace obeys, and how a run may end) and `SoftLoop`
  (the mutable loop, proved to follow the steps). Coder, gate, judge and
  reviewer are arbitrary streams of answers.
- **Field pairing.** `WindowTree` and `WindowReader` are the two explicit-stack
  tree algorithms, `FieldPairing` the geometry, `FieldScanning` the whole scan,
  `FieldPairer` the program, `FieldMoves` the effect of moving the window.
- **CH9329 executor.** `Ch9329Scale`, `Ch9329Frames`, `Ch9329Keys`,
  `Ch9329Target` (the machine on the other end of the line), `Ch9329Plan` (which
  packets an action is, and what they do there), `Ch9329Executor`.
- **Audit log.** `AuditChain` (which logs verify, and what that shows), `AuditLog`.
- **Gatekeeper service.** `Freshness`, `GatekeeperRules`, `Gatekeeper`,
  `ServiceRuns` (the gate's runs lifted to device calls, with the kill switch moving
  among and within them), `GatekeeperService`.
- **Perception.** `A11yTree` (budgeted conversion and bounded walk) and
  `SnapshotBuilder`.

Signatures, keys, hashes, the JSON text of the state file, risk patterns, case
folding and the lower case of characters outside ASCII are uninterpreted
functions, injective or faithful only where a contract says so. Times are reals.
Clocks, faults of system calls, answers of humans and devices, and the moves of
other processes are parameters, so every result holds for all of them.

## Where the code and its documentation differ

The model follows the code.

- The nonce eviction calls forgetting an expired nonce free because an expired
  envelope is refused before the nonces are consulted
  (psoperator/gatekeeper/attestation_gate.py:264-268). At `expires_at == now` the
  nonce is forgotten while its envelope still passes the expiry check
  (`ForgottenAtExpiry`). Without the watermark such an envelope would get through
  exactly within its window, which on a clock that does not go back means at that
  one moment (`ForgottenNonceLetsThrough`). With it, an admitted envelope is refused
  after any further calls, by its nonce while that is remembered and as stale after
  that (`ShownAgain`, `RememberedWhile`), and the gate as a whole loses nothing
  (`ForgettingNoncesIsFree`).
- `admit` is documented to record exactly one receipt per call
  (psoperator/gatekeeper/attestation_gate.py:153-154). It does exactly when the
  envelope is refused, or its state write meets no failure and the nonces that have
  time left fit under the cap (`Admit`). An acceptable envelope whose state cannot be
  persisted leaves no receipt, and an admission that evicts nonces leaves more.
- The ladder documents a shortcut for stalled attempts
  (psoperator/harness/ladder.py:88-101). A stall needs two attempts on the lane,
  and by then the ordinary rules give the same rung (`StallingChangesNothing`).
- `verify` is documented to detect truncation (psoperator/gatekeeper/audit.py:92).
  Every prefix of a verifying log verifies (`PrefixVerifies`), as README.md:293-296
  of the repository admits; only a kept tail hash reveals it.
- The last pixel is documented to map to 4095
  (psoperator/gatekeeper/executor_ch9329.py:69). On a one-pixel axis it maps to 0.
- A restarted observer is documented to advance at once
  (docs/deployment-isolation.md:74-79). The gate does admit it, but the service
  refuses its actions as stale while its frame ids are below those seen before, and
  such a snapshot is lost for good (`LaterIssuedIsAdmitted`, `StaleFrameIsLost`).
- A stop is safe from every drill, but not from every `disengage` that was already
  running when it was engaged; `EngagedStaysExactlyWhen` says from which.
- `disengage` is documented to lift the stop and any claim
  (psoperator/gatekeeper/killswitch.py:48-49). It leaves a stop that a release is just
  handing back; `DisengageWorksExactlyWhen` says when.

## Model

| member | source | states |
|---|---|---|
| `GateRuns.NoEnvelopeAdmittedTwice` | psoperator/gatekeeper/attestation_gate.py:188-239 | Over every run of presentations, interrupted state writes, restarts and power losses, with any clock and nonce cap, the log of admissions holds no envelope twice and is strictly increasing in (issued_at, frame_id). |
| `GateRuns.DurableCoversAdmitted` | psoperator/gatekeeper/attestation_gate.py:512-566 | In every reachable state, each file a power loss could leave loads and carries a watermark at or past every envelope ever admitted, although the durable watermark itself may go down. |
| `GateRuns.StartAfterAnyCrash` | psoperator/gatekeeper/attestation_gate.py:298-351 | A gate started on whatever a crash left accepts the file and refuses every envelope admitted so far, at any clock reading. |
| `GateRuns.InvNext` | psoperator/gatekeeper/attestation_gate.py:219-231 | Every step keeps the covering invariant and never shortens the admission log. |
| `GateRuns.AdvancingIsLater` | psoperator/gatekeeper/attestation_gate.py:241-256 | Moving past a watermark that covers an envelope means being strictly later than that envelope. |
| `GateRuns.AdmittedAreEntitled` | psoperator/gatekeeper/attestation_gate.py:188-199 | Over every run, whatever is admitted is signed with a key of the keyring, and carries the expected epoch when the gate was given one. |
| `GateRuns.OneEpochPerLifetime` | psoperator/gatekeeper/attestation_gate.py:219-231 | All envelopes admitted in one process lifetime carry one epoch: the one pinned when it began, or else that of the first. |
| `GateState.AcceptedExactlyWhen` | psoperator/gatekeeper/attestation_gate.py:188-217 | An envelope is accepted if and only if its key is known and its signature matches, the epoch is unset or equal, it is inside its window with both ends, no remembered entry has its nonce, and it is past the watermark: by issue time, on a tie by frame id, and by frame id alone over a state file from before issue times. |
| `GateState.LoadSaved` | psoperator/gatekeeper/attestation_gate.py:316-351 | Loading the file an admission wrote gives back exactly that envelope's frame id and issue time. |
| `GateState.UnexpiredContents` | psoperator/gatekeeper/attestation_gate.py:277-278 | Expiry forgets exactly the nonces whose envelope has expired, equality included, and no other. |
| `GateState.UnexpiredKeepsOrder` | psoperator/gatekeeper/attestation_gate.py:277-278 | What expiry leaves is in the order of insertion, so that the oldest goes first beyond the cap. |
| `GateLifetime.ForgettingNoncesIsFree` | psoperator/gatekeeper/attestation_gate.py:261-294 | On every sequence of calls the gate that forgets nonces by expiry and by count admits exactly what a gate with unbounded nonce memory admits, when authentic envelopes carry distinct nonces. |
| `GateLifetime.ReusedNonceIsNotFree` | psoperator/gatekeeper/attestation_gate.py:279-294 | A concrete trace on which the count cap matters once an observer reuses a nonce. |
| `GateLifetime.ShownAgain` | psoperator/gatekeeper/attestation_gate.py:196-217 | The exact verdict when an admitted envelope is shown again after any further calls, at any clock reading: too early, expired, replayed nonce while the nonce is remembered, and otherwise stale, which the watermark never fails to say. |
| `GateLifetime.RememberedWhile` | psoperator/gatekeeper/attestation_gate.py:261-294 | With room for every nonce and none used twice, an admitted envelope's nonce is remembered after any further calls if and only if the envelope had time left when it was admitted and every admission since came before its expiry. |
| `GateLifetime.ForgottenNonceLetsThrough` | psoperator/gatekeeper/attestation_gate.py:264-278 | What the documented promise about expired nonces misses: were there no watermark, an envelope whose expired nonce was forgotten would be admitted again if and only if it is shown within its window, and on a clock that does not go back if and only if it was forgotten and is shown at its very expiry. |
| `GateLifetime.ForgottenAtExpiry` | psoperator/gatekeeper/attestation_gate.py:264-278 | The concrete input: admitted at its very expiry and shown again then, an envelope is refused by the watermark only. |
| `AttestationGate.WriteFully` | psoperator/gatekeeper/attestation_gate.py:65-74 | However short each write falls, success means all the bytes are in the file; it succeeds if and only if every write makes progress until nothing is left. |
| `AttestationGate.AttestationGate.Start` | psoperator/gatekeeper/attestation_gate.py:139-146 | A gate starts if and only if its state file is missing or trusted, with the watermark the file holds and no remembered nonce. |
| `AttestationGate.AttestationGate.WriteState` | psoperator/gatekeeper/attestation_gate.py:524-566 | At every moment of the write and whatever fails, a power loss leaves the old content or the new one whole, and no temporary file stays behind; it succeeds exactly when each of its system calls does and the writes take every byte, and then only the new content is left. |
| `AttestationGate.AttestationGate.AdvanceWatermark` | psoperator/gatekeeper/attestation_gate.py:512-522 | Memory moves exactly when the durable record did; a failed write leaves the watermark in memory alone. |
| `AttestationGate.AttestationGate.EvictNonces` | psoperator/gatekeeper/attestation_gate.py:261-294 | Drops exactly the expired nonces and then the oldest beyond the cap, one receipt for each of the latter. |
| `AttestationGate.AttestationGate.Check` | psoperator/gatekeeper/attestation_gate.py:188-239 | Refusals and failed writes change no epoch, nonce, watermark or admission; an admission makes the new watermark the only durable one first. |
| `AttestationGate.AttestationGate.Admit` | psoperator/gatekeeper/attestation_gate.py:152-239 | One call is one step of a run: the memory, the disk at every moment in between, and the receipts. It refuses exactly what the checks refuse, written out over the gate's own fields; it fails exactly when an acceptable envelope's state cannot be written; and it records exactly one receipt if and only if the envelope is refused, or its state can be written and the nonces with time left fit under the cap. |
| `KillSwitchRuns.OnlyAnOperatorLifts` | psoperator/gatekeeper/killswitch.py:97-121 | No step of a drill, alive or dead, and no engage ever takes away the last stop that is not the drill's own untouched one; only an operator's unlink can. |
| `KillSwitchRuns.HowAForeignStopGoes` | psoperator/gatekeeper/killswitch.py:97-121 | A single foreign stop loses its name in exactly two ways: an operator's unlink, or a release that hands another foreign stop back over it, which is then in its place. |
| `KillSwitchRuns.EngagedStaysEngaged` | psoperator/gatekeeper/killswitch.py:41-53 | Once an engage has opened the sentinel the switch is on after every interleaving without an operator's unlink. |
| `KillSwitchEngage.EngagedStaysExactlyWhen` | psoperator/gatekeeper/killswitch.py:41-53 | A stop whose engage has opened the sentinel stays on over every interleaving in which no disengage begins, if and only if it was not exposed: no disengage is between its unlink and its scan while the drill has found, or is about to find, its own marker in a stop it read at the path before. |
| `KillSwitchRuns.HowTheSwitchGoesOff` | psoperator/gatekeeper/killswitch.py:47-53 | The switch goes off in exactly two ways: an operator's unlink, or the drill unlinking a claim that still holds its own marker. |
| `KillSwitchRuns.HowTheSwitchGoesOn` | psoperator/gatekeeper/killswitch.py:41-85 | The switch goes on in exactly two ways: an engage opening the path, or the drill linking its stop there. |
| `KillSwitchRuns.InvNext` | psoperator/gatekeeper/killswitch.py:56-121 | Every step of every process keeps: held inodes exist, a stop has one name, the private file has none, an opened stop is emptied, and what a release finds is its marker or an operator's text. |
| `KillSwitchRuns.ForeignStopStays` | psoperator/gatekeeper/killswitch.py:97-121 | A foreign stop is still there, possibly under another name, after any schedule without an operator's unlink. |
| `KillSwitchReader.ReaderIsNotFooled` | psoperator/gatekeeper/killswitch.py:24-38 | The non-atomic is_engaged never answers False about a switch that was on throughout the call with no overlapping unlink, whatever drills and engages did between its reads. |
| `KillSwitchReader.WillFindOverall` | psoperator/gatekeeper/killswitch.py:24-38 | The reason why the rest of a reader's scan must meet a stop survives every move of the others. |
| `KillSwitchReader.FindsWhatIsSpared` | psoperator/gatekeeper/killswitch.py:24-38 | A reading that begins under a stop answers True if, while it goes on, no operator unlinks a stop and, should there be only the drill's own, the drill does not unlink that one. |
| `KillSwitchReader.TrueMeansAStop` | psoperator/gatekeeper/killswitch.py:24-38 | A reading answers True only if a stop was in force at some moment of it. |
| `KillSwitchReader.FindsNothing` | psoperator/gatekeeper/killswitch.py:24-38 | A reading that begins with no stop answers False unless somebody engages one, or a drill links one, while it goes on. |
| `KillSwitchRaces.OlderDisengageLiftsNewerStop` | psoperator/gatekeeper/killswitch.py:47-53 | The concrete input for the failing half of EngagedStaysExactlyWhen: a reachable, exposed state and the schedule that unlinks the newer stop through the claim a release made of it. |
| `KillSwitchRaces.DisengageMayMissAPutBack` | psoperator/gatekeeper/killswitch.py:47-53 | The concrete input for the failing half of DisengageWorksExactlyWhen: a reachable state with a stop about to be handed back, and the schedule that puts it back between unlink and scan. |
| `KillSwitchDisengage.DisengageWorksExactlyWhen` | psoperator/gatekeeper/killswitch.py:47-53 | A disengage that is through has left neither a stop nor a claim over every interleaving in which nobody engages, if and only if no release had taken a stop that is not its own and was about to hand it back when the path was unlinked. |
| `KillSwitchDrill.CanaryIsStopped` | psoperator/gatekeeper/drills.py:44-52 | From the drill's link on, no interleaving without an operator's unlink lets the canary read the switch as off. |
| `KillSwitchDrill.EngageAlone` | psoperator/gatekeeper/killswitch.py:56-85 | Undisturbed, a drill ends up owning a stop with its marker exactly when the path was free, and otherwise touches no name. |
| `KillSwitchDrill.ReleaseAlone` | psoperator/gatekeeper/killswitch.py:97-121 | Undisturbed, a release takes down its own stop and leaves every claim as it was. |
| `KillSwitchProgram.Switch.IsEngaged` | psoperator/gatekeeper/killswitch.py:24-38 | As a program with operators taking a turn before each of its reads: its answer is exactly what the path, the listed claims and the path again show at those moments. It is True, in every phase of a drill, when a stop was in force at the call and no operator unlinks one, and False when none was and no operator engages one. |
| `KillSwitchProgram.Switch.EngageExclusive` | psoperator/gatekeeper/killswitch.py:56-85 | Leaves the switch as its four system calls in order make it, operators taking a turn before each; owned tells whether the path was free at the very moment of the link; afterwards the switch is on unless an operator unlinked a stop. |
| `KillSwitchProgram.Switch.Holds` | psoperator/gatekeeper/killswitch.py:88-94 | Goes on only after reading its own marker at the path. |
| `KillSwitchProgram.Switch.DisengageIfOwned` | psoperator/gatekeeper/killswitch.py:97-121 | Leaves the switch as its own system calls, operators taking a turn before each, make it; unlinks a claim only as the last of open, read, rename, open, read: after finding its marker at the path and again in the claim. |
| `KillSwitchProgram.Switch.KillSwitchDrill` | psoperator/gatekeeper/drills.py:33-59 | The drill reports what the canary's reading of the switch said, made between its engage and its release. Unless an operator unlinks a stop meanwhile, the drill's canary is stopped, some foreign stop is left if there was one, and every single one is left if the drill handed none back. |
| `KillSwitchProgram.Switch.Engage` | psoperator/gatekeeper/killswitch.py:41-44 | Opens the path, lets operators take a turn, and writes the text, and nothing else; afterwards a foreign stop is in place unless an operator unlinked one. |
| `KillSwitchProgram.Switch.Disengage` | psoperator/gatekeeper/killswitch.py:47-53 | Leaves the switch as unlinking the path, listing the claims and unlinking each make it, everybody else, drills included, taking a turn in between; that is neither a stop nor a claim, unless somebody engages meanwhile or a release was about to hand a stop back. |
| `Ladder.WhichRung` | psoperator/harness/ladder.py:70-119 | Exactly when each rung is taken and with which lane, in terms of tries on the lane, the number of violations, lane and judge. |
| `Ladder.TriesCounts` | psoperator/harness/ladder.py:101 | The tries on a lane are as many as the attempts in the history on that lane. |
| `Ladder.StallingChangesNothing` | psoperator/harness/ladder.py:122-137 | Histories that differ only in what the attempts changed, and so in whether they stalled, get the same decision. |
| `LoopSteps.IterateSpends` | psoperator/harness/softloop.py:114-292 | Every continuation spends a coder round, a split, or the pending re-verify, so a run ends for every coder, gate, judge and reviewer. |
| `LoopTheorems.BudgetsHold` | psoperator/harness/softloop.py:114-294 | Coder rounds never exceed max_rounds and gate checks never exceed max_rounds + max_splits (negative budgets counting as zero). |
| `LoopTheorems.EveryRoundIsGated` | psoperator/harness/softloop.py:144-230 | On every path to the end, each coder round is followed by a gate check. |
| `LoopTheorems.CompletedMeans` | psoperator/harness/softloop.py:148-197 | COMPLETED implies the last gate check passed with no coder round after it and the judge accepted that very state. |
| `LoopTheorems.ReviewerSeesTheWholeChange` | psoperator/harness/softloop.py:161-171 | Whenever the reviewer is asked, `since` is the first tag with no change before it, or there has been no tag at all. |
| `LoopTheorems.LanesClimb` | psoperator/harness/softloop.py:242-244 | Lanes never go down, and a lane is left only after at least two gate results on it. |
| `LoopTheorems.RungsAreOrderly` | psoperator/harness/ladder.py:111-119 | The JUDGE rung is taken at most once in a run, and REVIEW only at the top lane with at most one violation and the judge absent or already consulted. |
| `LoopTrace.RunsAreLegal` | psoperator/harness/softloop.py:114-292 | The trace of every run is a legal transcript: each event is the collaborator's next answer and comes when it should, on the task it should (attempts on the lane in use, fixes with the findings they address, one focused round per violation of a split), each rung is the one the trace calls for, and the run ends only where it may. |
| `LoopTrace.ReviewIsActedOn` | psoperator/harness/softloop.py:174-213 | An unapproved review, while a revision and a round are left, is followed at once by a coder round on its findings. |
| `LoopTrace.RejectionIsActedOn` | psoperator/harness/softloop.py:214-241 | A judge that rejects, while a round is left, is followed at once by a coder round on what he found. |
| `LoopTrace.CompletedExactlyWhen` | psoperator/harness/softloop.py:148-197 | A run is COMPLETED if and only if it ends with an approving review, or with the judge's acceptance of a passing gate's work that no tag covers as a whole so that nobody is asked, or with an unapproved review when all revisions or all rounds are spent. |
| `LoopTrace.TalliesInFull` | psoperator/harness/softloop.py:326-341 | Each round's receipts and tag, each gate result and each rung stand in the evidence right after those of the events before it, and nothing else does; a round that changed code and left no tag, or an empty one, is counted as unnetted. |
| `LoopRuns.DriveEnds` | psoperator/harness/softloop.py:114-294 | Every state between rounds leads to an end whose trace, tallies, tags and rungs all agree. |
| `SoftLoop.Record.Absorb` | psoperator/harness/softloop.py:329-340 | The bookkeeping of one coder result, as the pure step of the run describes it. |
| `SoftLoop.Driver.Round` | psoperator/harness/softloop.py:114-292 | One pass of the mutable loop changes its variables exactly as one step of the run. |
| `SoftLoop.Driver.OnSplit` | psoperator/harness/softloop.py:272-291 | One focused round per violation while the budget lasts, then the parent's gate again without a round. |
| `SoftLoop.Run` | psoperator/harness/softloop.py:101-294 | The evidence handed over is that of a legal run: its final state is one the trace may end in, and rounds, gate history, last violations, tags, receipts, rungs and open review findings are the folds over what the collaborators answered. |
| `WindowTree.Walk` | psoperator/perception/win32_fields.py:132-149 | Yields exactly the recursive pre-order of visible windows pruned below hidden ones, or refuses exactly when more windows, or deeper ones, would have to be looked at than allowed. |
| `WindowTree.SeenExactlyWhen` | psoperator/perception/win32_fields.py:132-149 | A window is yielded if and only if it and every window between it and the root are visible, with the class names on the way as its path. |
| `WindowTree.LooksAtThePruned` | psoperator/perception/win32_fields.py:137-146 | What the two caps count are the windows and the levels of the tree without what hidden windows hide. |
| `WindowReader.ReadWindowTree` | psoperator/perception/win32_fields.py:295-343 | The explicit-stack post-order over handles rebuilds exactly the source tree: every node has its window's handle, class, rectangle and visibility, and a hashed caption exactly for label windows below the root that have one; it refuses exactly for a non-window, too many windows, too great a depth or an over-long caption. |
| `FieldPairing.LabelOf` | psoperator/perception/win32_fields.py:178-193 | A label is the one panel nearest in the Edit's row, and named; none is found exactly when no panel is that. |
| `FieldPairing.InRowExactlyWhen` | psoperator/perception/win32_fields.py:178-187 | A panel is in an Edit's row exactly when their middles are less than eight pixels apart and its right edge lies from eight pixels before the Edit's left one to four inside it. |
| `FieldPairing.SamePlaceSameLabel` | psoperator/perception/win32_fields.py:209-211 | Labels of two Edits that sit at one place are the same panel: two panels there would tie. |
| `FieldPairing.LabelPlacesDiffer` | psoperator/perception/win32_fields.py:195-219 | No two candidates have their labels at one place, so each panel serves at most one field and no two candidates share an identity. |
| `FieldScanning.KeepsAll` | psoperator/perception/win32_fields.py:209-219 | The last filter, on identities, removes nothing. |
| `FieldScanning.ScanIsComplete` | psoperator/perception/win32_fields.py:152-224 | The fields are a permutation of the paired Edits in reading order, no label used twice, and with the unpaired ones make up all visible Edits. |
| `FieldScanning.FieldsDescribeEdits` | psoperator/perception/win32_fields.py:195-219 | Every field has the handle, class path and screen rectangle of one visible Edit, and the name and place of the panel that names it and no other Edit, places being relative to the window's corner. |
| `FieldScanning.EditsAreDescribed` | psoperator/perception/win32_fields.py:195-219 | Every visible Edit that some panel names, and no other Edit with it, has exactly one such field. |
| `FieldScanning.EditsAre` | psoperator/perception/win32_fields.py:168-176 | The Edits considered are the visible windows of the Edit class, each as often as it is there. |
| `FieldScanning.PanelsAre` | psoperator/perception/win32_fields.py:168-176 | The panels considered are those of the label class; a window of both classes is an Edit. |
| `FieldScanning.SortedOrdered` | psoperator/perception/win32_fields.py:216-219 | The fields come out top to bottom, then left to right. |
| `FieldPairer.FindLabel` | psoperator/perception/win32_fields.py:178-193 | The search by row, nearest edge and tie finds the label the geometry defines. |
| `FieldPairer.PairFields` | psoperator/perception/win32_fields.py:152-224 | Refuses exactly an Edit as root or a walk over its caps, and otherwise returns the scan. |
| `FieldPairer.CountedOnce` | psoperator/perception/win32_fields.py:195-215 | A count of one means no other position holds the same element. |
| `FieldMoves.MovingKeepsEveryField` | psoperator/perception/win32_fields.py:198-214 | Moving the whole window changes no field's identity, process, handle or order, nor the number unpaired; only the screen rectangles follow. |
| `FieldMoves.MovingKeepsRefusals` | psoperator/perception/win32_fields.py:132-149 | Moving the window does not change whether it is refused. |
| `Ch9329Scale.AxisIsFaithful` | psoperator/gatekeeper/executor_ch9329.py:65-75 | Monotone, within 0..4095, both ends hit (a one-pixel axis only 0), outside pixels clamped, inside ones nearest to the ideal with ties to even. |
| `Ch9329Scale.RoundsToNearest` | psoperator/gatekeeper/executor_ch9329.py:75 | Rounding is within one half, and even on a tie. |
| `Ch9329Scale.NearestGrows` | psoperator/gatekeeper/executor_ch9329.py:75 | The nearest integer with ties to even is unique and grows with the numerator. |
| `Ch9329Scale.AxisInjective` | psoperator/gatekeeper/executor_ch9329.py:65-75 | On an axis of at most 4096 pixels no two pixels are merged. |
| `Ch9329Scale.AxisMerges` | psoperator/gatekeeper/executor_ch9329.py:65-75 | On any longer axis some two neighbouring pixels are. |
| `Ch9329Scale.CoordsInNumbers` | psoperator/gatekeeper/executor_ch9329.py:65-75 | The first coordinate is scaled by the width and the second by the height, each to the nearest of 4096 places after being pulled back to the screen; there is no point exactly on a screen without pixels. |
| `Ch9329Frames.ParsedBuilt` | psoperator/gatekeeper/executor_ch9329.py:205-209 | Taking apart a built frame gives back its command and data. |
| `Ch9329Frames.FrameInBytes` | psoperator/gatekeeper/executor_ch9329.py:205-209 | A frame byte by byte: 57 AB 00, command, length, data, and the sum of all of these modulo 256. |
| `Ch9329Frames.GarbledByteIsNoticed` | psoperator/gatekeeper/executor_ch9329.py:479-489 | Changing any one byte of a built frame makes it unreadable. |
| `Ch9329Target.DecodeEncode` | psoperator/gatekeeper/executor_ch9329.py:212-232 | Keyboard and mouse packets survive the wire: modifiers, keys, point, buttons and signed wheel. |
| `Ch9329Target.ReportInBytes` | psoperator/gatekeeper/executor_ch9329.py:212-232 | The two reports byte by byte: the modifier bits and six keys; mode, buttons, both coordinates low byte first and the wheel in two's complement. |
| `Ch9329Target.FramesAct` | psoperator/gatekeeper/executor_ch9329.py:479-489 | The frames of a list of packets do to the target what the packets say. |
| `Ch9329Keys.StrokeTypesTheCharacter` | psoperator/gatekeeper/executor_ch9329.py:172-190 | Of ASCII exactly the printable characters and the line feed are supported, and each is pressed as the keys that type it on a US keyboard. |
| `Ch9329Keys.NamedKeysAreLabelled` | psoperator/gatekeeper/executor_ch9329.py:103-129 | Every key name presses the key with that legend in the HID usage table. |
| `Ch9329Keys.LegendsAreNamed` | psoperator/gatekeeper/executor_ch9329.py:103-129 | Every legend of that table, aliases included, is a key name that presses its key. |
| `Ch9329Keys.NamesPressTheirKeys` | psoperator/gatekeeper/executor_ch9329.py:193-202 | A key name, case apart, presses the key with that legend, a modifier's name the modifier and no key, a single character what types it; nothing else is known. |
| `Ch9329Executor.ChordOnTheWire` | psoperator/gatekeeper/executor_ch9329.py:559-570 | The modifier byte of a chord's frame, as it travels, has exactly the bits of the HID modifier keys its names are written on, and shift for a character typed with shift. |
| `Ch9329Plan.TypedTextIsReceived` | psoperator/gatekeeper/executor_ch9329.py:553-558 | The frames of typing an ASCII text make the target see exactly the text, or exactly what comes before its first unsupported character; the action succeeds exactly when there is none. |
| `Ch9329Plan.FramesDoWhatIsMeant` | psoperator/gatekeeper/executor_ch9329.py:543-584 | The frames of any action, sent to a target with nothing held, cause exactly the intended clicks, strokes, drag or scroll and leave nothing held, also when the action is refused half way. |
| `Ch9329Plan.MeantInNumbers` | psoperator/gatekeeper/executor_ch9329.py:543-584 | What an action means, in numbers: button 1 or 2, pressed and released once or twice at the scaled point, the left button held from one point to the other, the wheel by its amount within -127..127, or nothing. |
| `Ch9329Plan.ChordInOrder` | psoperator/gatekeeper/executor_ch9329.py:559-567 | A chord is pressed exactly when every name is known, and its keys go out in the order of the names. |
| `Ch9329Executor.FailureLeavesHeld` | psoperator/gatekeeper/executor_ch9329.py:529-532 | A line that fails after k frames leaves something held exactly when the last frame that arrived was a press, or a drag not yet dropped. |
| `Ch9329Executor.ChordIsItsNames` | psoperator/gatekeeper/executor_ch9329.py:559-567 | A chord's modifiers and keys are those of its names, whatever their order. |
| `Ch9329Executor.ChordIsHeldTogether` | psoperator/gatekeeper/executor_ch9329.py:559-570 | While a chord is down exactly the keys and modifiers of its names are held, all at once; none is cut off by the six places of a report. |
| `Ch9329Executor.Executor.TypeText` | psoperator/gatekeeper/executor_ch9329.py:553-558 | Key by key over a line that may fail: what was sent is what the plan says, up to the failure. |
| `Ch9329Executor.Executor.Execute` | psoperator/gatekeeper/executor_ch9329.py:543-584 | Every action sends exactly its planned frames as far as the line takes them, and fails exactly when the plan or the line does. |
| `AuditChain.TailPinsTheLog` | psoperator/gatekeeper/audit.py:91-111 | With an injective entry hash two verifying logs with the same last hash are equal: whoever keeps that hash notices any edit, insertion, reordering, truncation or replacement. |
| `AuditChain.SharedHashSharesThePast` | psoperator/gatekeeper/audit.py:91-111 | With an injective entry hash two verifying logs with one hash in common are the same up to that line: an unnoticed rewrite changes every hash from the first line it changes to the end. |
| `AuditChain.OnlyPrefixesVerify` | psoperator/gatekeeper/audit.py:91-111 | Dropping, repeating or reordering lines of a verifying log gives one that verifies exactly when it is a prefix. |
| `AuditChain.PrefixVerifies` | psoperator/gatekeeper/audit.py:91-92 | Cutting lines off the end is not noticed, contrary to the docstring. |
| `AuditChain.EditIsNoticed` | psoperator/gatekeeper/audit.py:104-109 | Rewriting one line leaves a verifying log if and only if the line is unchanged, or it is the last one and the new entry is chained and numbered as an append would write it; any other rewrite shows at the line or by the chain at the next. |
| `AuditChain.AppendVerifies` | psoperator/gatekeeper/audit.py:49-76 | An append yields a verifying log exactly when the log verified and was continued from its tail. |
| `AuditChain.VerifiesInFull` | psoperator/gatekeeper/audit.py:99-110 | Written out: a log verifies if and only if line i is an entry numbered i, with its own content's hash, naming the hash of the line before it, or sixty-four zeros on the first. |
| `AuditLog.BuiltLogsVerify` | psoperator/gatekeeper/audit.py:38-76 | Any log built by appends and reopenings from a missing file reopens every time, verifies, and holds exactly what was appended, in order. |
| `AuditLog.VerifiesExactlyWhenBuilt` | psoperator/gatekeeper/audit.py:91-111 | A file verifies if and only if appends and reopenings from a missing file could have left it: exactly those rewrites, of any number of lines, go unnoticed. |
| `AuditLog.AuditLog.Open` | psoperator/gatekeeper/audit.py:38-47 | A log reopens exactly when its last non-blank line has a hash, and continues from it; a verifying log always reopens. |
| `AuditLog.TailHashInFull` | psoperator/gatekeeper/audit.py:43-47 | A log is continued from its last line that is not blank, whatever stands before it. |
| `AuditLog.AuditLog.Append` | psoperator/gatekeeper/audit.py:49-76 | The file gains one entry, chained and numbered; the log verifies afterwards exactly when it did before and nobody else wrote to it. |
| `AuditLog.Verify` | psoperator/gatekeeper/audit.py:91-111 | Reports the first line that is wrong and why, or success exactly when none is. |
| `Freshness.FreshnessTracker.ObserveFrame` | psoperator/runtime/freshness.py:41-43 | The latest frame id is the largest observed. |
| `Freshness.FreshnessTracker.Check` | psoperator/runtime/freshness.py:49-57 | Fresh exactly for a non-negative id equal to the latest. |
| `Snapshots.Find` | psoperator/common/schema.py:76-77 | Finds an element with the id if there is one. |
| `Snapshots.Element.CentreX` | psoperator/common/schema.py:46-49 | The centre lies inside the box and halves its width, rounding down. |
| `GatekeeperRules.Resolved` | psoperator/gatekeeper/gatekeeper.py:238-243 | Only a click on a named element is changed, and only in where it goes. |
| `GatekeeperRules.Worst` | psoperator/gatekeeper/gatekeeper.py:276-279 | The risk is one of the readings' own and no reading's tier is above it. |
| `GatekeeperRules.CallerCannotLowerTheTier` | psoperator/gatekeeper/gatekeeper.py:244-256 | Whatever context the caller supplies, the tier acted under is at least that of the attested element's own label. |
| `GatekeeperRules.MayActExactlyWhen` | psoperator/gatekeeper/gatekeeper.py:275-306 | Which tiers reach a device: 0 and 1 whatever the human says, 2 with his word if the policy asks for it, 3 only if it is not blocked and with his word if the policy asks for it. |
| `Gatekeeper.Gatekeeper.ServiceContractRefusal` | psoperator/gatekeeper/gatekeeper.py:67-100 | None exactly for requests inside the service contract, with the refusal's kind otherwise. |
| `Gatekeeper.Gatekeeper.RequestAction` | psoperator/gatekeeper/gatekeeper.py:159-324 | The kill switch is read step by step while operators move: a stop in force at the call that no operator unlinks blocks the action, and no stop, with none engaged meanwhile, does not. Exactly when each kind of decision is given, the tiers by number; the device is told to act exactly when everything allows it, with the resolved action, once; every request appends exactly one decision record and keeps the chain sound. |
| `Gatekeeper.Gatekeeper.Decide` | psoperator/gatekeeper/gatekeeper.py:275-324 | Terminal actions never reach the device, a blocked tier 3 is denied by policy, at tiers 2 and 3 a human's no is a denial exactly where the policy asks him, and a device failure is still a recorded decision. |
| `ServiceRuns.NoFrameIsActedOnTwice` | psoperator/services/gatekeeper.py:41-83 | Over every run of the service, across restarts and power losses, each admitted envelope leads to at most one device call, in the order the frames were issued. |
| `ServiceRuns.EveryCallWasChecked` | psoperator/gatekeeper/gatekeeper.py:159-324 | Every device call over a run was for an admitted envelope, on an element of the snapshot (a click at its centre and on the screen, keys only into accessibility elements), approved at tier 2 where the policy asks for it, at tier 3 never when blocked and approved where the policy asks for it, and made by one step of the run that read the service's own kill switch as off: no stop was there when that reading began, or others unlinked one while it went on. |
| `ServiceRuns.AStopStopsTheService` | psoperator/gatekeeper/gatekeeper.py:169-173 | Over every run, with drills and operators moving the switch during readings and between requests, restarts and power losses: once a stop is in force no later request reaches a device, until an operator unlinks a stop or, if there is only the drill's own, the drill does. |
| `ServiceRuns.NoStopBlocksNothing` | psoperator/gatekeeper/gatekeeper.py:169-177 | A request that comes in with no stop in force, none being engaged while it reads the switch, makes its device call exactly when everything else allows it. |
| `ServiceRuns.InvNext` | psoperator/services/gatekeeper.py:41-83 | Every step of the service keeps the gate's invariant, the switch reachable by the steps recorded, the order of calls and their checks. |
| `ServiceRuns.FreshAfterAdmission` | psoperator/services/gatekeeper.py:67-69 | After admission an action is fresh if and only if it names the envelope's frame and no newer frame id was seen by this process. |
| `ServiceRuns.StaleFrameIsLost` | psoperator/services/gatekeeper.py:67-69 | Over every run, an envelope admitted with a frame id below the newest one seen is never acted on, then or later. |
| `GatekeeperService.GatekeeperService.Handle` | psoperator/services/gatekeeper.py:41-83 | A malformed request changes nothing, any other is one step of a run; only an admitted envelope is decided on, by a reading of the kill switch during the call: with a stop in force that no operator unlinks meanwhile no device is touched and the decision says so, with none and none engaged the decision is not a stop; the log gains the gate's receipts and exactly one record per decision. |
| `GatekeeperService.GatekeeperService.Answer` | psoperator/services/gatekeeper.py:66-73 | Observing the frame, reading the switch and deciding: one device call at most, exactly when everything allows it, remembered with the action performed, its tier, the human's word and the reading; none while a stop is in force that no operator unlinks meanwhile. |
| `A11yTree.AtspiTree` | psoperator/perception/a11y.py:126-195 | The converted tree is the live tree without what lies more than 64 levels down, cut after the first max_nodes accessibles in document order. |
| `A11yTree.Convert` | psoperator/perception/a11y.py:157-179 | One accessible with what the budget allows below it, and exactly what is left of the budget; nothing once it is spent. |
| `A11yTree.ListingDetermines` | psoperator/perception/a11y.py:24-28 | An indented listing determines its tree, so the prefix property fixes the converted tree. |
| `A11yTree.WalkBounded` | psoperator/perception/snapshot.py:37-47 | The stack of iterators yields the first nodes of the recursive walk. |
| `A11yTree.WalkFollowsTheListing` | psoperator/perception/snapshot.py:37-47 | The walk meets the nodes in document order, each once. |
| `SnapshotBuilder.Build` | psoperator/perception/snapshot.py:82-173 | At most max elements, accessibility first, each id used once; with injective ids the duplicate check never fires. |
| `SnapshotBuilder.NodesAreListed` | psoperator/perception/snapshot.py:105-127 | Every walked node with an area is listed in its turn, with its box and its name cut after 512 characters, and nothing else is. |
| `SnapshotBuilder.TextComesFromBoxes` | psoperator/perception/snapshot.py:141-165 | Every listed text is that of a recognised box with an area and a usable confidence, cut after 512 characters. |
| `SnapshotBuilder.IdsAreUnique` | psoperator/perception/snapshot.py:24-34 | Ids derived with their own place never collide. |
| `SnapshotBuilder.FindFinds` | psoperator/common/schema.py:71-77 | Looking an element up by its id finds that element. |
| `SnapshotBuilder.TextAddsNewSpots` | psoperator/perception/snapshot.py:128-145 | No recognised text is listed where the same text, case apart, is listed already in the same box. |
| `SnapshotBuilder.NoTextIsLost` | psoperator/perception/snapshot.py:141-165 | Every usable text box among those asked for is listed, or stands where something is. |

## Left out

- HMAC, SHA-256, JSON and regular expressions themselves, key files and their ownership checks: uninterpreted or outside the model.
- State file ownership, mode, directory and size checks, the Windows write path, and failures of close: the model starts where the bytes have been read.
- The bound `max_nonces >= 1`: the gate is proved for every cap, zero included.
- Texts of log lines, trails, receipts' details and reasons for humans: only the facts they report are kept.
- Observer snapshots' remaining fields (control type, confidence, capture time) and the schema's field limits: validation happens before the service's request is well formed.
- Two drills at once: the protocol's claims do not hold then, and one drill is in flight at a time in the model.
- The drill's marker is written to its private file in one step, since nobody else can see that file; a directory listing is one step; failures of file-system calls other than the documented ones end the process (`DrillDies`).
- In `KillSwitchProgram` only operators move between the system calls of a drill, of `IsEngaged` and of `Engage`; a reading, a request or an engage interleaved with a drill's steps is covered by the step machine (`ReaderIsNotFooled`, `AStopStopsTheService`, `EngagedStaysExactlyWhen`).
- Coder, gate, judge and reviewer adapters: they are answer streams.
- `scan_window` and the process query: thin wrappers over the modelled reader and pairing.
- WindowReader.ReadWindowTree: the tree does not change during the call, because the repository promises nothing about one that does.
- Floating-point division: the pixel map uses exact rationals rounded half to even, and the centres of rows are exact reals.
- Ch9329Plan.TypedTextIsReceived: claims ASCII text only, because an upper-case character outside ASCII is sent as whatever usage its lower case happens to give; that nothing stays held is proved for every text.
- Lower case of key names is the ASCII one; for single characters outside ASCII the lower case is a parameter.
- GateLifetime.ForgettingNoncesIsFree: assumes that authentic envelopes carry distinct nonces, because without it the count cap does matter (ReusedNonceIsNotFree).
- Press delays, port detection, baud rates and partial writes on the serial line: a frame arrives whole or not at all.
- AuditLog.Verify: reports a line that is valid JSON but not an object as invalid JSON, where the original raises (psoperator/gatekeeper/audit.py:104); neither accepts such a log.
- AuditLog.AuditLog.Append: a write torn in the middle of a line is not modelled, because the next append would then be glued to it; timestamps are part of the opaque body.
- Risk patterns: `classify` is an arbitrary function of action and context.
- Parsing of planner messages: a message is malformed or it is an envelope, an action and a context.
- The executor service's own nonce memory, network servers, the in-process loop, skills, planners, capture, OCR and image comparison: plumbing or devices.
- A11yTree.AtspiTree: role, name and extents that cannot be read are whatever the accessible says they are; only the shape of the walk is claimed.
- SnapshotBuilder.Build: providers without a limit parameter are covered (the cut happens in the builder too), providers that raise count as an empty tree or list.
