# Verified core of the research platform

A Dafny model of the parts of the platform whose guarantees are stated in comments and guarded at run
time but span many calls: the adaptive triangulation, the durable agent session, the preregistered
campaign runtime, the statistical bounds, the transactional restore, and the governance state machines.

| area | modules |
|---|---|
| Newest-vertex bisection mesh and its closure | `NvbGeometry`, `NvbMesh`, `NvbGrid`, `NvbTheorems`, `NvbLattice`, `NvbConformity`, `NvbRefiner`, `NvbGuard` |
| Bulk marking | `DoerflerMarking` |
| Bounded e-process, split-conformal interval | `EProcess`, `Conformal` |
| Durable agent sessions | `Compaction`, `Rollout`, `AgentLoop`, `AgentLoopRecovery`, `AgentLoopEffects`, `AgentLoopTurns`, `AgentLoopReports`, `AgentLoopCounters`, `AgentLoopSuccess`, `AgentLoopOrder`, `AgentLoopLimits` |
| Workspace restore | `BackupRestore` |
| Campaigns | `CampaignGraph`, `CampaignDriver` |
| Permissions and hooks | `CanonicalJson`, `Permissions`, `PermissionEngine`, `HookRules` |
| Sub-agent budgets | `SubagentBudgets`, `SubagentViews` |
| Stage walk | `StageWalk`, `Orchestrator` |
| Output capture | `BoundedBuffer` |
| Shared definitions | `Common` |

`dafny verify dfyconfig.toml` checks everything.

How the outside is modelled:

- Mesh coordinates are exact reals; the grid lines are i/n and coordinate keys are not rounded.
- The agent loop is a machine whose every step writes at most one log line. Model replies, tool
  results, refusals, steering, crashes, resumes and fresh starts are events, and theorems range over every event
  sequence. SHA-256 is injective on canonical values: an action's identity stands for its hash.
- A resume is possible on every non-empty log and with every turn counter, and so is a fresh start on every log:
  the conversation server uses one session id and does not resume a log that has an end
  (src/server/conversations.ts:379-380, src/server/conversation-agent.ts:119-120). The session keeps one task, and
  `keepLast` is at least one. Where a result needs a sufficient counter, that is a hypothesis on the run
  (`AgentLoopReports.Counted`); where it is about the callers' own counters, the run is one they drive
  (`AgentLoopCounters.Driven`).
- Every copy, rename and unlink of a restore may fail, independently.
- Campaign unit execution, spec resolution and cancellation answer arbitrarily, and may answer
  differently each time they are asked.
- Stage handlers, the step chooser, agent capabilities, budget readings and iteration triggers of the
  orchestrator are arbitrary, per pass and per turn. The step chooser returns a plan step that is not
  terminal, or nothing.
- Budgets count whole tokens; a child declares its ceiling as a real number, which is floored.
- Time is an input.

Where a promised property is not true of the code, the code is modelled as it is and the exact
condition is proved:

- the bulk-marking step marks one triangle when the estimator is identically zero, so the marked set is
  smallest exactly when the total is positive or there are no triangles (`DoerflerMarking.Mark`);
- the conformity closure gives up exactly when the closure without its guard would take more than 500000
  bisections (`NvbRefiner.Refiner.RefineMarked`), and it does on every grid with more than 500000 cells when all
  lower halves are marked (`NvbGuard.GuardIsHit`);
- the compaction gate bounds the transcript exactly when the transcript does not lie between a hard limit
  and a soft limit set above it (`Compaction.GateBound`; a run: `AgentLoopLimits.GateLetsThrough`);
- microcompaction goes by turn numbers, so it spares the newest results exactly where turn numbers follow the
  order of results (`Compaction.MicroExactly`), which they do in every run with sufficient counters
  (`AgentLoopReports.ResultsInTurnOrder`; a run in which an old result is kept:
  `AgentLoopLimits.ReusedNumberKeepsOld`);
- the log rebuilds what memory holds exactly when the running session has logged a full compaction and the log carries
  its task, or has logged none and did not begin afresh on an older log; otherwise memory is the end of what the
  log rebuilds, but for the task text (`AgentLoopRecovery.RecoveryFidelity`; runs: `AgentLoopLimits.TaskIsLost`,
  `AgentLoopLimits.FreshStartRepeats`);
- an effect with a ledger line is called again only by a session that began afresh after that line
  (`AgentLoopEffects.CommittedNeverReexecuted`), and every fresh start whose task fits the soft limit can call it
  (`AgentLoopLimits.FreshStartCallsAnything`; a run: `AgentLoopLimits.FreshStartRepeats`);
- an effect whose result was logged but whose ledger line was not survives a compaction exactly when its
  result is among the kept entries (`AgentLoopLimits.SurvivesCompaction`; a run that calls such an effect twice:
  `AgentLoopLimits.EffectRunsTwice`);
- the report on an interrupted tool action is right exactly when no older marker with its turn number and tool
  misleads it: an older finish marker hides that it was started, an older unfinished start marker pretends that it
  was. Right at every crash point means that there is no older marker at all
  (`AgentLoopReports.ReportExactly`, `AgentLoopReports.NewActionReport`);
- the two callers that resume a session (src/server/conversation-agent.ts:127,
  src/agent/capabilities/refine.ts:350) read their counter off the turn records. It is at most one behind, and after a
  crash within a turn it is behind exactly when that turn's number is not counted yet; the resumed session then
  uses the number again (`AgentLoopCounters.CallerCounter`), and the report can say that a tool did not start
  although it was called (`AgentLoopLimits.ReusedNumberMisleads`);
- the conformal interval does not take absolute values: with signed residuals the promised number of rows is
  covered exactly under the condition of `Conformal.SignedCoverage`, and it can be none
  (`Conformal.SignedResidualsBreakCoverage`). The one caller, src/experiment/executor.ts:413-416, passes row
  outcomes instead of residuals, with their mean as the prediction; for 0/1 outcomes the band then holds every
  outcome or, in a mixed cell with too many wrong rows, none (`Conformal.PerRowBand`);
- the comment at src/app/orchestrator.ts:521 says a resume re-plans an agent step that was skipped for lack of budget.
  A step is started exactly when it is offered without a done mark, with budget, a capability plane and attempts left
  (`Orchestrator.Run.Turn`); the skip leaves the persisted mark, and no later execution tries a marked step
  (`Orchestrator.Run.Execute`; such an execution and any that follows:
  `Orchestrator.DebateSkippedForGood`).

## Model

| member | source | states |
|---|---|---|
| `NvbGeometry.BisectionGeometry` | experiment-runtime/farlab_experiment_runtime/fem.py:504-515 | Both halves of a right isosceles triangle cut at its refinement edge are right isosceles with half the leg square; their areas add up to the parent's, their open interiors lie in the parent's and do not meet |
| `NvbGeometry.SideHasProbe` | experiment-runtime/farlab_experiment_runtime/fem.py:556-565 | A right isosceles triangle that has a given edge as a side contains one of two fixed points beside that edge: the counting argument behind "at most two owners" |
| `NvbMesh.ChildShapes` | experiment-runtime/farlab_experiment_runtime/fem.py:504-515 | The index triples and newest-vertex labels written by a split describe exactly the two geometric halves of the parent |
| `NvbMesh.SplitKeepsWf` | experiment-runtime/farlab_experiment_runtime/fem.py:490-515 | One split keeps the whole invariant: vertex/coordinate tables, recorded midpoints, right isosceles shape per level, disjoint interiors, and the bound on bisected edge lengths |
| `NvbGrid.InitialWf` | experiment-runtime/farlab_experiment_runtime/fem.py:447-461 | The labelled initial grid of any size satisfies that invariant, with the right angle at every newest vertex |
| `NvbTheorems.ReachedShapes` | experiment-runtime/farlab_experiment_runtime/fem.py:437-515 | In every mesh reached by any sequence of bisections, every live triangle is right isosceles at its newest vertex with the initial half-cell area halved once per level |
| `NvbTheorems.ReachedArea` | experiment-runtime/farlab_experiment_runtime/fem.py:447-515 | In every reached mesh the areas of the live triangles add up to exactly one |
| `NvbTheorems.ReachedConforming` | experiment-runtime/farlab_experiment_runtime/fem.py:556-565 | In every reached mesh every edge is a side of at most two live triangles |
| `NvbTheorems.ReachedTriplesDistinct` | experiment-runtime/farlab_experiment_runtime/fem.py:618-622 | No two live triangles have the same vertex triple, so looking a marked triangle up by its triple finds that triangle |
| `NvbTheorems.PendingLevel` | experiment-runtime/farlab_experiment_runtime/fem.py:537-545 | A triangle waiting for closure is strictly below the level reached by the finest bisected edge |
| `NvbTheorems.PotentialDrop` | experiment-runtime/farlab_experiment_runtime/fem.py:523-550 | Bisecting such a triangle lowers the sum over live triangles of 2^(top-level)-1 by exactly one and never raises the top level |
| `NvbLattice.HalfLattice` | experiment-runtime/farlab_experiment_runtime/fem.py:504-515 | A bisection of a triangle of the grid hierarchy (legs along the axes and refinement edge along a cell's diagonal, or the other way round by turns) gives triangles of the next level |
| `NvbLattice.EdgesNest` | experiment-runtime/farlab_experiment_runtime/fem.py:490-502 | If the middle of one edge of the hierarchy is an inner point of another, they are the same edge or an end of the first is an inner point of the second too: edges never cross |
| `NvbConformity.HangingIsPending` | experiment-runtime/farlab_experiment_runtime/fem.py:523-550 | In every mesh reached by any sequence of bisections, a live triangle with any mesh vertex strictly inside one of its sides has that side's midpoint on record, so it is pending |
| `NvbRefiner.PendingRound` | experiment-runtime/farlab_experiment_runtime/fem.py:546-550 | In one closure round each collected triangle is still pending when its turn comes, and the measure falls by one each time |
| `NvbRefiner.CountOwners` | experiment-runtime/farlab_experiment_runtime/fem.py:556-565 | The counting loop accepts exactly the meshes in which no edge has more than two owners |
| `NvbRefiner.Refiner.constructor` | experiment-runtime/farlab_experiment_runtime/fem.py:447-461 | Construction builds the initial grid |
| `NvbRefiner.Refiner.Midpoint` | experiment-runtime/farlab_experiment_runtime/fem.py:490-502 | Look-up, reuse by coordinate, or creation of a midpoint, with all tables updated |
| `NvbRefiner.Refiner.SplitAt` | experiment-runtime/farlab_experiment_runtime/fem.py:504-515 | The in-place split is the specified split |
| `NvbRefiner.Refiner.RefineTriangle` | experiment-runtime/farlab_experiment_runtime/fem.py:517-521 | Bisecting one id, dead or live, extends the history by it and keeps the mesh reachable |
| `NvbRefiner.Refiner.CollectPending` | experiment-runtime/farlab_experiment_runtime/fem.py:538-543 | The scan lists the live triangles with a bisected side, each once and in id order |
| `NvbRefiner.Refiner.Close` | experiment-runtime/farlab_experiment_runtime/fem.py:536-550 | The closure loop terminates by the measure alone and makes the bisections of the unguarded closure; it gives up exactly when that takes more bisections than the guard, never when the measure is within the guard; the number of splits is exactly the fall of the measure; on giving up something is still pending |
| `NvbRefiner.Refiner.RefineMarked` | experiment-runtime/farlab_experiment_runtime/fem.py:523-550 | Marked triangles are bisected first; the method converges exactly when the unguarded closure takes at most 500000 bisections; then no live triangle has a side whose midpoint exists, and no mesh vertex lies strictly inside a side of a live triangle |
| `NvbGuard.FirstRound` | experiment-runtime/farlab_experiment_runtime/fem.py:537-550 | On every grid, with all lower halves bisected every upper half is pending, so the first closure round has at least as many bisections as there are cells |
| `NvbGuard.GuardIsHit` | experiment-runtime/farlab_experiment_runtime/fem.py:523-550 | On every grid with more than 500000 cells, marking all lower halves makes the closure longer than the guard |
| `NvbGuard.MarkLowerHalves` | experiment-runtime/farlab_experiment_runtime/fem.py:523-550 | The refinement of such a fresh grid with those marks gives up |
| `NvbRefiner.Refiner.CheckConforming` | experiment-runtime/farlab_experiment_runtime/fem.py:556-565 | On every mesh the class can be in, the run-time check passes |
| `DoerflerMarking.LargestAreBest` | experiment-runtime/farlab_experiment_runtime/fem.py:615-617 | No set of triangles sums to more than equally many of the largest indicators |
| `DoerflerMarking.InsertionPoint` | experiment-runtime/farlab_experiment_runtime/fem.py:616-617 | The left insertion point of the target among the cumulative sums |
| `DoerflerMarking.Mark` | experiment-runtime/farlab_experiment_runtime/fem.py:611-623 | The marked indices are a prefix of the descending order, carry at least theta times the total, and form a smallest such set exactly when the total is positive or there are no triangles |
| `EProcess.FactorAtLeastHalf` | src/domain/e-process.ts:29-37 | Every factor of an in-range row is at least one half, and the stake has the sign of the chosen direction |
| `EProcess.FactorIsBet` | src/domain/e-process.ts:29-36 | Every factor, said without the stake: one at the threshold, exactly one half at the worst row where a row can lose, linear in the row with no other freedom; where no row can lose the slope is one half |
| `EProcess.Compute` | src/domain/e-process.ts:23-43 | Succeeds exactly on ordered bounds, a threshold inside them and rows inside them; reports the first offending row; the invalid-factor refusal is unreachable; each factor is that bet, the reported stake is its slope, and the e-value is the positive product of the factors |
| `EProcess.Supermartingale` | src/domain/e-process.ts:18-37 | Under the null the expected next factor is at most one, at every node of an adaptive process |
| `EProcess.Ville` | src/domain/e-process.ts:23-43 | For every finite-horizon adaptive process under the null, level times the probability of ever reaching the level is at most the present e-value |
| `EProcess.AnytimeValid` | src/domain/e-process.ts:18-48 | The threshold is defined exactly for alpha strictly between zero and one, is its inverse, and the e-value ever reaches it with probability at most alpha |
| `Conformal.RefusesExactly` | src/domain/conformal.ts:22-39 | Each refusal happens exactly on its inputs; the last one exactly when alpha is below one over n+1 |
| `Conformal.CoveredExactly` | src/domain/conformal.ts:30-40 | A held-out score is within the half-width of the other n exactly when it is at most one fixed order statistic of all n+1 |
| `Conformal.LeaveOneOutCoverage` | src/domain/conformal.ts:1-40 | At least ceil((n+1)(1-alpha)) of the n+1 leave-one-out choices are covered, and exactly that many when no two scores tie |
| `Conformal.OutcomeCoverage` | src/domain/conformal.ts:1-49 | Among any n+1 rows at least ceil((n+1)(1-alpha)) outcomes lie in the interval calibrated on the other rows' absolute residuals |
| `Conformal.IntervalMeansScore` | src/domain/conformal.ts:40-43 | An outcome lies in the interval exactly when its absolute residual is within the half-width |
| `Conformal.SignedCoveredExactly` | src/domain/conformal.ts:30-43 | Calibrated on signed residuals, a row is covered exactly when its residual lies between minus the order statistic after the rank and the one at the rank |
| `Conformal.SignedCoverage` | src/domain/conformal.ts:5-43 | Signed residuals keep the promised row count exactly when the residuals at most the rank's statistic outnumber those below minus the next one by the rank; without ties exactly when no residual is below minus the next one |
| `Conformal.HoldsItsPrediction` | src/domain/conformal.ts:30-43 | The interval contains its prediction exactly when fewer residuals are negative than the rank |
| `Conformal.PerRowBand` | src/experiment/executor.ts:413-416 | On 0/1 row outcomes with their mean strictly between, the band holds an outcome exactly when fewer rows are wrong than the rank, and is a single point otherwise |
| `Conformal.SignedResidualsBreakCoverage` | src/domain/conformal.ts:22-43 | Three rows with residual -1 at alpha one half: none is covered, two are promised |
| `Compaction.MicroKeeps` | src/agent/compaction.ts:58-68 | Microcompaction changes nothing but payloads of tool results |
| `Compaction.MicroExactly` | src/agent/compaction.ts:53-68 | On any transcript an entry is treated as intended (summarised exactly when it is an untruncated result with at least keepLast newer results) exactly when its turn number orders it like its position |
| `Compaction.TurnsGiveOrder` | src/agent/compaction.ts:53-68 | With one result per turn, in turn order, every result is so ordered |
| `Compaction.DropLoop` | src/agent/loop.ts:311-313 | The splice loop drops kept entries oldest first until the transcript fits or only two entries are left, and drops none that would have fit |
| `Compaction.GateBound` | src/agent/loop.ts:291-367 | The gate takes the mildest treatment: a full compaction exactly when summarised payloads do not bring a transcript over the soft limit down to the hard one, summarising exactly when that does and helps; after it the transcript fits the hard limit or overflow is reported, exactly when it did not start between a hard limit and a higher soft limit |
| `Compaction.CondensedParts` | src/agent/loop.ts:296-347 | A full compaction leaves the objective, at most one handoff and a suffix of the transcript of at most keepLast entries, and the logged pieces rebuild exactly that |
| `Compaction.CondensedExactly` | src/agent/loop.ts:296-347 | A full compaction keeps of the last keepLast entries as many of the newest as fit the hard limit behind objective and summary; the summary gives way, to the emergency text and then to nothing, exactly when not even it fits |
| `Rollout.RebuildTranscript` | src/agent/rollout.ts:97-113 | Scanning back for the last baseline and replaying its suffix equals replaying the whole log line by line |
| `Rollout.RebuildEffects` | src/agent/rollout.ts:117-132 | The first successful ledger entry of every action, then the first success still in the transcript; what that means on any log is `AgentLoopSuccess.RebuiltAreSuccesses` |
| `Rollout.RebuildOpen` | src/agent/rollout.ts:134-152 | The backward scan finds the last tool action and classifies it when it has no result |
| `Rollout.ReconstructSession` | src/agent/rollout.ts:93-155 | All three together |
| `AgentLoopRecovery.RecoveryFidelity` | src/agent/rollout.ts:93-113 | At every moment of every chain of runs, crashes, resumes with arbitrary counters and fresh starts on any log: memory is the end of the rebuilt transcript up to microcompacted payloads, except in the rebuilt first entry; the two are the same exactly when log and memory are in step (after a full compaction of the running session: the log carries its task; before one: it did not begin afresh on an older log); a log's meta lines always carry the task |
| `AgentLoopRecovery.PrefixFidelity` | src/agent/loop.ts:187-228 | For every prefix of the log that does not end a session, memory was present when its last line was written, and the prefix rebuilds what it held then exactly when the two are in step |
| `AgentLoopRecovery.CompactionFidelity` | src/agent/rollout.ts:101-105 | After a full compaction log and memory agree exactly when the log's meta line carries the task |
| `AgentLoopEffects.CommittedNeverReexecuted` | src/agent/loop.ts:551-592 | In every run, an effectful action whose success has a ledger line is called after that line only by a session that began afresh later and was not resumed since: through any crashes, compactions and resumes, whatever log and counter they find, no resumed session calls it |
| `AgentLoopEffects.ReplayIsVerbatim` | src/agent/loop.ts:557-569 | Every deduplicated result repeats payload, flags and turn of the first ledger line of its action among the lines its session knows: the whole log after a resume, the lines since the start after a fresh start |
| `AgentLoopEffects.RunEffectsSafe` | src/agent/loop.ts:230-241 | In every run memory knows every effect its session can know to be committed (the whole ledger after a resume), with the committed entry |
| `AgentLoopSuccess.RebuiltAreSuccesses` | src/agent/rollout.ts:117-132 | Rebuilt from any log, an action counts as done exactly when a ledger line or the rebuilt transcript has a successful result with its hash; what is remembered is such a success, from a ledger line if there is one and else the first in the transcript |
| `AgentLoopSuccess.KnownAreSuccesses` | src/agent/loop.ts:230-241 | In every run each effect that memory holds for done, or that is rebuilt from the log, is a successful result of that action that the log has, up to a summarised payload |
| `AgentLoopSuccess.FailureIsRetryable` | src/agent/loop.ts:551-555 | In every run an action whose logged results are all failures can be started when it is chosen, and is not answered from memory |
| `AgentLoopSuccess.SuccessIsAnswered` | src/agent/loop.ts:551-592 | A chosen action is answered from memory exactly when it is not a read and the session knows a success of it, and started exactly otherwise |
| `AgentLoopSuccess.AnswersRepeatSuccesses` | src/agent/loop.ts:557-569 | In every run each answer from memory is for an effectful action and repeats an earlier logged success of it, up to a summarised payload, naming its turn |
| `AgentLoopSuccess.ResumeKnowsExactly` | src/agent/loop.ts:230-241 | A resume knows exactly the actions with a success in the ledger or in the rebuilt transcript |
| `AgentLoopTurns.MirrorsBaseline` | src/agent/loop.ts:306-347 | Compaction keeps a suffix, so if the last tool action is kept, its result is among the kept entries exactly when the log has one |
| `AgentLoopTurns.RunTurnsSound` | src/agent/loop.ts:610-672 | In every run: a call is made only after its start marker; a finish marker only after a result; a started action without result is being run, being repaired, or its session is gone, unless a session began afresh since; every other call has a result logged after it or was abandoned by a fresh start |
| `AgentLoopOrder.RunOrderKept` | src/agent/loop.ts:610-672 | The write order in every run: a start marker is right behind its action, a call right behind its start marker; the next line is the call's result unless its session is over; a ledger line is right behind the successful effect it repeats; a finish marker right behind that, or behind a result that failed or only read |
| `AgentLoopReports.ReportExactly` | src/agent/rollout.ts:134-152 | At every crash point of every run, with arbitrary counters: the open turn is the log's last tool action and has no result; it was called only if marked started; the report (unknown exactly when marked started) is right exactly when no older marker of its turn number and tool misleads it |
| `AgentLoopReports.LostCallIsReported` | src/agent/loop.ts:610-672 | After a crash, a call without a later result of its turn is found on rebuild, unless a session began afresh since the call, and is reported as unknown exactly when no older finish marker has its number and tool |
| `AgentLoopReports.NewActionReport` | src/agent/rollout.ts:144-150 | For one action on any log: the report is right before the start marker exactly when no older start marker is unfinished, after it exactly when there is no older finish marker, and at both exactly when there is no older marker |
| `AgentLoopReports.OpenTurnIsHonest` | src/agent/rollout.ts:134-152 | In every run whose starts, resumed or fresh, have sufficient counters: reported unknown exactly when the turn was marked started; reported not started means no call was ever made under that turn number; no result has it |
| `AgentLoopReports.LostCallIsUnknown` | src/agent/rollout.ts:144-150 | In every run with sufficient counters a call without a durable result is reported with an unknown outcome |
| `AgentLoopReports.ResultsInTurnOrder` | src/agent/compaction.ts:53-68 | In every run with sufficient counters the results of the transcript, rebuilt or in memory, are in turn order, one per turn, so microcompaction spares exactly the newest |
| `AgentLoopCounters.CallerCounter` | src/agent/capabilities/refine.ts:350 | In every run driven by the highest recorded turn or by the number of records, fresh starts included: the counter is at most one behind the log, and sufficient exactly when no line has the next number; a crash after a line of the current turn, in a session that did not begin afresh on an older log, finds it sufficient exactly when that turn is counted (for the highest record: has a record), and otherwise the next turn has the same number |
| `AgentLoopLimits.SurvivesCompaction` | src/agent/rollout.ts:117-132 | After a compaction an effect is known exactly when the log has a ledger line with a success of it or a success of it is among the kept entries |
| `AgentLoopLimits.ReusedNumberMisleads` | src/server/conversation-agent.ts:127 | A run that both callers drive, in which a tool was called and the rebuilt session reports that it did not start |
| `AgentLoopLimits.ReusedNumberKeepsOld` | src/agent/compaction.ts:53-68 | A run that both callers drive, in which two results have one turn number and microcompaction leaves the older one as it is |
| `AgentLoopLimits.EffectRunsTwice` | src/agent/loop.ts:667-670 | A run that calls a successful effect a second time, after a crash before its ledger line and a compaction |
| `AgentLoopLimits.FreshStartCallsAnything` | src/server/conversation-agent.ts:119-120 | After every run that is over, a fresh start on its log whose task fits the soft limit can call any action in its first turn, whatever the log's ledger says |
| `AgentLoopLimits.FreshStartRepeats` | src/server/conversations.ts:379-380 | A run whose log has an effect's ledger line and a session end, and then a second call of that effect by a fresh start; what the log rebuilds is not what that session holds |
| `AgentLoopLimits.TaskIsLost` | src/agent/loop.ts:221-227 | A run resumed after a crash before the meta line, whose compaction puts log and memory out of step |
| `AgentLoopLimits.ModelCallFits` | src/agent/loop.ts:291-367 | In every run a session at the model call has a transcript within the hard limit or within a higher soft limit; after a full compaction it goes on to the model call exactly when it is within the hard limit |
| `AgentLoopLimits.GateLetsThrough` | src/agent/loop.ts:291-367 | A run that passes the gate with a transcript over the hard limit |
| `BackupRestore.Stage` | src/app/backup-restore.ts:161-166 | Staging copies and re-verifies every member without touching live, aside or backup files |
| `BackupRestore.MoveAside` | src/app/backup-restore.ts:167-176 | After any number of renames exactly the listed originals are aside, unchanged |
| `BackupRestore.Install` | src/app/backup-restore.ts:177-180 | After any number of renames exactly the first members are live, over nothing |
| `BackupRestore.Rollback` | src/app/backup-restore.ts:184-203 | Whatever fails, no original is lost; a rollback without errors leaves the live trio as it was, and it has no errors unless an operation is faulty |
| `BackupRestore.RestoreWorkspace` | src/app/backup-restore.ts:109-209 | With every operation free to fail: refusal happens exactly on a bad manifest, a bad member or a workspace that may not be replaced, and changes nothing; success makes the live trio the backup set with every original aside; clean failure leaves the trio unchanged; in every outcome each original is at its live or aside path and the backup set is intact; a restore that is not refused fails only after a faulty operation, and an incomplete rollback needs a second one, so any single fault is undone completely |
| `CampaignGraph.OrderExcludesCycles` | src/domain/campaign.ts:75-100 | A topological order rules out every dependency cycle |
| `CampaignGraph.Visit` | src/domain/campaign.ts:89-97 | The recursive colouring search terminates; success extends a dependency order by the visited node, failure yields an actual cycle |
| `CampaignGraph.FindOrder` | src/domain/campaign.ts:88-99 | The search accepts exactly the acyclic graphs and then has a topological order |
| `CampaignGraph.CheckUnits` | src/domain/campaign.ts:76-100 | The schema accepts exactly unique labels, references to declared other units and no cycle, equivalently a topological order exists |
| `CampaignDriver.NothingUnaffordable` | src/app/campaign.ts:109-134 | Under a valid spec the alpha ledger never holds back a unit that has not run |
| `CampaignDriver.AllRecorded` | src/app/campaign-driver.ts:76-89 | With as many records as units nothing is runnable |
| `CampaignDriver.StopsExactly` | src/app/campaign.ts:65-104 | With one record per unit, the rule loop stops exactly when one of these holds of the records: enough evidence from completed units; the rule for it and every unit over; the rule for it and the primary recorded as failed; the rule for it and enough evidence from all records |
| `CampaignDriver.RunnableExactly` | src/app/campaign.ts:40-54 | Runnable are exactly the units without a record all of whose dependencies are recorded as completed |
| `CampaignDriver.RunnableInOrder` | src/app/campaign.ts:48-54 | Runnable units come in declared order |
| `CampaignDriver.LedgerExactly` | src/app/campaign.ts:109-134 | The ledger of a recorded unit is its declared share less its recorded spend, none below zero; it is affordable exactly while some is left |
| `CampaignDriver.StartedKeepsDependencies` | src/app/campaign.ts:43-47 | Once a dependency is recorded as failed or cancelled, its unit never was and never is started |
| `CampaignDriver.RunUnit` | src/app/campaign-driver.ts:99-136 | One ready unit gets exactly one terminal record, the one its frozen spec and its execution deserve; it is started lawfully with its frozen alpha exactly when not refused |
| `CampaignDriver.DriveCampaign` | src/app/campaign-driver.ts:76-162 | For every valid spec and all outcomes: each start is of a unit without record, each of whose dependencies has a record as completed, under no stop and within the alpha share declared for it; no unit starts twice and none with a failed or cancelled dependency starts; every record is what the unit's execution returned, and exactly the executed units have a start; the driver reports a stop exactly when one holds of the records at the end; without a stop or a cancellation every unit has a record or a dependency that is not completed; a cancellation is reported exactly when a poll saw one, and every unit that is taken up has a poll of its own that saw none |
| `CampaignDriver.FamilyAlphaKept` | src/app/campaign-driver.ts:107-122 | Under alpha spending all started units together run within the family alpha left by earlier campaigns, up to the schema's tolerances |
| `CanonicalJson.CanonicalExactly` | src/agent/permissions.ts:156-164 | Two argument values get the same canonical form exactly when they differ at most in the order of object keys, at any depth |
| `Permissions.StrictestMeaning` | src/agent/permissions.ts:85-101 | The rule loop yields the strictest effect any rule has that speaks of the call (its tool, its arguments, and in bypass mode immune), or none exactly when no rule does |
| `Permissions.ReasonIsFirstStrictest` | src/agent/permissions.ts:90-101 | The cited text is the note, else the tool, of the first rule that speaks of the call with the strictest effect |
| `Permissions.RulingMeaning` | src/agent/permissions.ts:85-126 | The ruling in all four modes, said only through which effects some rule has that speaks of the call |
| `Permissions.OrderDoesNotMatter` | src/agent/permissions.ts:78-84 | Permuting or repeating rules never changes the effect |
| `PermissionEngine.Engine.Rule` | src/agent/permissions.ts:85-126 | The loop with its mode rules computes the specified ruling |
| `PermissionEngine.Engine.Decide` | src/agent/permissions.ts:120-138 | A call up to the point where it waits for its handler: decision and grant table |
| `PermissionEngine.Engine.SetMode` | src/agent/permissions.ts:72-75 | A mode switch leaves every cached grant in place |
| `PermissionEngine.Engine.ClearGrants` | src/agent/permissions.ts:146-149 | Clearing drops every cached grant and keeps the mode |
| `PermissionEngine.Engine.Answer` | src/agent/permissions.ts:139-143 | A denial stores nothing; an approval is stored until the time of asking plus the TTL |
| `PermissionEngine.CachedGrantIsEarned` | src/agent/permissions.ts:129-154 | Over every history of overlapping calls, answers, clears and mode switches: a cached allow goes back to an earlier call of the same tool with arguments equal up to key order that the handler approved, unexpired and not cleared since |
| `PermissionEngine.ApprovalSticks` | src/agent/permissions.ts:129-143 | Conversely an approval keeps authorising the same tool and arguments without asking until it expires, is cleared or is asked again |
| `PermissionEngine.HeadlessFailsClosed` | src/agent/permissions.ts:137-138 | Without a handler every ask is a denial, over every history |
| `HookRules.ExpandHookRulesToPermissions` | src/agent/hooks-compose.ts:45-72 | The compiled rules are exactly what enabled before-tool hooks that do not log say about the known tools they match, field by field |
| `HookRules.PatternExactly` | src/agent/hooks-compose.ts:24-28 | A pattern matches exactly the tool of that name and, when it is a prefix and a star, every tool that begins with the prefix |
| `HookRules.BlockHookAlwaysDenies` | src/agent/hooks-compose.ts:52-61 | A known tool matched by an enabled block hook, by name or by prefix and star and by risk class, is denied at once in every mode and session state, whatever the other rules, grants, arguments and risk class |
| `HookRules.ApprovalHookAsks` | src/agent/hooks-compose.ts:62-68 | An approval hook excludes a plain allow outside bypass and accepted edits; the exact condition for an allow inside them |
| `SubagentBudgets.SplitSums` | src/agent/subagents.ts:73-98 | Reservations sum to at most the parent's remaining budget; without ceilings exactly to it, within one of each other, larger ones first; a child without a ceiling gets that share whatever its siblings declare, and one with a ceiling exactly the lesser of its share and the ceiling rounded down, none below zero |
| `SubagentBudgets.CeilingsOnlyLower` | src/agent/subagents.ts:73-98 | The same under any parent: a ceiling touches its own child alone, one at or above the share changes nothing, and under an unlimited parent the cap is the ceiling |
| `SubagentBudgets.Conservation` | src/agent/subagents.ts:53-71 | Under every interleaving the parent's spend grows by exactly the sum of the children's spends |
| `SubagentBudgets.ReservationHolds` | src/agent/subagents.ts:53-71 | While no child exceeds its cap, a child has exactly its own reservation less its own spend left, and is refused exactly when it has used it up |
| `SubagentBudgets.OvershootBound` | src/agent/loop.ts:369-402 | With every call gated and costing at most c, a fan-out of n children ends at most n(c-1) past the parent's cap |
| `SubagentViews.RunBudget.SpendTokens` | src/app/run-budget.ts:49-60 | Only present, positive usage is charged |
| `SubagentViews.RunBudget.constructor` | src/app/run-budget.ts:46-51 | Spend starts as the sum of the receipts' usage |
| `SubagentViews.ReservedBudget.SpendTokens` | src/agent/subagents.ts:64-68 | A charge is booked on the child and on its parent alike |
| `SubagentViews.SplitSubagentBudgets` | src/agent/subagents.ts:78-98 | Fresh, distinct reservations with the specified caps; views are shared only under an unlimited parent |
| `SubagentViews.Fanout.AskGate` | src/agent/subagents.ts:63 | The gate over the mutable views is the gate of the fleet model |
| `SubagentViews.Fanout.SettleCall` | src/agent/subagents.ts:64-68 | A returning call changes the mutable views as the fleet model says |
| `SubagentViews.Fanout.ChargeHandoff` | src/agent/loop.ts:741-769 | A compaction call is charged to the child and the parent without having been gated |
| `StageWalk.AttemptsIncrease` | src/app/orchestrator.ts:630-639 | In a log that numbers its starts, later starts of a stage carry strictly larger attempt numbers |
| `StageWalk.RevisionExactly` | src/kernel/planner.ts:66-110 | A plan is revised exactly when it is the default, contested, without agent steps and its rank step is not last; the revision inserts one debate step right behind rank, keeps every other step, and happens once |
| `StageWalk.DefaultPlanIsComplete` | src/domain/workflow-plan.ts:114-137 | The default plan has one step for every stage, in the declared order |
| `Orchestrator.MaxRounds` | src/app/iteration.ts:28 | The configured number of rounds is kept between one and ten; unset and zero mean three |
| `Orchestrator.EvaluateIteration` | src/app/iteration.ts:205-300 | Another round needs a round below the cap, budget, and material change after the first; then exactly unconsumed feedback reopens feedback, revise and export, and exactly an open experiment without it reopens these and the execution |
| `Orchestrator.Run.SetStage` | src/app/orchestrator.ts:188-193 | Patching a record keeps its attempt number |
| `Orchestrator.Run.StartStage` | src/app/orchestrator.ts:630-639 | A start is logged with one more than the number of earlier starts of the stage |
| `Orchestrator.Run.SettleRank` | src/app/orchestrator.ts:680-748 | Regeneration happens exactly on a weak signal with a round and budget left, reopens exactly its three stages and uses the round up; otherwise at most one plan revision |
| `Orchestrator.Run.RunStage` | src/app/orchestrator.ts:630-800 | One logged start per handled stage, whatever the handler does; the record its outcome calls for and no other is written, except that a regeneration reopens its leg; the walk ends exactly on failure or a lost worker |
| `Orchestrator.Run.StageTurn` | src/app/orchestrator.ts:591-800 | Record by record: at the budget boundary every stage but export is skipped unstarted with the budget marker; without a handler it fails; otherwise the log gets a start with one more than its earlier starts and the record is what the outcome calls for; no other record changes but for the regeneration leg; the walk ends exactly without a handler, on a failure or a lost worker |
| `Orchestrator.Run.Turn` | src/app/orchestrator.ts:503-800 | A turn takes no step exactly when the chooser offers none before the parking position; an offered stage is taken as above and otherwise no record and no line changes; an agent step is tried exactly when it is offered without a done mark, with budget, plane and attempts left; one offered without budget gets its done mark; marks stay and marked steps are not tried |
| `Orchestrator.Run.RunAgent` | src/app/orchestrator.ts:515-591 | An agent step is started only with budget, a capability plane and attempts left; it is marked done unless the plane is missing or the worker vanishes |
| `Orchestrator.Run.Walk` | src/app/orchestrator.ts:503-800 | The unbounded loop ends for every behaviour, starting at most one stage per open record plus three for a regeneration; done marks of agent steps stay and marked steps are not tried; while the budget lasts no stage is closed unstarted; only stages of the plan before the parking position are started; the walk stops without an ending only at a turn that offers nothing |
| `Orchestrator.Run.Enter` | src/app/orchestrator.ts:328-482 | Exactly the finished stages that new feedback, unprocessed evidence or else a tainted bundle call for, and all operational skips, become pending, and every other record stays; so every stage that is over then has been started; only new feedback on a completed run grants fresh rounds |
| `Orchestrator.Run.Settle` | src/app/orchestrator.ts:828-896 | Another round exactly when every stage is terminal and the iteration rules say so; completed exactly when every stage is terminal and they do not; paused exactly at a parking position; the log gets the new round's number |
| `Orchestrator.Run.ExecuteOwned` | src/app/orchestrator.ts:328-885 | The recursion ends; every further pass was below the round cap; starts are bounded per pass; done marks of agent steps stay and marked steps are not tried; in a world that never runs out of budget every stage that is over has been started; parked at a stage, nothing at or beyond it is started |
| `Orchestrator.Run.Execute` | src/app/orchestrator.ts:303-326 | One execution makes at most as many passes as the round cap allows (never more than ten) and at most twelve stage starts per pass plus three for a regeneration; the run regenerates at most once in its whole life; attempts never decrease and count the starts in the log; completed means every stage is done or skipped; an agent step with a done mark is not tried, and one that the first turn offers without budget ends marked and untried; a done stage has been started, a stage that is over unstarted was skipped for lack of budget, and in a world that never runs out of budget there is none; parked at a stage, it starts only stages that stand before it in the plan |
| `Orchestrator.DebateSkippedForGood` | src/app/orchestrator.ts:515-523 | A ranked run whose inserted debate step is due when the budget is spent: after that execution and any later one, in any world, the step is marked done and was never started |
| `Orchestrator.Run.ReopenStages` | src/app/orchestrator.ts:989-1020 | Refused exactly on a running run, which it leaves alone; otherwise exactly the named stages that are done, skipped or failed become pending, no attempt is taken back, and the run is running |
| `BoundedBuffer.Make` | experiment-runtime/farlab_experiment_runtime/exploration.py:85-92 | Refuses exactly a negative capacity |
| `BoundedBuffer.BoundedTextBuffer.Write` | experiment-runtime/farlab_experiment_runtime/exploration.py:97-133 | One write keeps the newest characters of the old value followed by the text, and flags truncation |
| `BoundedBuffer.BoundedTextBuffer.GetValue` | experiment-runtime/farlab_experiment_runtime/exploration.py:135-136 | The joined chunks |
| `BoundedBuffer.AfterIsLast` | experiment-runtime/farlab_experiment_runtime/exploration.py:82-136 | After every sequence of writes the value is exactly the last cap characters of everything written, the size is the smaller of total and cap, and truncation is flagged exactly when the total exceeds the cap |

## Left out

- Floating point: coordinate rounding in `_ck`, `linspace` rounding, `log`/`exp` and saturation of the e-value, `toFixed` texts.
- FEM assembly, sparse solves, error measurement and all other numeric-library operations; `argsort`, `cumsum` and `searchsorted` enter by what they return.
- NvbRefiner.Refiner.RefineMarked: whether the closure of a given mesh stays within 500000 bisections is an exact condition on its length; it is not derived from the grid and iteration limits of the operation.
- The e-value product over campaign units: it selects units by outcome, so the single-process bound is not lifted to it.
- EProcess.Ville: processes have finite branching and a finite horizon.
- Compaction.CondensedParts: the handoff summary is taken to be non-empty; prose quality, prompts and the model call are not modelled.
- AgentLoopRecovery.RecoveryFidelity: malformed log lines, a resume under another task and the turn-record contents are not modelled; a session may end in any phase and after a finish, which allows more runs than the code has.
- Conformal.PerRowBand: regression cells, whose rows are squared residuals, are covered only by the general results.
- The agent loop's in-place updates of transcript and effect map are steps on values, so that a crash can fall between any two log lines; the cycle search passes its colour map by value. Aliasing is not captured.
- Result spilling, payload trimming, redaction, timeouts, hooks, telemetry and emitted events of the agent loop appear only as arbitrary results or refusals.
- Object values with `undefined` members, functions, non-finite numbers or integer-like key reordering in permission arguments; labels are modelled as reasons, not as text.
- Sub-agent fan-outs under a parent view that is itself a reservation (refused at the default depth), the near-limit warning, concurrency limits and session assembly.
- SubagentBudgets.OvershootBound: compaction calls spend without being gated, by design, and are excluded there; they are included in conservation and reservation.
- Orchestrator.Run.Execute: lease compare-and-set and lease loss between transitions are not modelled beyond a worker vanishing inside a handler or an agent step; kernel control records, supervision notes, memory consolidation and parking tags are left out.
- Dependency order inside the step chooser, contestedness signals, the quality-gate thresholds, experiment-leg status and iteration fingerprints are arbitrary answers.
- Campaign stop-reason texts, events, and the mapping from statistical verdicts to unit states.
- Backup creation, creating the data and staging directories, manifest parsing, SQLite integrity and version checks: a member is verified when its content has its digest.
- MCP transports, providers, CLI, renderers, exports, claim grading and truth classification: presentation or small case tables.
