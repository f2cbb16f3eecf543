# big-brain utility AI, modelled in Dafny

This project models the decision core of big-brain, a utility-AI library for
the Bevy entity-component system, and proves properties of that model.

- **Actors.** An actor (an entity) carries a thinker.
- **Thinker.** It holds a list of choices, each pairing a scorer with an
  action template, and a picker. It also has an optional fallback action and
  a FIFO queue of scheduled actions.
- **Scorers.** Each scorer writes a score in [0, 1] every frame. Composite
  scorers combine their children's scores:
  - all-or-nothing;
  - sum;
  - product, optionally compensated;
  - winning;
  - evaluating, which applies a curve (linear, power or sigmoid);
  - measured, with a weighted sum, weighted product, Chebyshev distance or
    weighted measure.
- **Thinker pass.** Once the current action is done, the thinker despawns
  it and starts the next one. The next action is the front of the queue,
  else the picker's choice, else the fallback.
- **Actions.** Actions move through a lifecycle of states. Composite actions
  drive their children:
  - Sequence and Concurrently, each in join or race mode;
  - Sequence in step mode, and Steps, which run their children one at a
    time.

## How the source maps onto the model

Each source file is one Dafny module.
- **Pure code** (lifecycles, pickers, measures, evaluators, builders) becomes
  datatypes and functions.
- **Code that changes state in place** becomes classes with `modifies`
  clauses:
  - the composite action nodes;
  - the thinker;
  - the `Score` component.
- **Systems.** Each system that updates those classes is a method with a
  loop. Its `ensures` ties the new state to a specification function of the
  old state, for example `Tick(state, children) == JoinTick(old(state),
  old(children))`. The lemmas and the specification functions' own contracts
  then state what the source promises.

The ECS is reduced to plain values:
- An entity is a `nat`.
- A spawnable template is an opaque `Template`.
- The queries a system reads become maps or sequences of children.
- Deferred commands (`Despawn`, `Spawn`) become sequences of `Command`
  values.
- Handles that `Commands::spawn` would allocate are parameters.

Numbers:
- `f32` is `real`.
- `f32::clamp` panics when `min > max`, so `Numeric.Clamp` requires
  `lo <= hi`.
- `f32::powf` and the square root that `WeightedMeasure` takes are parameters
  of the functions that use them. The square root carries the predicate
  `IsSquareRoot`.

### Where the documented behaviour and the code differ

The model follows the code in each of these cases:
- **Join cancels children after the failure.** A Join `Sequence` with
  children `[Success, Failure, Executing]` cancels the third child too. The
  scanning loop cancels executing children met after a failure
  (src/sequence.rs:149). The loop that follows cancels those before the last
  failure (src/sequence.rs:157-159).
- **`FirstToScore` needs a score strictly above the threshold.** It uses
  `>` (src/pickers.rs:59), not `>=`.
- **The thinker never interrupts.** The queue is consulted before the picker
  (src/thinker.rs:235-237). A running action is never cancelled: the thinker
  waits until the action is done (src/thinker.rs:224-232).
- **`ActionState::execute` sets `Requested`.** It sets `Requested`
  (src/action.rs:63-65), not `Executing`. So `Concurrently` only reaches
  `Executing` through a state that nothing in the core sets, and a
  `Concurrently` left in `Requested` re-requests its children on every pass
  (`Concurrent.RequestedNeverStarts`).

## Model

| member | source | states |
|---|---|---|
| Lifecycle.ActionState.CancelIfExecuting | src/sequence.rs:157-159 | only `Executing` becomes `Cancelled`; every other state is kept; the result is never `Executing` and is done exactly when the input was |
| Lifecycle.CancelIfExecutingIdempotent | src/sequence.rs:157-159 | cancelling twice is the same as cancelling once |
| Lifecycle.DonePredicates | src/sequence.rs:144-170 | done means success or failure; success and failure exclude each other; an executing action is not done |
| Sequence.CancelRunning | src/sequence.rs:163-177 | only executing children change, each to `Cancelled`; afterwards none is executing |
| Sequence.JoinTick | src/sequence.rs:132-186 | a done node is unchanged; success only if every child succeeded, failure only if some child failed; on failure no child is left executing; otherwise the node stays executing and untouched; when cancelled, the node stays cancelled exactly until every child is done, leaves no child executing, and once all are done it fails if some child failed and succeeds otherwise, with the children untouched |
| Sequence.RaceTick | src/sequence.rs:188-242 | the mirror image of join: failure only if every child failed, success only if some child succeeded; a cancelled node stays cancelled until every child is done, then succeeds if some child succeeded and fails otherwise |
| Sequence.StepPass | src/sequence.rs:244-293 | one outcome per case: on a running node a running or cancelled step is waited for, a failed step is removed and the node fails, the last step's success is removed and the node succeeds, an earlier step's success is removed and the next step is spawned after the survivors with the index moved by one; on a cancelled node a running step is cancelled, a finished step's outcome is copied onto the node and a cancelled step is waited for; a done node or one without children is unchanged |
| Sequence.StepChainSucceeds | src/sequence.rs:244-293 | when every step succeeds, a running Step node walks through all remaining steps in order and ends in `Success` with no live child |
| Sequence.SpawnAll | src/sequence.rs:27-49 | join and race spawn one child per template, in order, each in the initial state |
| Sequence.Sequence.constructor | src/sequence.rs:27-49 | a new node keeps its mode and templates and starts at step 0; join and race spawn every child, step spawns only the first |
| Sequence.Sequence.ExecJoin | src/sequence.rs:132-186 | the new state and children are `JoinTick` of the old ones |
| Sequence.Sequence.ScanJoin | src/sequence.rs:141-152 | reports whether all children succeeded; reports a failing index exactly when some child failed, and that index is the last failure; cancels exactly the executing children after the first failure |
| Sequence.Sequence.ScanRace | src/sequence.rs:197-208 | reports whether all children failed; reports a succeeding index exactly when some child succeeded, and that index is the last success; cancels exactly the executing children after the first success |
| Sequence.Sequence.CancelBefore | src/sequence.rs:157-159 | cancels the executing children before the given index and leaves the rest as they were |
| Sequence.Sequence.CancelAll | src/sequence.rs:163-183 | cancels every executing child and reports whether all children were done and whether any succeeded or failed |
| Sequence.Sequence.ExecRace | src/sequence.rs:188-242 | the new state and children are `RaceTick` of the old ones |
| Sequence.Sequence.ExecStep | src/sequence.rs:244-293 | the new state, step index and children are `StepPass` of the old ones |
| Sequence.Sequence.Run | src/sequence.rs:110-130 | dispatches on the mode: a join, race or step pass; the step index changes only in step mode |
| Action.ActionState.Request | src/action.rs:58-60 | the new state is `Requested` |
| Action.ActionState.Execute | src/action.rs:63-65 | the new state is `Requested`, not `Executing`, as written |
| Action.ActionState.Cancel | src/action.rs:68-70 | the new state is `Cancelled` |
| Action.ActionState.DoneSuccess | src/action.rs:73-75 | the new state is `Success`, which is done |
| Action.ActionState.DoneFailure | src/action.rs:78-80 | the new state is `Failure`, which is done |
| Action.ActionState.CancelIfRunning | src/action.rs:83-87 | `Requested` and `Executing` become `Cancelled`; every other state is kept; done-ness is preserved |
| Action.CancelIfRunningIdempotent | src/action.rs:83-87 | cancelling twice is the same as cancelling once |
| Action.DonePredicates | src/action.rs:90-102 | about `IsDone`, `IsSuccess` and `IsFailure` (`is_done`, `is_success`, `is_failure`): done means success or failure; success and failure exclude each other; a done action is neither running nor cancelled |
| Action.NewInner | src/action.rs:115-118 | a new `ActionInner` holds the given builder and a fresh identity |
| Action.IdEq | src/action.rs:120-122 | identity equality compares the id tokens only; every handle is equal to itself, and between handles with the same builder it is plain equality |
| Action.IdEqProperties | src/action.rs:120-122 | identity equality is reflexive and symmetric and ignores the builder |
| Action.TwoNewAreDistinct | src/action.rs:115-122 | two `ActionInner`s made from the same builder are not `id_eq` |
| Concurrent.ConcurrentlyBuilder.Push | src/action/concurent.rs:26-30 | appends one template after the others and keeps the mode |
| Concurrent.ConcurrentlyBuilder.WithMode | src/action/concurent.rs:32-35 | replaces the mode and keeps the templates |
| Concurrent.Build | src/action/concurent.rs:95-100 | a new builder is in join mode with no templates |
| Concurrent.CancelRunning | src/action/concurent.rs:149-160 | only requested or executing children change, each to `Cancelled`; afterwards none is running |
| Concurrent.RequestAll | src/action/concurent.rs:120-124 | every child becomes `Requested` and nothing else changes |
| Concurrent.JoinTick | src/action/concurent.rs:116-169 | a done node is unchanged; a requested node requests every child; success only if all children succeeded, failure only if some failed; otherwise unchanged; a cancelled node stays cancelled exactly until every child is done and leaves no child running, then fails if some child failed and succeeds otherwise, with the children untouched |
| Concurrent.RaceTick | src/action/concurent.rs:171-224 | the mirror image of join, with the same requested case; a cancelled node stays cancelled until every child is done, then succeeds if some child succeeded and fails otherwise |
| Concurrent.RequestedNeverStarts | src/action/concurent.rs:119-125 | a node in `Requested` stays in `Requested` over any number of passes and keeps re-requesting its children |
| Concurrent.Concurrently.constructor | src/action/concurent.rs:38-56 | a new node keeps the mode, spawns one child per template in order, and starts in the default state |
| Concurrent.Concurrently.Run | src/action/concurent.rs:104-114 | the new state and children are one pass in the node's mode |
| Concurrent.Concurrently.ExecJoin | src/action/concurent.rs:116-169 | the new state and children are `JoinTick` of the old ones |
| Concurrent.Concurrently.ExecRace | src/action/concurent.rs:171-224 | the new state and children are `RaceTick` of the old ones |
| Concurrent.Concurrently.RequestEach | src/action/concurent.rs:120-124 | every child becomes `Requested` |
| Concurrent.Concurrently.Scan | src/action/concurent.rs:126-138 | reports whether all children are in one state; reports an index of a child in the decisive state exactly when there is one, and it is the last such child; cancels exactly the running children after the first such child |
| Concurrent.Concurrently.CancelBefore | src/action/concurent.rs:143-145 | cancels the running children before the given index and leaves the rest as they were |
| Concurrent.Concurrently.CancelAll | src/action/concurent.rs:149-166 | cancels every running child; reports whether all were done and which outcome follows |
| Steps.StepsBuilder.Step | src/action/steps.rs:17-21 | appends one step after the others |
| Steps.Build | src/action/steps.rs:73-77 | a new builder has no steps |
| Steps.StepsPass | src/action/steps.rs:79-139 | the index stays in range; a done node is unchanged; a requested node requests its active step and starts executing; on a running node a running or cancelled step is waited for, a failed step is despawned and the node fails, the last step's success is despawned and the node succeeds, and an earlier step's success despawns it and spawns the next step for the actor with the index moved by one; a cancelled node cancels a running step, copies a finished step's outcome and waits on a cancelled one, issuing no commands |
| Steps.Steps.constructor | src/action/steps.rs:24-35 | a new node starts at step 0 with the first step spawned in the default state |
| Steps.Steps.Run | src/action/steps.rs:79-139 | the new state, index, active step and issued commands are `StepsPass` of the old ones |
| Steps.SpawnSteps | src/action/steps.rs:24-35 | spawning yields no node exactly when there are no steps; otherwise the node starts on the first step |
| Thinker.ThinkerBuilder.When | src/thinker.rs:123-135 | appends one (scorer, action) choice after the others |
| Thinker.ThinkerBuilder.Otherwise | src/thinker.rs:137-140 | sets the fallback action and keeps the choices |
| Thinker.Build | src/thinker.rs:74-78 | a new builder has the picker, no choices and no fallback |
| Thinker.NextAction | src/thinker.rs:235-237 | the front of the queue if there is one, else the picker's choice, else the fallback |
| Thinker.ThinkPass | src/thinker.rs:217-245 | while the current action is not done, nothing happens; once it is done, the commands are exactly its despawn followed by the spawn of the next action, the queue front before the picker's choice before the fallback, which becomes current; the queue loses its front whenever the thinker was idle and the queue was not empty |
| Thinker.ScheduledRunInOrder | src/thinker.rs:90-96 | scheduled actions are started in the order they were scheduled, one per idle pass |
| Thinker.Thinker.constructor | src/thinker.rs:143-179 | a new thinker keeps the picker and fallback, pairs each choice's action with its spawned scorer in order, and has no current action and an empty queue |
| Thinker.Thinker.Schedule | src/thinker.rs:90-92 | appends the action to the back of the queue |
| Thinker.Thinker.HasScheduled | src/thinker.rs:94-96 | true exactly when the queue is not empty |
| Thinker.Thinker.Think | src/thinker.rs:217-245 | the new current action, queue and issued commands are `ThinkPass` of the old ones |
| Thinker.AttachSystem | src/thinker.rs:143-179 | each actor with a builder and no thinker is marked with its thinker handle, other actors are unchanged; the new thinkers are fresh, one per such actor in actor order, each configured from its actor's builder by `Attached`, which also pairs the j-th thinker with the handle of the j-th actor that gets one; no current action and an empty queue |
| Thinker.ConfigFor | src/thinker.rs:150-176 | the thinker built for an actor keeps the builder's picker and fallback and pairs each choice's action with the scorer spawned for it, in order |
| Thinker.Attached | src/thinker.rs:143-179 | the thinkers attached to the first actors hold one entry, with that actor's handle and configuration, for each actor that has a builder and no thinker, and nothing else |
| Thinker.DetachSystem | src/thinker.rs:181-191 | each actor that lost its builder but still has a thinker has that thinker despawned and is marked as having none |
| Thinker.Detached | src/thinker.rs:181-191 | a thinker is despawned if and only if it belongs to an actor that lost its builder |
| Thinker.DetachedAppend | src/thinker.rs:181-191 | detaching is done actor by actor: one more actor adds only its own thinker |
| Thinker.Orphans | src/thinker.rs:193-206 | exactly the nodes whose actor no longer has a builder |
| Thinker.ActorGoneCleanup | src/thinker.rs:193-206 | despawns exactly the orphans, in order |
| Pickers.Calculate | src/pickers.rs:18-23 | a choice's value is its scorer's current score |
| Pickers.ScoresOf | src/pickers.rs:18-23 | one value per choice, in order |
| Pickers.FirstToScore | src/pickers.rs:56-61 | the first choice scoring strictly above the threshold; none exactly when no choice does |
| Pickers.Highest | src/pickers.rs:70-83 | none exactly when no choice scores above the threshold; otherwise a choice above the threshold that no other beats, and the first among ties |
| Pickers.PickHighest | src/pickers.rs:70-83 | the loop returns `Highest` |
| Pickers.Pick | src/pickers.rs:39 | a picked choice scores above the threshold; nothing is picked exactly when no choice does |
| Numeric.Clamp | src/scorer.rs:246 | the result lies in [lo, hi], equals the value when it is already there, and is the nearer bound otherwise |
| Numeric.ClampIdempotent | src/scorer.rs:246 | clamping twice is the same as clamping once |
| Numeric.ClampMonotone | src/scorer.rs:246 | clamping preserves order |
| Numeric.SumNonNegative | src/scorer.rs:280-295 | the sum of non-negative scores is non-negative |
| Numeric.ProductUnit | src/scorer.rs:333-351 | the product of scores in [0, 1] lies in [0, 1] and is at most each factor |
| Numeric.Max | src/scorer.rs:424-447 | the maximum is at least every score and is one of them |
| Scorer.Score.constructor | src/scorer.rs:89-91 | a new score is 0 |
| Scorer.Score.Set | src/scorer.rs:104-109 | sets the value, which must lie in [0, 1] |
| Scorer.Score.SetUnchecked | src/scorer.rs:115-117 | sets any value |
| Scorer.Values | src/scorer.rs:231-248 | the children's current scores, in order |
| Scorer.AllOrNothing | src/scorer.rs:231-248 | 0 if any child is below the threshold or there are no children; otherwise the clamped sum; always in [0, 1] |
| Scorer.SumOfScorers | src/scorer.rs:280-295 | 0 if the sum is below the threshold, else the clamped sum; in [0, 1] |
| Scorer.ProductOfScorers | src/scorer.rs:333-351 | 0 if the product is below the threshold, else the clamped product; in [0, 1] |
| Scorer.Compensate | src/scorer.rs:377-381 | a product in [0, 1) is raised but stays at most 1; a product of 1 or more and a single child are left alone |
| Scorer.EmptyProductIsOne | src/scorer.rs:377-381 | a product below 1 has at least one child, so the compensation factor never divides by zero |
| Scorer.CompensatedProduct | src/scorer.rs:364-390 | 0 if the compensated product is below the threshold, else that product clamped; in [0, 1] |
| Scorer.CompensatedAtLeastPlain | src/scorer.rs:364-390 | with scores in [0, 1], compensation never lowers the output |
| Scorer.Winning | src/scorer.rs:424-447 | 0 with no children or when the best score is below the threshold; otherwise the best score; in [0, 1] |
| Scorer.FixedScorerSystem | src/scorer.rs:193-197 | writes the fixed value |
| Scorer.IdleScorerSystem | src/scorer.rs:172-176 | writes `f32::MIN_POSITIVE` (2^-126), a score strictly between 0 and 1 |
| Scorer.AllOrNothingSystem | src/scorer.rs:231-248 | the parent's new score is `AllOrNothing` of the children's scores |
| Scorer.SumOfScorersSystem | src/scorer.rs:280-295 | the parent's new score is `SumOfScorers` of the children's scores |
| Scorer.SumValues | src/scorer.rs:285-289 | the loop computes the sum of the children's scores |
| Scorer.ProductValues | src/scorer.rs:369-373 | the loop computes the product of the children's scores and counts them |
| Scorer.ProductOfScorersSystem | src/scorer.rs:333-351 | the parent's new score is `ProductOfScorers` of the children's scores |
| Scorer.CompensatedProductSystem | src/scorer.rs:364-390 | the parent's new score is `CompensatedProduct` of the children's scores |
| Scorer.WinningSystem | src/scorer.rs:424-447 | the parent's new score is `Winning` of the children's scores |
| Scorer.Spawn | src/scorer.rs:76-84 | the root carries the template's bundle; every node spawned is stamped with the actor and a zero score and gets consecutive handles; the root's children are the templates' roots, in order, with matching bundles |
| Scorer.SpawnChildren | src/scorer.rs:36-39 | spawns each remaining child subtree after the previous one and pushes its root under the parent |
| Scorers.ProductOfScorersBuilder.UseCompensation | src/scorers.rs:355-359 | sets the compensation flag only |
| Scorers.ProductOfScorersBuilder.Push | src/scorers.rs:361-364 | appends one child after the others |
| Scorers.BuildProduct | src/scorers.rs:296-303 | a new builder does not compensate and has no children |
| Scorers.ProductScore | src/scorers.rs:305-342 | the compensated product when compensation is on, the plain one otherwise; in [0, 1] |
| Scorers.CompensationNeverLowers | src/scorers.rs:305-342 | turning compensation on never lowers the output, and changes nothing for one child |
| Scorers.ProductSystem | src/scorers.rs:305-342 | the parent's new score is `ProductScore` of the children's scores |
| Scorers.EvaluatedScore | src/scorers.rs:537-547 | the evaluator's value clamped into [0, 1], unchanged when already inside |
| Scorers.EvaluatingScorerSystem | src/scorers.rs:537-547 | the parent's new score is `EvaluatedScore` of the inner scorer's score |
| Scorers.MeasuredScorerBuilder.WithMeasure | src/scorers.rs:680-683 | replaces the measure only |
| Scorers.MeasuredScorerBuilder.Push | src/scorers.rs:685-688 | appends one (child, weight) pair after the others |
| Scorers.BuildMeasured | src/scorers.rs:636-643 | a new builder uses `WeightedMeasure` and has no children |
| Scorers.SpawnMeasured | src/scorers.rs:691-715 | each spawned child is paired with the weight pushed at the same position |
| Scorers.SpawnAfterPush | src/scorers.rs:685-715 | one more push adds exactly one pair at the end and leaves the earlier pairs alone |
| Scorers.Inputs | src/scorers.rs:650-654 | each child's current score with its weight, in order |
| Scorers.MeasuredScore | src/scorers.rs:658-664 | 0 below the threshold, otherwise the clamped measure; in [0, 1] |
| Scorers.DefaultMeasureUnclamped | src/scorers.rs:658-664 | with the default measure, in-range scores and non-negative weights, a value that reaches the threshold is written unchanged |
| Scorers.MeasuredScorerSystem | src/scorers.rs:645-666 | the parent's new score is `MeasuredScore` of the measure applied to the inputs |
| Measures.Weighted | src/measures.rs:20-40 | score times weight for each input, in order |
| Measures.WeightedSumOf | src/measures.rs:20-27 | the empty sum is 0; with scores in [0, 1] and non-negative weights, the weighted sum lies between 0 and the total weight |
| Measures.WeightedProductOf | src/measures.rs:33-40 | the empty product is 1; with non-negative weights the product is non-negative; with scores and weights in [0, 1] it lies in [0, 1] and is at most each weighted score |
| Measures.ChebyshevOf | src/measures.rs:48-55 | the fold of `max` starting from 0 is never negative |
| Measures.ChebyshevIsMax | src/measures.rs:48-55 | the result is at least every weighted score, and is either the starting 0 or one of the weighted scores |
| Measures.WeightedMeasureOf | src/measures.rs:61-74 | 0 when the weights sum to 0; otherwise a non-negative value whose square is the weighted mean of the squared scores |
| Measures.MeanSquareBounds | src/measures.rs:61-74 | the weighted mean of squared scores lies between 0 and the weights seen over the total |
| Measures.WeightedMeasureUnit | src/measures.rs:61-74 | with scores in [0, 1] and non-negative weights, the weighted measure lies in [0, 1] |
| Measures.Calculate | src/measures.rs:10-13 | every shipped measure is non-negative on scores in [0, 1] with non-negative weights, and `WeightedMeasure` is also at most 1 |
| Measures.ProductNonNegative | src/measures.rs:33-40 | a product of non-negative values is non-negative |
| Evaluator.NewLinear | src/evaluator.rs:86-93 | keeps xa, ya and yb, and the slope times the input width is the output span |
| Evaluator.EvaluateLinear | src/evaluator.rs:102-107 | the result lies in [ya, yb]; when ya < yb it is ya exactly when the line is at or below ya, and yb exactly when it is at or above yb; between the bounds it is the point on the line |
| Evaluator.LinearCalibration | src/evaluator.rs:86-107 | an evaluator sends xa to ya and xb to yb |
| Evaluator.LinearMonotone | src/evaluator.rs:102-107 | a non-decreasing line gives non-decreasing outputs |
| Evaluator.DefaultLinear | src/evaluator.rs:96-100 | outputs range over [0, 1] |
| Evaluator.DefaultLinearIsClamp | src/evaluator.rs:96-107 | the default linear evaluator is clamping into [0, 1] |
| Evaluator.Ranged | src/evaluator.rs:82-84 | outputs range over [0, 1] starting at `min` |
| Evaluator.RangedCalibration | src/evaluator.rs:82-84 | `min` goes to 0, `max` to 1, and values in between to their fraction of the range |
| Evaluator.InversedArgsAsWritten | src/evaluator.rs:78-80 | the calibration points as written |
| Evaluator.InversedAsWrittenDegenerate | src/evaluator.rs:78-80 | as written both calibration points have x = 1, so `NewLinear`'s precondition fails; the f32 code builds an evaluator with an infinite slope instead (a step at x = 1, NaN at 1) |
| Evaluator.Inversed | src/evaluator.rs:78-80 | the intended points (1, 0) and (0, 1); outputs range over [0, 1] |
| Evaluator.InversedIsComplement | src/evaluator.rs:78-80 | the intended evaluator maps x to 1 - x clamped into [0, 1]; 0 goes to 1 and 1 to 0 |
| Evaluator.NewPowerFull | src/evaluator.rs:129-137 | the exponent is clamped into [0, 10000]; the ranges are kept |
| Evaluator.NewPower | src/evaluator.rs:121-123 | input and output range [0, 1] |
| Evaluator.NewPowerRanged | src/evaluator.rs:125-127 | input range [min, max], output range [0, 1] |
| Evaluator.DefaultPower | src/evaluator.rs:140-144 | the square curve on [0, 1] |
| Evaluator.PowerBase | src/evaluator.rs:147-150 | the clamped input as a fraction of the input range: in [0, 1], 0 at or below xa and 1 at or above xb |
| Evaluator.EvaluatePower | src/evaluator.rs:147-150 | ya at or below xa and yb at or above xb, for a `powf` that fixes 0 and 1 |
| Evaluator.PowerInRange | src/evaluator.rs:147-150 | with a `powf` that keeps [0, 1] in [0, 1], every output lies between ya and yb |
| Evaluator.NewSigmoidFull | src/evaluator.rs:173-181 | the steepness is clamped into [-0.99999, 0.99999]; the ranges are kept |
| Evaluator.NewSigmoid | src/evaluator.rs:165-167 | input and output range [0, 1] with the steepness in range |
| Evaluator.NewSigmoidRanged | src/evaluator.rs:169-171 | input range [min, max], output [0, 1] |
| Evaluator.DefaultSigmoid | src/evaluator.rs:199-203 | steepness -0.5 on [0, 1] |
| Evaluator.TwoOverDxAsWrittenCounterexample | src/evaluator.rs:190 | as written, `new_ranged(k, 2, 4)` scales the top of its input range to 0.5 instead of 1 |
| Evaluator.TwoOverDxNormalises | src/evaluator.rs:188-192 | the intended factor scales the clamped input onto [-1, 1], reaching -1 at xa and 1 at xb |
| Evaluator.EvaluateSigmoidAsWritten | src/evaluator.rs:185-196 | undefined exactly where a divisor is zero; otherwise in [ya, yb] |
| Evaluator.SigmoidAsWrittenCounterexample | src/evaluator.rs:194 | as written, the default sigmoid sends 0 to 1 and divides by zero at 0.25; the intended curve sends 0 to 0 |
| Evaluator.SigmoidOutput | src/evaluator.rs:195 | maps -1, 0 and 1 to ya, the middle of the output range and yb; in [ya, yb] |
| Evaluator.Denominator | src/evaluator.rs:194 | the intended denominator is positive for a steepness in range |
| Evaluator.SigmoidShape | src/evaluator.rs:193-194 | the normalised tunable sigmoid maps [-1, 1] onto itself and fixes -1, 0 and 1 |
| Evaluator.EvaluateSigmoid | src/evaluator.rs:185-196 | the intended curve lies in [ya, yb], gives ya at or below xa, yb at or above xb, and the middle of the output range at the middle of the input range |
| Evaluator.EvaluatingScorerSystem | src/evaluator.rs:55-65 | the parent's new score is the evaluator's value of the first child's score, clamped into [0, 1] |

## Left out

- Bevy scheduling, queries, `Commands` application and `despawn_recursive` are not modelled as such. Systems take their inputs as values and return or perform their effects on the modelled state; deferred commands are a sequence of `Command` values.
- Entity allocation: fresh entity handles are parameters (assumed distinct), not allocated.
- `f32` rounding, NaN and infinities are not modelled; `f32` is `real`. `Score::set` would panic on a NaN; the model requires the value to be in [0, 1] where the source panics otherwise.
- `f32::powf` and the square root of `WeightedMeasure` are parameters (`pow`, `sqrt`), because they are foreign floating-point functions.
- User-written `Measure` and `Picker` implementations are not modelled: `Measure` and `Picker` are closed datatypes holding the implementations the library ships. User-written `Evaluator` implementations are function parameters, and user-written `ScorerBuilder` and `ActionBuilder` implementations are opaque templates.
- `crate::evaluators::clamp`, used by the older scorers in src/scorers.rs, is not part of this model; it is taken to behave as `f32::clamp` (`Numeric.Clamp`).
- The `Score` component and the all-or-nothing, sum and winning systems of src/scorers.rs are the same as those of src/scorer.rs and are modelled once, in module `Scorer`.
- The older builders' `spawn` in src/scorers.rs (`AllOrNothingBuilder`, `SumOfScorersBuilder`, `ProductOfScorersBuilder`, `WinningScorerBuilder`, `EvaluatingScorerBuilder`) only differ in spawning order and are not modelled; `MeasuredScorerBuilder::spawn`'s pairing of children with weights is (`Scorers.SpawnMeasured`), and the current `ScorerSpawner` tree is (`Scorer.Spawn`).
- `winning_scorer_system` sorts with `total_cmp` and takes the last element; the model takes the maximum (`Numeric.Max`), which is the same value.
- `Without<Sequence>` query filters (a Sequence node never reads its own state through the child query) are not modelled; children are a separate sequence.
- Reflection, `Debug` output and the derive macros are not modelled.
- Sequence.Rounds and Thinker.Passes model repeated frames as iterated passes with the children's outcomes chosen by the lemma; they are not the ECS frame loop.
- Pickers.FirstToScore: requires every choice to have a score, while the source reads scores only up to the first match.
- Evaluator.NewLinear: requires xa != xb, because the source divides by xb - xa; `inversed()` as written breaks this (see Findings).
- Evaluator.EvaluateLinear: requires ya <= yb, because `f32::clamp` panics otherwise.
- Evaluator.EvaluateSigmoid: requires xa < xb and the steepness every constructor leaves (`SteepnessInRange`); it is the corrected curve, and Evaluator.EvaluateSigmoidAsWritten is the curve as written.
- Evaluator.EvaluatePower: states the endpoints only for a `pow` that fixes 0 and 1, because `powf` is a parameter.
- Measures.WeightedMeasureOf: states the result through `IsSquareRoot` rather than computing `powf(0.5)`.

## Findings

| source | as written | input that shows it | evidently intended | confidence | as-written member | corrected member |
|---|---|---|---|---|---|---|
| src/evaluator.rs:78-80 | `inversed()` calls `new(1.0, 0.0, 1.0, 1.0)`: both calibration points have x = 1, so `dy_over_dx` divides by zero | `LinearEvaluator::inversed()` for any input: the slope is infinite, and `evaluate(1.0)` computes 0 times infinity | `new(1.0, 0.0, 0.0, 1.0)`, mapping x to 1 - x clamped into [0, 1] | high; not executed | Evaluator.InversedAsWrittenDegenerate | Evaluator.InversedIsComplement |
| src/evaluator.rs:190 | `two_over_dx` is `2 / (xb - ya)`, mixing an input bound with an output bound | `SigmoidEvaluator::new_ranged(k, 2.0, 4.0)` at x = 4: the offset 1 is scaled to 0.5 instead of 1 | `2 / (xb - xa)`, scaling the input range onto [-1, 1] | high; not executed | Evaluator.TwoOverDxAsWrittenCounterexample | Evaluator.TwoOverDxNormalises |
| src/evaluator.rs:194 | the denominator is `k * |1 - 2u| + 1`, where the normalised tunable sigmoid has `k * (1 - 2|u|) + 1` | `SigmoidEvaluator::default()` at x = 0 gives 1 (the top of the output range) and at x = 0.25 divides by zero | `k * (1 - 2|u|) + 1`, which is positive for any steepness in range and gives a curve from ya to yb | high; not executed | Evaluator.SigmoidAsWrittenCounterexample | Evaluator.EvaluateSigmoid |
