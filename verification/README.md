# Numerical and protocol kernels of the Horizon services

This project models the algorithmic kernels of the Horizon core: ordered pattern matching, the ridge
solve of the neural resolution heads, evidence provenance counting, finite metareasoning over beliefs,
off-policy credit, bounded inspection paging, the monitor's snapshot scheduler, snapshot statistics,
physical-time memory decay, canonical persistence, the cognitive parameter layout, the recurrent context,
information dynamics and the WebSocket frame codec.

Each module is one component. A loop or an object that the services update in place is a method or a class
here, and its contract ties the result to an independent definition: a matching, the solution of a linear
system, connected components, an expectation over a decision tree, the ascending listing of a key set.
The lemmas prove what those definitions promise.

Floating point numbers are exact reals, and exponential and square root are function parameters with
their algebraic laws as hypotheses. The order in which Go walks a map is arbitrary: results are stated
for sets, for any arrival order, or as independent of it. A comparison sort is any function that sees
only comparisons and may break ties as it likes. Each public operation is one atomic step; only the
snapshot scheduler interleaves events.

Where the code and its intention differ, the model follows the code and says exactly where they part:

- The 64-bit length form of the WebSocket reader starts its accumulator from the marker 127, so every such
  frame is refused. The reader takes the start value as a parameter, `AS_WRITTEN` or `INTENDED`.
- The snapshot scheduler compares revisions as JavaScript numbers, so a revision that is not a number is
  never behind and is delivered.
- Decay calls clamp every time, so any two calls equal one call exactly when no weight or confidence that can
  decay is still above one after its first nanosecond, and no priority after the first call.
- The second construction of the metalevel belief ignores the uniform-likelihood switch. It then agrees with
  the first exactly for observations whose result cannot matter, because one option is best whatever they show.
- The per-node graph statistics read an edge's target off its bucket. Both forms agree on a node exactly when
  the other nodes file under it as much as they aim at it: as many synapses, from as many sources by relation,
  of as many kinds, with the same total confidence. Keying buckets by target suffices.

## Model

| member | source | states |
|---|---|---|
| OrderedPattern.Assign | services/ai/knowledge/ordered_pattern.go:105-118 | one augmenting search: success places the step and keeps every other placed step, failure leaves the assignment unchanged and the visited frames closed under alternating paths; it terminates because every call visits a new frame |
| OrderedPattern.OrderedSuffixBagMatches | services/ai/knowledge/ordered_pattern.go:96-125 | true exactly when the steps can be sent to different frames among the last ones of the trace, as many as there are steps, so that every neuron of a step fired in its frame; a refusal on lengths that fit is always due to a set of steps with too few frames |
| OrderedPattern.HallViolatorForbidsMatching | services/ai/knowledge/ordered_pattern.go:93-125 | a set of steps with fewer compatible frames than members rules out every assignment |
| OrderedPattern.ExhaustedIsViolator | services/ai/knowledge/ordered_pattern.go:107-122 | when a search fails, the steps holding visited frames together with the new step form such a set |
| OrderedPattern.PlacementIsMatching | services/ai/knowledge/ordered_pattern.go:119-124 | when all steps are placed, the frame-to-step array inverts to an assignment |
| OrderedPattern.ExactMatchIsBagMatch | services/ai/knowledge/ordered_pattern.go:72-98 | a positional suffix match is also a bag match, except for the empty pattern, which only the positional check accepts |
| OrderedPattern.OlderFramesDoNotMatter | services/ai/knowledge/ordered_pattern.go:72-100 | frames before the last ones play no part in either match |
| OrderedPattern.BagMatchOnTrace | services/ai/knowledge/ordered_pattern.go:63-125 | the bag match on positions of the whole trace |
| OrderedPattern.PositionalMatchOnTrace | services/ai/knowledge/ordered_pattern.go:63-83 | the positional match on positions of the whole trace: step by step at its end |
| PatternPrediction.Gather | services/ai/knowledge/ordered_pattern.go:143-175 | the candidates are those of the channels whose stem fits in some order, and best is the greatest specificity among the exact ones |
| PatternPrediction.PredictOrdered | services/ai/knowledge/ordered_pattern.go:130-193 | nothing without an exact channel; otherwise support and strength are the greatest over the exact channels of each result, and competitors are all fitting results in ascending order |
| PatternPrediction.PredictionIsUnique | services/ai/knowledge/ordered_pattern.go:145-192 | the prediction is a function of the set of patterns: the map walk order cannot change it |
| PatternPrediction.PredictionBounds | services/ai/knowledge/ordered_pattern.go:158-186 | every supported result is a competitor (the bag gate costs no exact channel), supports lie in (0, 1] with the best at 1, strengths never exceed 0.35 |
| PatternPrediction.ExactOnTrace | services/ai/knowledge/ordered_pattern.go:145-165 | an ordered channel is exact on what ends like its observation without the last frame, in all three streams; a channel of bare steps on what ends with the steps before its result; specificity counts those frames |
| PatternPrediction.NotAChannel | services/ai/knowledge/ordered_pattern.go:146-155 | a sequence without two steps or without its result at the end, and an ordered channel without two observed frames, never match and never compete |
| PatternPrediction.StrengthLaw | services/ai/knowledge/ordered_pattern.go:169-173 | conductance is weight times confidence, halved for a channel never seen and whole from ten times on, within 0.01 and 0.35 |
| PatternPrediction.SoleBacker | services/ai/knowledge/ordered_pattern.go:180-186 | a result with one exact channel has its share of the best specificity as support, and that share of its conductance |
| RidgeFit.NormalEquations | services/ai/knowledge/neural_resolution.go:379-393 | the accumulated matrix is the ridge diagonal plus all outer products of extended witnesses, with the outcome column |
| RidgeFit.NormalForm | services/ai/knowledge/neural_resolution.go:379-393 | pairing that matrix with any two vectors is the ridge term plus the witnesses' responses times residuals |
| RidgeFit.EliminateColumn | services/ai/knowledge/neural_resolution.go:395-416 | the pivot row has the greatest magnitude, the guard is exactly its magnitude test, and a pass is one swap-scale-reduce step |
| RidgeFit.StepKeepsProgress | services/ai/knowledge/neural_resolution.go:401-416 | each step keeps every solution of the original system, adds a unit column and loses no equation |
| RidgeFit.PivotExists | services/ai/knowledge/neural_resolution.go:395-404 | below a million unknowns every column still has an entry above the pivot threshold: the singularity exit is never taken |
| RidgeFit.ReadOff | services/ai/knowledge/neural_resolution.go:418-431 | the last column of a fully reduced matrix solves the original equations |
| RidgeFit.Eliminate | services/ai/knowledge/neural_resolution.go:394-417 | the last column solves the normal equations, and giving up needs a million unknowns |
| RidgeFit.SolutionMinimises | services/ai/knowledge/neural_resolution.go:368-433 | a solution of the normal equations is the one and only minimiser of squared residual plus 1e-9 times the squared norm |
| RidgeFit.ValueIsResidual | services/ai/knowledge/neural_resolution.go:251-262 | the form of an extended witness is the prediction of the head less the outcome |
| RidgeFit.SolutionIsBestFit | services/ai/knowledge/neural_resolution.go:368-433 | the solution alone has the least sum of squared residuals of predictions plus a billionth of squared weights and bias |
| RidgeFit.SolveFit | services/ai/knowledge/neural_resolution.go:377-431 | accumulation, elimination and magnitude test together find the best fit |
| RidgeFit.HeadIndex | services/ai/knowledge/neural_resolution.go:243-250 | the first head with the query, or -1 |
| RidgeFit.Model.Fit | services/ai/knowledge/neural_resolution.go:369-433 | success installs in the head of the query the weights and bias of the best fit, all within 7.99; refusal happens only because a component of the best fit exceeds 7.99; other heads never change |
| EvidenceProvenance.LabelForest.Root | services/ai/knowledge/evidence_provenance.go:29-39 | path compression keeps every label's root and the acyclic forest; an unknown label becomes its own root |
| EvidenceProvenance.LabelForest.Join | services/ai/knowledge/evidence_provenance.go:40-45 | joining two labels adds exactly that edge to the connectivity the forest represents |
| EvidenceProvenance.SameRootIffConnected | services/ai/knowledge/evidence_provenance.go:28-45 | two labels have one root exactly when a path of attributed evidence joins them |
| EvidenceProvenance.RootsCountComponents | services/ai/knowledge/evidence_provenance.go:74-78 | distinct roots of declared groups are as many as components that hold a declared group |
| EvidenceProvenance.TrimSpaceSplits | services/ai/knowledge/evidence_provenance.go:49 | trimming takes the white space off both ends and nothing else |
| EvidenceProvenance.ChainedIffConnected | services/ai/knowledge/evidence_provenance.go:46-73 | chains of observations that share a field are the paths between their sources in the label graph |
| EvidenceProvenance.ClustersAreComponents | services/ai/knowledge/evidence_provenance.go:22-79 | there are as many clusters of declaring observations as components that hold a declared group |
| EvidenceProvenance.CountEvidenceProvenance | services/ai/knowledge/evidence_provenance.go:22-79 | all five counts on the trimmed fields: independent groups are the clusters of declaring observations under sharing a source, a declared group or a cause, names of different kinds never meeting |
| EvidenceProvenance.PermutationInvariant | services/ai/knowledge/evidence_provenance.go:22-79 | the order of the evidence does not matter |
| EvidenceProvenance.OneMoreObservation | services/ai/knowledge/evidence_provenance.go:59-78 | one more observation raises the independent groups by at most one, lowers them by at most one for each group and cause it names, and without a source changes none |
| FiniteBelief.MaxIndex | services/ai/knowledge/cognitive_model.go:487-495 | the first index of a greatest entry |
| FiniteBelief.Terminal | services/ai/knowledge/cognitive_bmps.go:71-80 | the greatest expected utility and the first option that reaches it |
| FiniteBelief.CertainValues | services/ai/knowledge/cognitive_bmps.go:71-80 | under certainty every option has its utility, and there is nothing to learn |
| FiniteBelief.ValuesMix | services/ai/knowledge/cognitive_bmps.go:71-126 | expected and perfect values mix as beliefs do |
| FiniteBelief.InformationSandwich | services/ai/knowledge/cognitive_bmps.go:115-168 | any split of a belief into parts is worth between deciding now and knowing the hypothesis |
| FiniteBelief.SplitIsWorthlessIff | services/ai/knowledge/cognitive_bmps.go:115-168 | a split is worth nothing exactly when one option is best in all of its parts |
| FiniteBelief.ValueOfResult | services/ai/knowledge/cognitive_bmps.go:128-144 | the probability of a result times the best value after conditioning on it is the best value of its unnormalised part, impossible results included |
| FiniteBelief.ValueAfterResult | services/ai/knowledge/cognitive_bmps.go:127-145 | conditioning on each result and weighting by its probability is the value of the unnormalised result parts; impossible results are skipped harmlessly |
| FiniteBelief.ValueAfterGroup | services/ai/knowledge/cognitive_bmps.go:146-164 | the same for the parts that share a group label |
| FiniteBelief.FeatureBounds | services/ai/knowledge/cognitive_bmps.go:124-165 | for every exactly normalised belief myopic and subset information lie between zero and perfect information, so no clamp at zero acts |
| FiniteBelief.BMPSInformation | services/ai/knowledge/cognitive_bmps.go:115-168 | features exist exactly for valid beliefs and are the values of information of each computation |
| FiniteBelief.WeightsAtAccepted | services/ai/knowledge/cognitive_bmps.go:179-199 | every point of the unit cube maps to weights that pass the weight check, with an exact simplex and a cost multiplier in [1, h] |
| FiniteBelief.WeightCorners | services/ai/knowledge/cognitive_bmps.go:228-230 | the corners of the cube are the pure weights in the order myopic, perfect, subset, and the last coordinate prices costs from once to the horizon |
| FiniteBelief.WeightLimits | services/ai/knowledge/cognitive_bmps.go:179-199 | weights are refused outside the unit interval and more than a billionth off the simplex or the price range |
| FiniteBelief.SelectBMPS | services/ai/knowledge/cognitive_bmps.go:200-220 | a decision exists exactly for accepted weights and a valid belief; it computes only when the first greatest positive worth says so and time remains |
| FiniteBelief.WorthOnValues | services/ai/knowledge/cognitive_bmps.go:210-213 | the worth of a computation is the weighted gains over deciding now less its weighted cost |
| FiniteBelief.PureWeightsChoose | services/ai/knowledge/cognitive_bmps.go:200-220 | with all weight on one feature the rule computes, while time remains, exactly when observing, full information or the group is worth some weighted cost |
| FiniteBelief.ClockIsGreatest | services/ai/knowledge/cognitive_bmps.go:201 | costs are priced over the greatest of horizon, remaining steps and one |
| FiniteBelief.ChosenCostsLessThanPerfect | services/ai/knowledge/cognitive_bmps.go:210-218 | a chosen computation costs less than perfect information, strictly for exact weights and up to the tolerance otherwise |
| FiniteBelief.After | services/ai/knowledge/cognitive_bmps.go:81-106 | Bayesian conditioning, refused exactly for an invalid belief, an index out of range, no remaining step or an impossible result |
| FiniteBelief.AfterKeepsBelief | services/ai/knowledge/cognitive_bmps.go:81-106 | the posterior is again a valid belief over one step less with the same clock |
| FiniteBelief.RunsStayValidAndStop | services/ai/knowledge/cognitive_bmps.go:81-220 | a run of selecting and conditioning stays valid, stops within the remaining steps and only ever buys below perfect information |
| Cholesky.Factor | services/ai/knowledge/cognitive_bmps.go:249-270 | success yields a lower triangular factor with positive diagonal whose product with its transpose is the input; for symmetric input it succeeds exactly on positive definite matrices |
| Cholesky.FactorIsDefinite | services/ai/knowledge/cognitive_bmps.go:249-270 | a matrix with such a factor is positive definite |
| Cholesky.StuckIsNotDefinite | services/ai/knowledge/cognitive_bmps.go:260-262 | a non-positive pivot proves that the matrix is not positive definite |
| Cholesky.QuadraticIsSquare | services/ai/knowledge/cognitive_bmps.go:249-270 | the quadratic form is the squared norm in factor coordinates |
| Cholesky.ForwardSolve | services/ai/knowledge/cognitive_bmps.go:271-280 | forward substitution solves the lower triangular system |
| Cholesky.BackwardSolve | services/ai/knowledge/cognitive_bmps.go:281-290 | backward substitution solves the transposed system |
| Cholesky.Solve | services/ai/knowledge/cognitive_bmps.go:271-290 | for the factor of a symmetric matrix the result solves the matrix equation for every right-hand side |
| CreditAssignment.BehaviorPolicy | services/ai/knowledge/cognitive_phase4_v5.go:353-371 | the target policy mixed with a uniform floor over legal actions, or the policy itself without exploration |
| CreditAssignment.BehaviorIsPolicy | services/ai/knowledge/cognitive_phase4_v5.go:353-371 | the mixture is again a distribution over the legal actions |
| CreditAssignment.MixedProbability | services/ai/knowledge/cognitive_phase4_v5.go:353-371 | exploration moves every legal probability from the policy towards one over the number of legal actions |
| CreditAssignment.ForwardPass | services/ai/knowledge/cognitive_credit_v5.go:41-50 | ratios and the importance prefixes before and through every step |
| CreditAssignment.ImportanceTargets | services/ai/knowledge/cognitive_credit_v5.go:33-60 | prefixes, ratio-corrected returns and baselined advantages of every frame |
| CreditAssignment.PlainTargets | services/ai/knowledge/cognitive_phase4_v5.go:454-469 | reward sums to the end and their advantages |
| CreditAssignment.OnPolicyTargets | services/ai/knowledge/cognitive_credit_v5.go:29-57 | with all ratios one the returns and advantages are those of the plain targets at every step and all weights are one |
| CreditAssignment.TargetsAreScores | services/ai/knowledge/cognitive_credit_v5.go:41-57 | the product of prefix and return that the learner sums is the weighted return of the trace |
| CreditAssignment.Unbiased | services/ai/knowledge/cognitive_credit_v5.go:29-60 | on every finite decision tree the behaviour expectation of that score is the target policy's expected reward from step t on, for every t |
| CreditAssignment.TracesAreSteps | services/ai/knowledge/cognitive_credit_v5.go:41-49 | on the frames recorded along the paths of a tree the ratios are those of the tree, so expectations over traces and over steps agree |
| CreditAssignment.TargetsAreUnbiased | services/ai/knowledge/cognitive_credit_v5.go:29-60 | the behaviour expectation, over the recorded frames of any tree, of the computed prefix times the computed return is the target policy's expected reward from step t on |
| CreditAssignment.TargetReturnIsExpected | services/ai/knowledge/cognitive_credit_v5.go:29-32 | where the target plays, its return is the expected plain sum of the rewards from that step on |
| MetaBeliefs.States | services/ai/knowledge/cognitive_meta_v2.go:33-39 | the number of joint states is classes times outcomes to the power of computations |
| MetaBeliefs.Outcome | services/ai/knowledge/cognitive_meta_v2.go:123-129 | the outcome of an operation is its mixed-radix digit |
| MetaBeliefs.DigitsRoundTrip | services/ai/knowledge/cognitive_meta_v2.go:122-129 | reading all outcomes of a tuple and encoding them returns the tuple |
| MetaBeliefs.UndigitsRoundTrip | services/ai/knowledge/cognitive_meta_v2.go:122-129 | encoding outcomes and reading them returns them |
| MetaBeliefs.DigitWeight | services/ai/knowledge/cognitive_meta_v2.go:122-129 | the outcome of operation k weighs outcomes to the power k |
| MetaBeliefs.StateBijection | services/ai/knowledge/cognitive_meta_v2.go:33-39 | state indices correspond one to one with a class and an outcome tuple |
| MetaBeliefs.OperationsAre | services/ai/knowledge/cognitive_meta_v2.go:244-250 | the operations offered are the unmasked ones in order |
| MetaBeliefs.MetaClassBelief | services/ai/knowledge/cognitive_meta_v2.go:185-191 | the class marginal of the joint distribution |
| MetaBeliefs.TupleRow | services/ai/knowledge/cognitive_meta_v2.go:217-271 | mass and expected utilities of one tuple, without dividing by a zero mass |
| MetaBeliefs.MetaBeliefSupport | services/ai/knowledge/cognitive_meta_v2.go:217-271 | the belief over all tuples, refused exactly when a tuple has a mass that is not allowed or the belief is invalid |
| MetaBeliefs.TupleBeliefAgreesWithMarginal | services/ai/knowledge/cognitive_meta_v2.go:185-271 | the tuple belief has the class marginal's expected utility for every terminal option |
| MetaBeliefs.Phase2MetaBelief | services/ai/knowledge/cognitive_phase2_inference_v5.go:312-356 | the belief over the tuples of positive mass only |
| MetaBeliefs.CompactionKeepsValues | services/ai/knowledge/cognitive_phase2_inference_v5.go:312-356 | dropping tuples of zero mass keeps the terminal and the perfect value |
| MetaBeliefs.CompactionKeepsFeatures | services/ai/knowledge/cognitive_phase2_inference_v5.go:312-356 | it keeps all features of every computation |
| MetaBeliefs.CompactionKeepsDecision | services/ai/knowledge/cognitive_phase2_inference_v5.go:312-356 | it keeps the whole decision |
| MetaBeliefs.GroupedIsObserved | services/ai/knowledge/cognitive_meta_v2.go:217-271 | with certain results, grouping by result is observing it |
| MetaBeliefs.UniformLikelihoodHidesResults | services/ai/knowledge/cognitive_meta_v2.go:217-271 | with uniform likelihoods an observation is worth nothing |
| MetaBeliefs.ResultIsShowing | services/ai/knowledge/cognitive_meta_v2.go:217-271 | acting on a result of an operation is acting on the class marginal of the joint states that show it |
| MetaBeliefs.ObservedIsWorthlessIff | services/ai/knowledge/cognitive_meta_v2.go:217-271 | an observation is worth nothing exactly when some option is best whatever it shows |
| MetaBeliefs.UniformAgreesIff | services/ai/knowledge/cognitive_phase2_inference_v5.go:312-356 | the second construction ignores the uniform-likelihood switch: its features then agree with the first exactly when some option is best whatever the operation shows |
| MetaBeliefs.UniformConstructionsDiffer | services/ai/knowledge/cognitive_phase2_inference_v5.go:312-356 | with two classes and a result that names the class they disagree |
| MetaBeliefs.SupportNotEmpty | services/ai/knowledge/cognitive_phase2_inference_v5.go:320-333 | a joint distribution always leaves a tuple with mass |
| MetaBeliefs.ConstructionsAcceptAlike | services/ai/knowledge/cognitive_phase2_inference_v5.go:312-356 | both constructions accept exactly the queries with a possible clock and positive costs |
| Texts.TextOrder | services/ai/knowledge/inspection_page.go:63-72 | string comparison is a strict total order |
| Texts.TextLessIff | services/ai/knowledge/inspection_page.go:63-72 | a text is before another when it is a proper prefix or smaller where they first differ |
| Texts.SpaceCodes | services/ai/knowledge/evidence_provenance.go:49 | the code points of white space |
| InspectionPage.KeyOrder | services/ai/knowledge/inspection_page.go:50-73 | the key comparison is irreflexive, transitive and total up to keys that differ only in an unread score |
| InspectionPage.SortedIsAscending | services/ai/knowledge/inspection_page.go:104-107 | a strictly ascending listing of a key set is unique, whatever the arrival order |
| InspectionPage.OrderReads | services/ai/knowledge/inspection_page.go:50-72 | by activity scores never rise; otherwise and among equal scores a listing rises by source, target, excitatory before inhibitory, kind, bucket, place and name |
| InspectionPage.RootIsGreatest | services/ai/knowledge/inspection_page.go:83-91 | the heap keeps a greatest key at its root |
| InspectionPage.LeastIsPrefix | services/ai/knowledge/inspection_page.go:92-107 | the least keys of a set, sorted, are the beginning of its ascending listing |
| InspectionPage.InspectionHeap.constructor | services/ai/knowledge/inspection_page.go:75-81 | an empty heap for a limit, an order and a cursor |
| InspectionPage.InspectionHeap.SiftUp | services/ai/knowledge/inspection_page.go:97-98 | restores heap order from a hole below its parent, keeping the multiset of keys |
| InspectionPage.InspectionHeap.SiftDown | services/ai/knowledge/inspection_page.go:99-102 | restores heap order from a hole above its children, keeping the multiset of keys |
| InspectionPage.InspectionHeap.Add | services/ai/knowledge/inspection_page.go:92-103 | after any stream of distinct keys the heap holds exactly the limit least keys beyond the cursor and has counted all of them |
| InspectionPage.InspectionHeap.Sort | services/ai/knowledge/inspection_page.go:104-107 | the keys end as the first keys of the ascending listing beyond the cursor |
| InspectionPage.FillPage | services/ai/knowledge/inspection_page.go:357-388 | the page takes as many leading rows as limit and byte budget allow; it is refused exactly when no page satisfies these rules |
| InspectionPage.PageText | services/ai/knowledge/inspection_page.go:359-378 | the rows of a page, joined by commas, take at most 512 KiB less 16 KiB, and the first row left out would exceed that |
| InspectionPage.PageIsUnique | services/ai/knowledge/inspection_page.go:357-388 | the rules determine the page |
| InspectionPage.ReadPage | services/ai/knowledge/inspection_page.go:200-388 | a page for any arrival order of the keys, with the total count and the cursor set exactly when rows remain |
| InspectionPage.BeyondIsSuffix | services/ai/knowledge/inspection_page.go:94-96 | what lies beyond the n-th key is the rest of the listing |
| InspectionPage.Enumerate | services/ai/knowledge/inspection_page.go:357-388 | following the cursor over one revision ends with every row exactly once in key order, or stops at a key whose row or token is too large |
| SnapshotScheduler.MergedCovers | web/monitor/snapshot-scheduler.js:28-29 | the coalesced target is the greatest revision asked for with the latest hash given for it |
| SnapshotScheduler.SafeRevisions | web/monitor/snapshot-scheduler.js:28-29 | the revisions taken are the natural numbers below 2^53 |
| SnapshotScheduler.AcceptableMeans | web/monitor/snapshot-scheduler.js:16-18 | a snapshot is good enough when it reaches every revision asked for and carries the latest hash given for its own |
| SnapshotScheduler.LatestHash | web/monitor/snapshot-scheduler.js:30-31 | the latest hash is that of the last hashed request at the revision |
| SnapshotScheduler.AcceptedIsAcceptable | web/monitor/snapshot-scheduler.js:16-17 | a snapshot that passes both checks is not behind any coalesced request and has the wanted hash at an equal revision |
| SnapshotScheduler.RefusedIsUnacceptable | web/monitor/snapshot-scheduler.js:16-17 | a refused snapshot is behind a request or has another hash |
| SnapshotScheduler.NumericResultsAreFresh | web/monitor/snapshot-scheduler.js:16-19 | an acceptable snapshot reaches every coalesced revision exactly when its own revision is a number |
| SnapshotScheduler.RequestKeepsLedger | web/monitor/snapshot-scheduler.js:25-38 | a request joins or opens one promise and every promise stays settled, pending or awaited, and only one of these |
| SnapshotScheduler.FinishKeepsLedger | web/monitor/snapshot-scheduler.js:15-22 | the end of a run settles its own promise and no other |
| SnapshotScheduler.StartKeepsTime | web/monitor/snapshot-scheduler.js:5-10 | starts of one epoch stay an interval apart |
| SnapshotScheduler.Scheduler.Arm | web/monitor/snapshot-scheduler.js:5-8 | a timer is set only for pending work while no read runs, due at once or, if that is later, an interval after the last start |
| SnapshotScheduler.Scheduler.Request | web/monitor/snapshot-scheduler.js:25-38 | an invalid revision changes nothing; any other request shares the pending promise |
| SnapshotScheduler.Scheduler.Reset | web/monitor/snapshot-scheduler.js:39-44 | queued work is dropped with a null result, the timer cancelled and the epoch advanced; a running load keeps running |
| SnapshotScheduler.Scheduler.TimerFires | web/monitor/snapshot-scheduler.js:9-14 | one load starts with the captured target and promise |
| SnapshotScheduler.Scheduler.LoadReturns | web/monitor/snapshot-scheduler.js:14-18 | a stale run is dropped unapplied, an unacceptable snapshot is an error, anything else is applied |
| SnapshotScheduler.Scheduler.RunThrows | web/monitor/snapshot-scheduler.js:20-22 | an error rejects a current run and resolves a stale one with null |
| SnapshotScheduler.Scheduler.ApplyReturns | web/monitor/snapshot-scheduler.js:18-22 | the promise resolves with the applied snapshot |
| SnapshotScheduler.Scheduler.Step | web/monitor/snapshot-scheduler.js:3-46 | every event keeps all invariants and every earlier settlement |
| SnapshotScheduler.Drive | web/monitor/snapshot-scheduler.js:3-46 | over every interleaving: at most one load, no timer while running, target and pending set together, pending work always armed or running, each promise settled at most once and by the end if quiet, starts an interval apart unless reset, and delivered results as above; an armed timer is due when an event armed it or, if later, an interval after the last start |
| SnapshotScheduler.NotANumberIsDelivered | web/monitor/snapshot-scheduler.js:16-19 | a concrete run in which a revision that is not a number is delivered although it reaches no request |
| SnapshotStats.StatsReordered | services/ai/evolution/read_snapshot.go:18-58 | no statistic depends on the order of the edges |
| SnapshotStats.DegreesRead | services/ai/evolution/read_snapshot.go:32-43 | degrees count edges in the list; a self-loop leaves and does not enter |
| SnapshotStats.SourcesRead | services/ai/evolution/read_snapshot.go:44-50 | relations that enter count once for each source, kinds once for each name |
| SnapshotStats.AverageRead | services/ai/evolution/read_snapshot.go:53-56 | the average confidence times both degrees is the total confidence |
| SnapshotStats.AccumStep | services/ai/evolution/read_snapshot.go:32-51 | one edge changes exactly the counters of its source and, unless a self-loop, of its target |
| SnapshotStats.BuildSnapshotStats | services/ai/evolution/read_snapshot.go:20-59 | one pass gives every node its seven statistics, and an entry exactly for nodes that an edge touches |
| SnapshotStats.ComputeSnapshotStats | services/ai/evolution/read_snapshot.go:63-65 | the statistics of one node |
| SnapshotStats.WalkTouches | services/ai/evolution/stats.go:21-59 | the per-node walk visits exactly the edges that touch its target |
| SnapshotStats.ComputeStats | services/ai/evolution/stats.go:15-66 | the walk gives the seven statistics of the graph whose edges lead to their bucket keys |
| SnapshotStats.EntriesAreArrivals | services/ai/evolution/stats.go:37-42 | the edges that enter a node are what the other nodes hold for it, by key or by target |
| SnapshotStats.StatsAgreeIff | services/ai/evolution/read_snapshot.go:18-65 | for every graph and node: what leaves is counted alike, in-degrees agree exactly when the other nodes file as many synapses under it as they aim at it, and all seven statistics exactly when sources, kinds and confidence match too |
| SnapshotStats.Compare | services/ai/evolution/read_snapshot.go:18-65 | for any listing of any graph both forms agree on a node under exactly that condition, and with buckets keyed by target on every node, self-loops, parallel edges and isolated nodes included |
| SnapshotStats.SwappedBucketsAgree | services/ai/evolution/stats.go:37-42 | keying by target is not necessary: two swapped buckets change no statistic of any node |
| SnapshotStats.MiskeyedBucketDisagrees | services/ai/evolution/stats.go:37-42 | a single bucket under another key makes the in-degrees differ |
| MemoryTime.FactorsCompose | services/ai/knowledge/memory_time.go:57-68 | decaying to one time and then to a later one multiplies to the factor of the whole interval |
| MemoryTime.FactorIsOne | services/ai/knowledge/memory_time.go:80-83 | the early exit on a factor of one skips confidence only when its factor is one too |
| MemoryTime.ClampComposesIff | services/ai/knowledge/memory_time.go:84-96 | clamping between two factors equals clamping once exactly when the second is one or the first product does not exceed one |
| MemoryTime.SynapseComposesIff | services/ai/knowledge/memory_time.go:79-90 | two calls are one on a synapse exactly when the first leaves it alone or brings its confidence and, unless protected, its weight down to one |
| MemoryTime.TraceComposesIff | services/ai/knowledge/memory_time.go:94-97 | and on a trace exactly when its priority is then at most one or the second call does not act |
| MemoryTime.SynapseSettlesIff | services/ai/knowledge/memory_time.go:57-90 | for all pairs of timestamps this holds exactly when the first nanosecond suffices |
| MemoryTime.TraceSettlesIff | services/ai/knowledge/memory_time.go:57-97 | for a trace the same, but a priority created after the watermark must start at most at one |
| MemoryTime.DecaysComposeIff | services/ai/knowledge/memory_time.go:20-104 | any two calls leave the whole memory as one call at the later timestamp exactly when all its synapses and traces settle |
| MemoryTime.UnitRangeSettles | services/ai/knowledge/memory_time.go:84-97 | values up to one always settle |
| MemoryTime.HeavyWeightDoesNotCompose | services/ai/knowledge/memory_time.go:79-90 | an unprotected weight still above one after a nanosecond is decayed further by two calls than by one |
| MemoryTime.MemoryStore.ApplyMemoryDynamics | services/ai/knowledge/memory_time.go:20-104 | one call on the stored state, with the wall clock in place of a zero time |
| MemoryTime.MemoryStore.Run | services/ai/knowledge/memory_time.go:20-104 | any sequence of calls decays in turn, and leaves a memory that settles as one call at the latest timestamp |
| MemoryTime.WatermarkIsMonotone | services/ai/knowledge/memory_time.go:35-47 | the watermark never moves back, and repeated or earlier timestamps change nothing |
| MemoryTime.DecayLaw | services/ai/knowledge/memory_time.go:87-89 | between zero and one weights follow the exponential law exactly and confidence its square root; protected weights stay |
| MemoryTime.OneDay | services/ai/knowledge/memory_time.go:55-68 | in 24 hours the exponent is one less the retention, and half of that for confidence |
| MemoryTime.CountsFromWatermark | services/ai/knowledge/memory_time.go:57-68 | time counts from the later of learning and watermark |
| MemoryTime.RetentionChoice | services/ai/knowledge/memory_time.go:47-55 | a state's own positive retention counts first, then the policy's, then 0.6 |
| MemoryTime.LegacyWatermark | services/ai/knowledge/memory_time.go:35-44 | without the exact watermark the legacy float counts if it is a 64-bit time |
| MemoryTime.DecayRecords | services/ai/knowledge/memory_time.go:98-103 | a call records its time and retention and no other number |
| MemoryTime.DayOfDecay | services/ai/knowledge/memory_time.go:20-104 | a day after learning an unprotected weight keeps exp(retention - 1) of itself and confidence the square root of that |
| CanonicalBrain.EdgeOrder | services/ai/knowledge/canonical_persistence.go:97-108 | the edge comparison is a strict weak order whose ties agree in source, target, polarity and kind |
| CanonicalBrain.AscendingReads | services/ai/knowledge/canonical_persistence.go:97-108 | ordered records rise by source, target, excitatory before inhibitory and kind |
| CanonicalBrain.EdgeListHolds | services/ai/knowledge/canonical_persistence.go:83-96 | the edge list holds exactly the synapses in the buckets with the nodes that hold them |
| CanonicalBrain.MarshalCanonical | services/ai/knowledge/canonical_persistence.go:71-108 | units in node order and the sorted edge list of the graph, for any comparison sort |
| CanonicalBrain.WriteCanonical | services/ai/knowledge/canonical_stream.go:37-130 | the streaming writer, sorting pointers only, yields the same two sequences |
| CanonicalBrain.SortedIsAscending | services/ai/knowledge/canonical_persistence.go:97-108 | the edges come out in order |
| CanonicalBrain.SortedIsPermutation | services/ai/knowledge/canonical_persistence.go:97-108 | and none is lost or invented |
| CanonicalBrain.AscendingIsUnique | services/ai/knowledge/canonical_persistence.go:97-108 | ordered lists of the same records whose ties are equal are the same list |
| CanonicalBrain.EverySortKeepsIff | services/ai/knowledge/canonical_persistence.go:97-108 | an ordered list survives every way of breaking ties exactly when records that tie are equal |
| CanonicalBrain.LoadCanonical | services/ai/knowledge/canonical_persistence.go:196-213 | nodes by ascending id with the last unit record of each id, edges of known sources grouped under their targets, others dropped |
| CanonicalBrain.RebuiltLists | services/ai/knowledge/canonical_persistence.go:196-213 | grouping an ordered edge list and listing it again restores it |
| CanonicalBrain.Reload | services/ai/knowledge/canonical_persistence.go:71-213 | loading canonical records and encoding them again keeps all units and edges, and changes nothing when tied records are equal, as unique records trivially are |
| CanonicalBrain.RoundTrip | services/ai/knowledge/canonical_persistence.go:71-213 | write, load, write of a whole graph |
| CanonicalBrain.ErrorState | services/ai/knowledge/canonical_persistence.go:122-127 | the prediction entries under the error prefix, for any walk order |
| CanonicalBrain.Overlay | services/ai/knowledge/canonical_persistence.go:215-220 | error entries are laid over the prediction state, for any walk order |
| CanonicalBrain.ErrorEntriesSurvive | services/ai/knowledge/canonical_persistence.go:122-220 | a written state is restored with every prediction and error entry |
| CanonicalBrain.WrittenVersionLoads | services/ai/knowledge/memory_time.go:120-140 | the schema version that the writer chooses passes the loader's version rules exactly for a known model version and a valid memory clock |
| CanonicalBrain.VersionsMean | services/ai/knowledge/canonical_persistence.go:129-138 | what each written version says about model, fourth phase and clock |
| CanonicalBrain.VersionRules | services/ai/knowledge/memory_time.go:108-140 | what the loader demands of each version |
| CanonicalBrain.ErrorKeyNames | services/ai/knowledge/canonical_persistence.go:122-127 | error keys are the names behind the prefix |
| CognitiveLayout.GridAt | services/ai/knowledge/cognitive_model.go:184-192 | row and column address their edge inside one tensor |
| CognitiveLayout.FansAreDistinct | services/ai/knowledge/cognitive_validation.go:137-178 | with distinct targets and distinct sources per target group no edge is repeated |
| CognitiveLayout.LayFans | services/ai/knowledge/cognitive_model.go:184-204 | tensors are appended one behind another |
| CognitiveLayout.ReplayFans | services/ai/knowledge/cognitive_validation.go:137-175 | the replay accepts exactly tensors laid that way |
| CognitiveLayout.ParametersAreDistinct | services/ai/knowledge/cognitive_validation.go:176-221 | all parameters, stopping weights and temperatures included, join circuit neurons and are distinct |
| CognitiveLayout.LayoutIsBijective | services/ai/knowledge/cognitive_validation.go:137-178 | every place of every tensor holds its own edge, every flat index has exactly one place, and no edge occurs twice |
| CognitiveLayout.Phase4Adds | services/ai/knowledge/cognitive_phase4_v5.go:111-143 | the six tensors of the fourth phase have 1097 parameters |
| CognitiveLayout.CheckIds | services/ai/knowledge/cognitive_validation.go:113-124 | neurons are known, non-zero and distinct |
| CognitiveLayout.CheckPopulations | services/ai/knowledge/cognitive_validation.go:125-136 | exactly one single-unit population per neuron |
| CognitiveLayout.CheckSynapses | services/ai/knowledge/cognitive_validation.go:188-221 | exactly one synapse of each sign per parameter and none across the circuit border; the count check suffices |
| CognitiveLayout.Validate | services/ai/knowledge/cognitive_validation.go:41-221 | accepts exactly the topologies described by these rules |
| CognitiveLayout.Extended | services/ai/knowledge/cognitive_validation.go:41-221 | parts laid on fresh neurons with their parameters connected form a valid topology of the grown brain |
| CognitiveLayout.Brain.Initialize | services/ai/knowledge/cognitive_model.go:144-228 | succeeds exactly for a valid configuration without an earlier circuit and leaves an accepted one, native world head included |
| CognitiveLayout.Brain.InitializePhase2 | services/ai/knowledge/cognitive_phase2_world_v5.go:108-158 | extends an accepted circuit to an accepted one without moving a parameter, or reuses the world tensors |
| CognitiveLayout.Brain.InitializePhase4 | services/ai/knowledge/cognitive_phase4_v5.go:87-146 | extends an accepted circuit by exactly 1097 parameters behind all others |
| CognitiveLayout.BuildAndValidate | services/ai/knowledge/cognitive_validation.go:41-221 | every combination of initialisation and extensions passes the validator |
| CognitiveWiring.BaseWiring | services/ai/knowledge/cognitive_model.go:193-204 | which neurons of the base circuit are connected, and that no others are |
| CognitiveWiring.ExtensionWiring | services/ai/knowledge/cognitive_validation.go:152-175 | the same for the native world head, the second and fourth phases, the stopping weights and temperatures |
| CognitiveWiring.BaseParameters | services/ai/knowledge/cognitive_model.go:174-204 | the number of parameters of the base circuit in terms of its sizes |
| CognitiveWiring.ExtensionParameters | services/ai/knowledge/cognitive_phase2_world_v5.go:122-158 | and of the extensions |
| CognitiveWiring.GateTensors | services/ai/knowledge/cognitive_model.go:193-196 | place and shape of the recurrent tensors |
| CognitiveWiring.OutputTensors | services/ai/knowledge/cognitive_model.go:197-204 | place and shape of actor, critic, assessment and decoder, each before its bias |
| CognitiveWiring.ConfigLimits | services/ai/knowledge/cognitive_model.go:42-67 | a configuration is taken when no block exceeds a million entries and a native world head is within its ranges |
| CognitiveWiring.FactorsCounted | services/ai/knowledge/cognitive_phase2_world_v5.go:60-80 | the factors of a second phase by representation |
| CognitiveWiring.PairsCounted | services/ai/knowledge/cognitive_phase2_world_v5.go:60-80 | pairwise factors: unordered pairs of operations times pairs of results |
| ContextState.EvictionComposes | services/ai/activation/context_state.go:69-79 | evicting after each frame keeps the longest end of everything that fits both budgets |
| ContextState.ContextCell.Retain | services/ai/activation/context_state.go:69-78 | one frame enters and the fewest oldest leave |
| ContextState.ContextCell.Observe | services/ai/activation/context_state.go:61-80 | ordinals count every frame of the cue, oversized ones included, and the context is the longest fitting end |
| ContextState.ContextCell.Validate | services/ai/activation/context_state.go:82-106 | accepts exactly contexts within budgets, with rising ordinals, non-decreasing times and grounded populations, with or without a membership test |
| ContextState.Prepare | services/ai/activation/context_state.go:47-59 | a fresh context after a reset, another episode or a clock behind the newest frame, and otherwise the frames of the last two minutes |
| ContextState.CueKeepsAccepted | services/ai/activation/context_state.go:47-106 | an accepted context stays accepted through any cue exactly when the episode is empty or not blank, the ordinal stays below 2^63 and the clock is past zero if a frame is kept |
| ContextState.LookBackSkipsCue | services/ai/activation/context_state.go:32-45 | looking back with the cue excluded returns exactly the recent frames held before the latest cue |
| ContextState.CueLeaves | services/ai/activation/context_state.go:47-80 | after a reset, in another episode or behind a clock that ran backwards only frames of the cue remain; otherwise also frames of the last two minutes; at most 64 frames and 4096 members |
| ContextState.GoesOnWith | services/ai/activation/context_state.go:32-59 | a context that goes on keeps exactly its frames of the last two minutes |
| ContextState.EvictsOnlyWhenFull | services/ai/activation/context_state.go:69-78 | a frame leaves only when the frames or members behind it leave no room |
| ContextState.NewestIsKept | services/ai/activation/context_state.go:61-80 | the last frame of a cue is kept whenever it fits alone |
| ContextState.AcceptedHolds | services/ai/activation/context_state.go:82-106 | what an accepted context holds |
| ContextState.EpisodeNames | services/ai/activation/context_state.go:86 | an episode is unnamed or has a name that is not blank |
| ContextState.Step | services/ai/activation/context_state.go:47-80 | prepare, then observe with the same clock |
| ContextState.Run | services/ai/activation/context_state.go:32-106 | every run from no context over grounded cues ends in an accepted context |
| InformationDynamics.SqrtNonNegative | services/ai/knowledge/information_dynamics.go:178-189 | zero for non-positive values; otherwise at or above the root, by at most 1/4096 up to one and a 4096th of the distance above |
| InformationDynamics.StepHalves | services/ai/knowledge/information_dynamics.go:184-187 | from above the root a Newton step stays above and halves the error |
| InformationDynamics.WelfordStep | services/ai/knowledge/information_dynamics.go:70-73 | the running sum of squared deviations is exact |
| InformationDynamics.MeanStep | services/ai/knowledge/information_dynamics.go:70-71 | the running mean is exact |
| InformationDynamics.DeviationFromMean | services/ai/knowledge/information_dynamics.go:70-77 | moving the centre away from the mean adds the count times the squared distance |
| InformationDynamics.VarianceBounds | services/ai/knowledge/information_dynamics.go:74-80 | for errors in [0, 1] the variance lies in [0, 1/4] |
| InformationDynamics.SmoothedIsMean | services/ai/knowledge/information_dynamics.go:59-66 | up to sixteen samples the smoothed error is the mean |
| InformationDynamics.SmoothedLater | services/ai/knowledge/information_dynamics.go:59-66 | from sixteen samples on an error moves the smoothed one by a sixteenth of their distance |
| InformationDynamics.BlendInUnit | services/ai/knowledge/information_dynamics.go:82-101 | policy averages of signals in [0, 1] stay there |
| InformationDynamics.BlendShares | services/ai/knowledge/information_dynamics.go:82-101 | the weights of uncertainty, novelty and pressure share out error, novelty and instability |
| InformationDynamics.PureBlends | services/ai/knowledge/information_dynamics.go:82-101 | one weight alone gives its own signal |
| InformationDynamics.PredictionStore.Observe | services/ai/knowledge/information_dynamics.go:55-80 | mean, squared deviations, variance and smoothed error are those of the whole error stream |
| InformationDynamics.PredictionStore.Update | services/ai/knowledge/information_dynamics.go:39-111 | uncertainty and information value are exact policy averages over the standard deviation within 1/4096: no clamp acts |
| WebSocketFrames.XorUndone | services/ai/bridge/server.go:352 | masking a byte twice restores it |
| WebSocketFrames.MaskedBit | services/ai/bridge/server.go:352 | masking combines byte i with byte i mod 4 of the mask, bit by bit (RFC 6455, section 5.3) |
| WebSocketFrames.ShortExamples | services/ai/bridge/server.go:330-371 | the wire form of the short examples of RFC 6455, section 5.7 |
| WebSocketFrames.LongExamples | services/ai/bridge/server.go:330-371 | the wire form of its long examples |
| WebSocketFrames.LengthRoundTrip | services/ai/bridge/server.go:341-345 | big-endian bytes of a length read back as the length |
| WebSocketFrames.SelfDelimiting | services/ai/bridge/server.go:330-354 | a byte stream begins with at most one frame (RFC 6455, section 5.2) |
| WebSocketFrames.FrameReader.ReadLong | services/ai/bridge/server.go:342-346 | from the marker 127 the guard refuses every 64-bit length; from zero it would read them all |
| WebSocketFrames.FrameReader.ReadFrame | services/ai/bridge/server.go:330-354 | a frame is returned exactly when the input starts with an acceptable one, with its opcode and unmasked payload, and the bytes behind it are left |
| WebSocketFrames.WriteFrame | services/ai/bridge/server.go:356-371 | a final unmasked frame in the form of its length over the part that four length bytes cover, then the rest of the payload |
| WebSocketFrames.WriteLength | services/ai/bridge/server.go:359-367 | the length field in the shortest form, its long form keeping four bytes of the length |
| WebSocketFrames.ReadStream | services/ai/bridge/server.go:330-354 | every concatenation of acceptable frames, masked or not, reads back in order |
| WebSocketFrames.RoundTrip | services/ai/bridge/server.go:330-371 | what is written for a payload reads back exactly up to 65535 bytes as the code stands, and with an accumulator that starts at zero whenever the covered part is up to 4 MiB |

## Left out

- RidgeFit.Model.Fit: does not model the metric path (`nFitMetric`), and circuit activations are a function parameter; systems of a million unknowns and more may meet the pivot guard.
- FiniteBelief.ChosenCostsLessThanPerfect: states the strict bound for exact weights and the bound up to the tolerance for all accepted weights, because the weight check admits sums off by 1e-9.
- Cholesky.Factor: does not model the rounding of the square root; the Gaussian-process acquisition around it is left out.
- CreditAssignment.ImportanceTargets: takes the actor-critic forward pass as a function; the gradient steps that consume the targets are left out.
- MetaBeliefs.MetaBeliefSupport: takes the joint distribution, the utilities and the costs as inputs; the learned decoders that produce them are left out.
- InspectionPage.ReadPage: works on keys and encoded rows; JSON text, base64 tokens, the section switch, the counts by section, the related synapses of a page and the state preview are left out.
- SnapshotScheduler.Drive: times are exact reals and timers never fire early; an infinite negative revision is left out.
- SnapshotStats.ComputeStats: nil entries in a bucket are left out, since the per-node walk does not survive them; the clustering on top is left out.
- MemoryTime.MemoryStore.ApplyMemoryDynamics: intervals are exact, so the saturation of durations beyond 292 years, the rounding of the legacy float clock and the frequency and activation copies are left out, as is the legacy decay law.
- CanonicalBrain.Reload: fields that are passed through unchanged, provenance records, temporal patterns and the graphs of schema versions below 2 are left out.
- CognitiveLayout.Validate: checks topology only; metadata such as evidence digests, feature spans, learning rates, selection masks and weight values, and the exposure design of the second phase beyond its width, are left out.
- CognitiveLayout.CheckIds: takes neurons as identities; the range test on their activations is left out.
- CognitiveLayout.CheckSynapses: takes synapses as signed pairs; the tests on their kind and weight are left out.
- CognitiveLayout.Brain.Initialize: the refusals on learning parameters and the event time are left out.
- CognitiveLayout.Brain.InitializePhase2: the refusals on the specification, the exposure mask and the event time are left out.
- CognitiveLayout.Brain.InitializePhase4: the refusal on the specification is left out.
- ContextState.ContextCell.Observe: ordinals are unbounded naturals; a cue has far fewer than 2^63 frames, so the 64-bit counter cannot wrap before the validator refuses it.
- InformationDynamics.PredictionStore.Update: novelty is an input, the copies into the inquiry state are left out, and the sample counter is exact.
- EvidenceProvenance.CountEvidenceProvenance: the legacy observation counter, which this function never sets, is left out.
- PatternPrediction.PredictOrdered: per-pattern credit, which this function does not fill, and the learning of patterns are left out.
- HTTP handlers, authentication, rate limits, configuration, logging, databases and message queues: input and output plumbing.
- Runtime, perception, thinking and teaching packages and the startup recovery: not part of this model.
- Rounding, infinities and not-a-number values of IEEE 754 arithmetic, except the scheduler's revision.
- GRU, actor, critic and sequence networks, Adam updates: gradients are not modelled.
- Execution gateway, deep-copy helpers and invariants that only restate a clamp: they would add only easy members.
