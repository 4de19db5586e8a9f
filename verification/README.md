# ARC integer inference: a verified model

`scripts/arc_conformance` holds two exact-integer reference executors for transformer inference, the
quantiser and file formats around them, and a verifier for published runs. Everything is integer
arithmetic with floors, truncations, 64-bit lanes and refusals, and the code makes many claims of the
kind "this fast form gives bit for bit what that plain form gives". This project models that code in
Dafny and proves those claims for all inputs. A refusal (`DomainError`, `PreparationError`,
`PackageError`, `GgufError`) is `None`, and equivalence theorems cover refusals as well as values.

The main results:

* **Fast engine = slow engine.** `TeacherForcing.TeacherForced`: for every package and every list of
  token sequences the batched, layer-major engine with float64 products, sign-magnitude limbs,
  split multiplies and masked attention gives at every position the logits of the token-by-token
  engine with its growing cache, and refuses exactly when that engine refuses some sequence.
* **The engine solves its equations.** `EngineMeaning.RunMeaning`: a run gives certain logits if and only if
  they solve the equations of the model, which are stated with floors and truncations as inequalities and
  mention none of the engine's functions. `LegacyEngineMeaning.SequenceMeaning` is the same for the legacy
  executor, caches included.
* **Verification = generation.** `RunVerification.VerifyRun`: the token and stop-rule checks of a run
  all pass if and only if every claim is the generation of its case, all checks if and only if every claim
  is what generation writes; `Generation.GenerateCase` computes exactly that generation, with
  P + |out| - 1 forward calls.
* **Exact matrix products.** `ExactMatmul.MatmulExact`: limb products in float64 with int64 totals are
  the exact integer product, whatever the summation order and with or without fused multiply-add.
* **Quantiser.** `Quantizer.QuantizeRows` equals the literal row rule for every BF16 pattern,
  `QuantizerMeaning.RowMeaning` pins that rule by inequalities on exact integers, and
  `QuantizerAccuracy.RowAccuracy` bounds its error.
* **Package.** `PackagePrepare.PreparePackage` never hits its internal assertions, what it writes is
  accepted and reads back unchanged; conversely `PackageFile.WellFormedIsSerialized` shows that every
  accepted file is byte for byte a serialisation, and `PackageModel.AcceptedIsValid` that it satisfies
  every precondition of the engine proofs. `PackageEngine.PrepareAndForce` puts it all together, from the
  source tensors to the logits.
* **Legacy profile.** The online softmax keeps its invariants and its range
  (`LegacyAttention.OnlineInvariant`, `OnlineRange`), the Newton inverse square root is total
  (`LegacyIsqrt.InverseSqrtTotal`) and accurate up to 2^28
  (`InverseRootAccuracy.InverseSqrtAccurate`), layer sharding changes nothing
  (`Sharding.ShardedSequenceIsSequence`), and rewriting the rotary layout keeps the meaning of the whole
  model (`RopeRewrite.LayoutsAgree`).
* **GGUF.** `GgufReader.WriteThenRead`: a written file reads back if and only if its input is inside the
  reader's bounds, and then completely. `GgufMeaning.HeaderMeaning`: the reader returns a header if and only
  if the bytes are those of that header, field by field.

## How it is built

* `Arithmetic`, `Rounding`, `Int64Lanes`, `Float64`, `ByteCodec`, `ByteMeaning` are the number systems: unbounded integers with
  explicit floor and truncating division, int64 lanes whose every intermediate must satisfy `InI64`
  (`Fit`), float64 as any rounding that is exact on integers below 2^53 with any summation order, and
  little-endian bytes.
* `ModernOps`, `ModernModel`, `SlowOps`, `SlowEngine` are the plain executor; `OperatorMeaning` and
  `EngineMeaning` say what its operators and the whole engine compute without their formulas. `Limbs`, `ExactMatmul`, `FastOps`,
  `FastNorm`, `FastPointwise`, `FastAttention`, `Stacking`, `FastEngine`, `TeacherForcing` are the fast one.
  `LoopInterchange` and `BatchSweep` prove that exchanging the token loop and the layer loop is allowed.
* `Selection`, `SelectionMeaning`, `Generation`, `RunVerification` are token selection, the generation loop and the verifier.
  `Assumptions` shows that the standing assumptions of the engine, generation and verification theorems can
  be met.
* `Quantizer`, `QuantizerMeaning`, `QuantizerAccuracy`, `PackageLayout`, `PackageFile`, `PackageReader`,
  `PackageWriter`, `PackagePrepare`, `PackageModel`, `PackageEngine`, `PackageMeaning` are the package format.
* `LegacyExp`, `LegacyIsqrt`, `InverseRootAccuracy`, `LegacyAttention`, `LegacyOps`, `LegacyModel`,
  `LegacyMeaning`, `LegacyEngineMeaning`, `Sharding`, `RopeLayouts`, `RopeRewrite` are the legacy Q16 profile.
* `Gguf`, `GgufReader`, `GgufMeaning` are the GGUF header codec.

The modules named after a meaning tie every specification function to a relation that does not mention it,
as an if-and-only-if over all inputs, with the constants written out.

Code that loops over changing variables is a method with a loop proved against a specification
function; the engines, the legacy executor, the package writer and the GGUF cursor are classes.

Findings that the code alone does not show:

* The online softmax is not the two-pass softmax: `LegacyAttention.RisingScoresDiffer` is an input on which
  they differ, and `FirstMaximumAgrees` gives equality whenever the first score is a maximum.
* The legacy inverse square root approximates its root only for small arguments: up to 2^28 to the bounds of
  `InverseRootAccuracy.InverseSqrtAccurate` and up to 2^32 - 2^16 roughly. From 2^34 on it returns one of seven
  constants, and is right only between 2^47 and 5 * 2^48 (`WhereItApproximates`); for 2^34 it returns 1 where
  the root is 128.
* The renormalisation branch of the quantiser's scale (mu = 2^31) is dead (`Quantizer.ScaleNormalised`).
* The GGUF writer accepts an empty array whose element type is "array"; the reader refuses it
  (`GgufReader.EmptyNestedArrayRefused`). `GgufReader.Readable` names this together with the size bounds, and
  `WriteThenRead` makes it an exact condition.
* `run_split` looks neither at the sequence limit nor at the logits, so it can succeed where `forward`
  refuses (`Sharding.SplitOutrunsWhole`); `SplitMatchesWhole` says exactly when.
* The gain check of the fast RMSNorm misses -2^63, because the magnitude of that value wraps; the result
  is exact all the same (`Int64Lanes.MulShrExact` covers that operand).

## Model

| member | source | states |
|---|---|---|
| `Int64Lanes.MulU31ShrExact` | scripts/arc_conformance/modern_reference.py:1335-1359 | the 32-bit split multiply-shift is floor(a*m/2^s) on its whole domain with every intermediate in int64; it asks for the slow path exactly when the high half is too large |
| `Int64Lanes.MulShrExact` | scripts/arc_conformance/modern_reference.py:1362-1376 | the 31-bit limb multiply-shift is floor(a*b/2^s) with every intermediate in int64; it asks for the slow path exactly when floor(a*b/2^62) reaches 2^(s-1) in magnitude |
| `Float64.FloatSumExact` | scripts/arc_conformance/modern_reference.py:1280-1292 | a float64 sum of products in any association, with or without fused multiply-add, is exact when the magnitudes sum to less than 2^53 |
| `Float64.BlasDotExact` | scripts/arc_conformance/modern_reference.py:1280-1292 | a float64 dot product in any order and association, fused or not, is the exact integer dot product under the same bound |
| `Limbs.LimbStep` | scripts/arc_conformance/modern_reference.py:1266-1277 | one more sign-magnitude limb in its place extends the rebuilt number, sign included |
| `Limbs.LimbWithin` | scripts/arc_conformance/modern_reference.py:1266-1277 | the rebuilt part and the next placed limb together never exceed the number in magnitude |
| `Limbs.LaneStep` | scripts/arc_conformance/modern_reference.py:1323-1332 | adding one shifted limb product advances the running total to the next partial product |
| `Limbs.LaneEnd` | scripts/arc_conformance/modern_reference.py:1323-1332 | after all limbs the running total is the exact dot product |
| `Limbs.LaneWithin` | scripts/arc_conformance/modern_reference.py:1295-1332 | every shifted limb product and every running total is bounded by sum of abs a*b |
| `Limbs.LimbProductSmall` | scripts/arc_conformance/modern_reference.py:1313-1325 | the limb widths chosen from the inner dimension keep every float64 partial sum below 2^53 |
| `ExactMatmul.SplitLimbs` | scripts/arc_conformance/modern_reference.py:1266-1277 | the loop returns the limbs of every entry and stops only when no magnitude is left |
| `ExactMatmul.LimbProduct` | scripts/arc_conformance/modern_reference.py:1323-1332 | all limbs of a against all limbs of b: the exact product |
| `ExactMatmul.DirectProduct` | scripts/arc_conformance/modern_reference.py:1310-1312 | one float64 product: exact because every magnitude sum is small |
| `ExactMatmul.MatmulExact` | scripts/arc_conformance/modern_reference.py:1295-1332 | exact integer product in int64 lanes; the slow path is asked for exactly when the guard is on and the estimate reaches 2^62, or the limb path is needed and no bits are left for it |
| `ExactMatmul.BudgetSuffices` | scripts/arc_conformance/modern_reference.py:1313-1322 | the limb budget never runs out for an int64 right operand below an inner dimension of 2^50, nor for INT8 weights below 2^44 |
| `Exponential.ExpRange` | scripts/arc_conformance/modern_reference.py:192-204 | the interpolated exponential lies in [0, 2^16] and is 2^16 at 0 |
| `Exponential.ExpMono` | scripts/arc_conformance/modern_reference.py:192-204 | it is non-decreasing on x <= 0 |
| `Exponential.SigmaRange` | scripts/arc_conformance/modern_reference.py:1062-1069 | the inlined sigmoid lies in [0, 2^16], each half on its side of 2^15 |
| `Exponential.SigmaMono` | scripts/arc_conformance/modern_reference.py:1062-1069 | it is non-decreasing |
| `Exponential.SigmaSymmetry` | scripts/arc_conformance/modern_reference.py:1062-1069 | sigma(g) + sigma(-g) is 2^16 or 2^16 - 1 for every g |
| `OperatorMeaning.ExpMeaning` | scripts/arc_conformance/modern_reference.py:192-204 | the exponential is e if and only if e is 2^16 at 0, 0 from -16 on, and else the table value plus the floored share of the step |
| `OperatorMeaning.SigmoidMeaning` | scripts/arc_conformance/modern_reference.py:1062-1069 | the sigmoid is s if and only if s is the floored share 2^16 : e, or e : 2^16, with e the exponential of the negative magnitude |
| `OperatorMeaning.EmbedMeaning` | scripts/arc_conformance/modern_reference.py:1006-1009 | an embedding row is y if and only if y holds the floors of the scaled weights, all within 2^62 |
| `OperatorMeaning.ProjectMeaning` | scripts/arc_conformance/modern_reference.py:1012-1021 | a projection is y if and only if 127*sum abs x < 2^63 and y holds the floors of the exact scaled dot products, all within 2^62 |
| `OperatorMeaning.NormMeaning` | scripts/arc_conformance/modern_reference.py:1024-1038 | a normalisation is y if and only if, with v the floored mean square plus eps, at most 2^92, and r the floor of 2^46 over its root, every product is below 2^127 and y holds the floors, all within 2^62 |
| `OperatorMeaning.RopeMeaning` | scripts/arc_conformance/modern_reference.py:1041-1049 | a rotated head is y if and only if every pair of y is the floored rotation of the pair |
| `OperatorMeaning.RotationMeaning` | scripts/arc_conformance/modern_reference.py:1127-1130 | a rotated row is y if and only if every head of y is the rotation of its head and all is within 2^62 |
| `OperatorMeaning.AttentionMeaning` | scripts/arc_conformance/modern_reference.py:1052-1059 | a head is y if and only if, with floored scores and exponentials of their distance to a largest score as weights, every coordinate is the truncated weighted mean |
| `OperatorMeaning.SiluMeaning` | scripts/arc_conformance/modern_reference.py:1062-1069 | the gated activation is y if and only if y holds the floors of g*s*u with s the sigmoid of g, all within 2^62 |
| `OperatorMeaning.ResidualMeaning` | scripts/arc_conformance/modern_reference.py:1072-1073 | a residual is y if and only if y minus one summand is the other, all within 2^62 |
| `EngineMeaning.KvHeadGroups` | scripts/arc_conformance/modern_reference.py:1136-1138 | query head h uses key/value head kv if and only if h lies in the kv-th group of nHeads/nKv consecutive heads |
| `EngineMeaning.LamMeaning` | scripts/arc_conformance/modern_reference.py:1089-1089 | the attention scale is r if and only if r*r*d <= 2^60 < (r+1)*(r+1)*d |
| `EngineMeaning.AttendMeaning` | scripts/arc_conformance/modern_reference.py:1135-1140 | an attention row is y if and only if every query head of y is the attention of its slice over the keys and values of its group |
| `EngineMeaning.QkvMeaning` | scripts/arc_conformance/modern_reference.py:1123-1132 | query, key and value are p if and only if they are the projections of the normalised row, queries and keys turned, keys and values within int32 |
| `EngineMeaning.FinishMeaning` | scripts/arc_conformance/modern_reference.py:1141-1146 | the rest of a layer is y if and only if rows exist that tie output projection, residual, norm, gate, up, activation, down projection and residual together |
| `EngineMeaning.LeadsMeaning` | scripts/arc_conformance/modern_reference.py:1112-1148 | a layer leads from rows hs to rows y over all positions if and only if every position solves its equations with the keys and values up to it |
| `EngineMeaning.GridMeaning` | scripts/arc_conformance/modern_reference.py:1112-1148 | the rows after l layers are hs if and only if hs solves the equations of embedding and the first l layers |
| `EngineMeaning.RunMeaning` | scripts/arc_conformance/modern_reference.py:1112-1148 | a run succeeds with logits ys if and only if all tokens are in the vocabulary, the sequence fits and ys solves the equations of the whole model |
| `SlowOps.Project` | scripts/arc_conformance/modern_reference.py:1012-1021 | the loop over rows computes the projection, refusals included |
| `SlowOps.RmsNorm` | scripts/arc_conformance/modern_reference.py:1024-1038 | square sum, inverse root and the loop over coordinates compute the normalisation, refusals included |
| `SlowOps.RopeHead` | scripts/arc_conformance/modern_reference.py:1041-1049 | the loop that replaces pairs in a copy computes the checked rotation of a head |
| `SlowOps.RopeRow` | scripts/arc_conformance/modern_reference.py:1127-1130 | head after head: the checked rotation of a row |
| `SlowOps.CheckI32` | scripts/arc_conformance/modern_reference.py:1076-1079 | accepts exactly the rows that fit int32 |
| `ModernOps.WeightSum` | scripts/arc_conformance/modern_reference.py:1052-1059 | attention weights lie in [0, 2^16] and their sum in [2^16, n*2^16], so the division is defined |
| `ModernOps.AttentionBetween` | scripts/arc_conformance/modern_reference.py:1052-1059 | every output lies between any bounds on the attended values, the truncating division included |
| `SlowEngine.Engine.constructor` | scripts/arc_conformance/modern_reference.py:1085-1102 | a new engine has an empty cache |
| `SlowEngine.Engine.Reset` | scripts/arc_conformance/modern_reference.py:1104-1106 | reset empties the cache |
| `SlowEngine.Engine.TokenRows` | scripts/arc_conformance/modern_reference.py:1123-1132 | norm, projections, rotation and range check give the query, key and value rows of the token or its refusal |
| `SlowEngine.Engine.AttendRow` | scripts/arc_conformance/modern_reference.py:1135-1140 | the loop over query heads gives the attention row over the cache |
| `SlowEngine.Engine.FinishRow` | scripts/arc_conformance/modern_reference.py:1141-1146 | output projection, feed-forward and residuals give the next hidden row or its refusal |
| `SlowEngine.Engine.ForwardToken` | scripts/arc_conformance/modern_reference.py:1112-1148 | the loop over layers computes the specified logits or refusal and leaves the specified cache |
| `Assumptions.ExactFpuIsValid` | scripts/arc_conformance/modern_reference.py:1280-1292 | a floating-point unit satisfying the assumptions about float64 exists |
| `Assumptions.SmallestModelIsValid` | scripts/arc_conformance/modern_reference.py:869-890 | a model satisfying everything the engine theorems require exists |
| `Assumptions.SmallestClaimIsValid` | scripts/arc_conformance/modern_reference.py:1185-1216 | a case and a claim satisfying what generation and verification require exist for it |
| `LoopInterchange.GridExtends` | scripts/arc_conformance/modern_reference.py:1610-1632 | the layer-major grid of one more token is the old grid beside the new column, refused when either is |
| `LoopInterchange.RunLayersClimbs` | scripts/arc_conformance/modern_reference.py:1112-1148 | the token-by-token layers climb the new column and leave the extended grid in the cache |
| `LoopInterchange.TokenMajorIsLayerMajor` | scripts/arc_conformance/modern_reference.py:1112-1148 | for every token sequence the cached engine and the layer-major computation give the same logits and the same refusals |
| `BatchSweep.SweepFromRows` | scripts/arc_conformance/modern_reference.py:1571-1591 | rows that all succeed independently are a successful left-to-right sweep with the same rows |
| `BatchSweep.SweepGivesRows` | scripts/arc_conformance/modern_reference.py:1571-1591 | a successful sweep projects and finishes every row |
| `BatchSweep.SweepRefused` | scripts/arc_conformance/modern_reference.py:1571-1591 | a row refused anywhere before attention refuses the sweep |
| `BatchSweep.SweepRefusedLate` | scripts/arc_conformance/modern_reference.py:1571-1591 | a row refused after attention refuses the sweep |
| `FastOps.CheckProjectionInput` | scripts/arc_conformance/modern_reference.py:1437-1441 | the float estimate backed by the exact sum accepts exactly the rows the plain operator accepts |
| `FastOps.Epilogue` | scripts/arc_conformance/modern_reference.py:1443-1451 | scaling int64 accumulators lane by lane, with the wide fallback, is the exact shift, refused exactly beyond 2^62 |
| `FastOps.Accumulate` | scripts/arc_conformance/modern_reference.py:1453-1457 | the accumulators of a projection are the exact dot products and fit int64 |
| `FastOps.Project` | scripts/arc_conformance/modern_reference.py:1453-1457 | a batch projection is the plain projection of every row, refused exactly when one is |
| `FastNorm.InverseRmsExact` | scripts/arc_conformance/modern_reference.py:1028-1031 | r = isqrt(2^92 // v) is exactly floor(2^46 / sqrt v) |
| `FastNorm.NormBound` | scripts/arc_conformance/modern_reference.py:1024-1038 | (x_i * r)^2 < n * 2^92 |
| `FastNorm.ProductSmall` | scripts/arc_conformance/modern_reference.py:1485-1486 | for n <= 2^19 the product x*r is below 2^56, so its fallback is unreachable |
| `FastNorm.ProductsOk` | scripts/arc_conformance/modern_reference.py:1033-1037 | the 2^127 refusal of the plain operator cannot happen on such rows |
| `FastNorm.LimbSquaresExact` | scripts/arc_conformance/modern_reference.py:1472-1480 | the three-limb sums rebuild the exact sum of squares, without int64 overflow for n <= 2^19 |
| `FastNorm.RowRoot` | scripts/arc_conformance/modern_reference.py:1478-1487 | the inverse root of a row from its limb sums, refused exactly above 2^92 |
| `FastNorm.RmsNormFast` | scripts/arc_conformance/modern_reference.py:1468-1491 | the fast norm answers as the plain operator does on every row, or hands over |
| `FastNorm.RmsNorm` | scripts/arc_conformance/modern_reference.py:1459-1466 | the batch norm is the plain norm of every row, refused exactly when one is |
| `FastPointwise.LaneRope` | scripts/arc_conformance/modern_reference.py:1493-1510 | the rotation in int64 lanes is the plain rotation and no lane overflows below the guard |
| `FastPointwise.Rope` | scripts/arc_conformance/modern_reference.py:1493-1510 | the batch rotation is the plain rotation of every row, refused exactly when one is |
| `FastPointwise.Silu` | scripts/arc_conformance/modern_reference.py:1544-1556 | the batch activation is the plain activation of every row, refused exactly when one is |
| `FastPointwise.Residual` | scripts/arc_conformance/modern_reference.py:1558-1562 | the batch residual is the plain residual of every row, refused exactly when one is |
| `FastAttention.MaskedTop` | scripts/arc_conformance/modern_reference.py:1533-1542 | the maximum over a masked row is the maximum over the prefix |
| `FastAttention.ScoreBound` | scripts/arc_conformance/modern_reference.py:1533-1542 | scores never need the slow path and stay far above the mask value |
| `FastAttention.MaskedRowExact` | scripts/arc_conformance/modern_reference.py:1533-1542 | the weights of a masked row give the weight sum and every weighted sum of the prefix |
| `FastAttention.AttentionFast` | scripts/arc_conformance/modern_reference.py:1533-1542 | batched causal attention, when it answers, is the plain operator on every prefix of every head |
| `FastAttention.CausalAttention` | scripts/arc_conformance/modern_reference.py:1512-1531 | with its fallback it always is |
| `Stacking.OwnerOf` | scripts/arc_conformance/modern_reference.py:1610-1632 | every stacked row belongs to a position of a sequence |
| `Stacking.JoinIsAttend` | scripts/arc_conformance/modern_reference.py:1512-1531 | stacked heads joined are the attention row of a token over its own prefix |
| `Stacking.AttendFits` | scripts/arc_conformance/modern_reference.py:1133-1140 | attention over an int32 cache stays inside int32 |
| `FastEngine.Engine.StackQkv` | scripts/arc_conformance/modern_reference.py:1571-1582 | projections and rotations of all rows equal those of each token, refused exactly when one is |
| `FastEngine.Engine.StackAttention` | scripts/arc_conformance/modern_reference.py:1571-1591 | attention block by block is each token's attention over its own sequence |
| `FastEngine.Engine.StackFinish` | scripts/arc_conformance/modern_reference.py:1583-1591 | the rest of the layer on all rows equals that of each token |
| `FastEngine.Engine.LayerStacked` | scripts/arc_conformance/modern_reference.py:1571-1591 | one stacked layer is the left-to-right sweep of every sequence, refused exactly when one sweep is |
| `TeacherForcing.LaneEmbed` | scripts/arc_conformance/modern_reference.py:1431-1434 | the unchecked embedding of the fast path is the checked one: its check can never fail |
| `TeacherForcing.HeadGroup` | scripts/arc_conformance/modern_reference.py:1593-1608 | logits computed vocabulary chunk by chunk are the plain projection of every row |
| `TeacherForcing.HeadStacked` | scripts/arc_conformance/modern_reference.py:1593-1608 | and group of rows by group of rows |
| `TeacherForcing.StackRows` | scripts/arc_conformance/modern_reference.py:1610-1632 | the stacked tokens, positions and owners match the sequences |
| `TeacherForcing.LayersStacked` | scripts/arc_conformance/modern_reference.py:1610-1632 | all layers on all rows reach the grid of every sequence, or some sequence is refused |
| `TeacherForcing.TeacherForced` | scripts/arc_conformance/modern_reference.py:1610-1632 | every position of every sequence gets the slow engine's logits; refused exactly when there is no sequence, one is empty, or the slow engine refuses one |
| `Selection.ApplyIsPointwise` | scripts/arc_conformance/modern_reference.py:1154-1164 | each logit is stepped once per token that names it, and the penalty refuses exactly when a token cannot be indexed or one of these steps refuses, in either profile |
| `Selection.ApplyOrderFree` | scripts/arc_conformance/modern_reference.py:1154-1164 | the order of the penalised tokens is irrelevant |
| `Selection.PenaltyLowers` | scripts/arc_conformance/integer_reference.py:208-215 | the penalty never raises a logit, in either profile, and leaves those no token names alone |
| `Selection.Argmax` | scripts/arc_conformance/integer_reference.py:200-205 | the result is the lowest index of a maximum |
| `Selection.ArgmaxUnique` | scripts/arc_conformance/integer_reference.py:200-205 | there is only one such index |
| `Selection.ScanArgmax` | scripts/arc_conformance/integer_reference.py:200-205 | the scan finds it, and answers 0 on an empty list |
| `Selection.SelectNext` | scripts/arc_conformance/modern_reference.py:1154-1164 | the loop over the newest 64 tokens and the scan select what the rule says (`SelectionMeaning.SelectMeaning`), or refuse; tokens outside the vocabulary fail or count from the end in the dyadic profile and are skipped in the legacy one |
| `Selection.SelectOrderFree` | scripts/arc_conformance/modern_reference.py:1154-1164 | selection depends only on the multiset of the newest 64 tokens |
| `Selection.UnpenalisedWins` | scripts/arc_conformance/integer_reference.py:208-219 | the raw argmax is selected whenever the penalty refuses nothing and it is not among those tokens, by its number or (dyadic) counted from the end |
| `SelectionMeaning.StepMeaning` | scripts/arc_conformance/modern_reference.py:1159-1161 | a penalty step takes v to w if and only if w is 5/6 or 6/5 of v rounded towards zero, as inequalities, and is admitted by the profile |
| `SelectionMeaning.StepRefused` | scripts/arc_conformance/modern_reference.py:1159-1161 | a step is refused exactly for logits beyond explicit bounds, in either profile |
| `SelectionMeaning.ApplyMeaning` | scripts/arc_conformance/modern_reference.py:1157-1161 | the penalised logits are arr if and only if each is its logit after as many steps as the newest 64 tokens name it |
| `SelectionMeaning.SelectMeaning` | scripts/arc_conformance/modern_reference.py:1154-1164 | the selected token is r if and only if r is the lowest index of a maximum of the logits, or of the penalised logits |
| `Generation.RunPrefix` | scripts/arc_conformance/modern_reference.py:1219-1236 | a prefix of a run has the prefix of its logits |
| `Generation.GenerationUnique` | scripts/arc_conformance/modern_reference.py:1219-1236 | a case has at most one generation |
| `Generation.GenerationContinues` | scripts/arc_conformance/modern_reference.py:1219-1236 | a generation passes through every state of the loop and continues with the selected token |
| `Generation.GenerateCase` | scripts/arc_conformance/modern_reference.py:1219-1236 | returns the generation of the case and its logits hashes with P + len(out) - 1 forwards, below max_seq; refuses only when there is none |
| `RunVerification.RederivesAll` | scripts/arc_conformance/modern_reference.py:1708-1713 | re-deriving the claimed tokens succeeds exactly when each follows from its logits and history |
| `RunVerification.AcceptsExactly` | scripts/arc_conformance/modern_reference.py:1708-1737 | the token check and the stop rule together hold exactly when the claim is the generation |
| `RunVerification.ReplayCase` | scripts/arc_conformance/modern_reference.py:1708-1713 | the callback over the rows of a case computes the hashes and re-derived tokens |
| `RunVerification.VerifyRun` | scripts/arc_conformance/modern_reference.py:1685-1737 | every claim gets its five checks; the token and stop checks all pass if and only if every claim is what generation produces, all five if and only if every claim is entry for entry what generation writes; refused exactly when forwarding or re-deriving a claim is |
| `RunVerification.AllMeansGenuine` | scripts/arc_conformance/modern_reference.py:1715-1737 | the five checks of a claim all pass exactly when generation would write it: tokens, logits hashes, output hash and digest |
| `Quantizer.LaneElementExact` | scripts/arc_conformance/modern_reference.py:425-452 | clamping the shift at 20 changes no quantised element |
| `QuantizerMeaning.PartsMeaning` | scripts/arc_conformance/modern_reference.py:335-346 | a pattern has parts p if and only if sign, exponent and significand of p put together are the pattern |
| `QuantizerMeaning.PartsRefused` | scripts/arc_conformance/modern_reference.py:337-343 | refused exactly for non-patterns, infinities and NaNs |
| `QuantizerMeaning.UnitsOrder` | scripts/arc_conformance/modern_reference.py:335-346 | exact magnitudes compare by exponent first, then significand |
| `QuantizerMeaning.RowMeaning` | scripts/arc_conformance/modern_reference.py:359-389 | a row quantises to z if and only if z is all zero with mu 0 and k 16, or mu, k and every q are the nearest integers fixed by the largest magnitude, with k from 16 to 62; every other row is refused |
| `Quantizer.ScaleNormalised` | scripts/arc_conformance/modern_reference.py:374-389 | mu lies in [2^30, 2^31), is ma*2^t/127 to half a unit, and the renormalisation branch is never taken |
| `Quantizer.QuantizeRowExact` | scripts/arc_conformance/modern_reference.py:359-389 | the literal loops compute the row rule (`QuantizerMeaning.RowMeaning`), refusals included |
| `Quantizer.ScaleTable` | scripts/arc_conformance/modern_reference.py:392-404 | the table holds the scale of every significand |
| `Quantizer.QuantizeRows` | scripts/arc_conformance/modern_reference.py:410-452 | the vectorised algorithm returns the rule's q, mu and k for every row, and refuses exactly when a row is refused |
| `QuantizerAccuracy.RowAccuracy` | scripts/arc_conformance/modern_reference.py:335-389 | abs q <= 127, every element of largest magnitude maps to +-127, A is at least the size of every element, mu and k are in range, and each dequantised element is within (A/127)/2 + abs q * 2^-k / 2 of its value |
| `PackageLayout.PackageEntries` | scripts/arc_conformance/modern_reference.py:574-601 | the loop over layers lists the entries of the layout |
| `PackageLayout.NamePosition` | scripts/arc_conformance/modern_reference.py:574-601 | every entry stands at the index its name determines, so no name occurs twice |
| `PackageLayout.HeaderTensors` | scripts/arc_conformance/modern_reference.py:617-624 | the loop assigns the specified offsets |
| `PackageLayout.PlacedWithin` | scripts/arc_conformance/modern_reference.py:613-624 | every offset is 64-aligned and every entry ends before the total |
| `PackageLayout.PlacedApart` | scripts/arc_conformance/modern_reference.py:613-624 | entries are pairwise disjoint, padding included, in file order |
| `PackageFile.SerializedIsWellFormed` | scripts/arc_conformance/modern_reference.py:893-945 | a file written from header and tensors passes every structural check and holds each tensor at its placement |
| `PackageFile.WellFormedIsSerialized` | scripts/arc_conformance/modern_reference.py:893-945 | an accepted file is byte for byte the serialisation of its header and tensors |
| `PackageReader.NameFound` | scripts/arc_conformance/modern_reference.py:574-601 | every name of the layout is found at its index with its dtype and shape |
| `PackageReader.IndexNames` | scripts/arc_conformance/modern_reference.py:946-958 | the dictionary of entries has exactly the layout's names and loses none |
| `PackageReader.CheckValues` | scripts/arc_conformance/modern_reference.py:963-982 | the value check passes exactly when every scaled matrix is in range |
| `PackageReader.CheckModel` | scripts/arc_conformance/modern_reference.py:869-890 | the checks on the model object pass exactly when it is a valid shape |
| `PackageReader.OpenPackage` | scripts/arc_conformance/modern_reference.py:896-951 | the reader accepts exactly the files some header of this schema, profile and model makes well formed with values in range, and returns that header |
| `PackageMeaning.BeginningMeaning` | scripts/arc_conformance/modern_reference.py:899-905 | a file has a header of n bytes if and only if it begins with the eight bytes ARCIPKG1 and n as eight bytes, lowest first |
| `PackageMeaning.AcceptedBeginning` | scripts/arc_conformance/modern_reference.py:896-945 | an accepted file carries this schema and profile, begins with its rendered header, and is zero up to the multiple of 64 where the data starts |
| `PackageMeaning.OffsetMeaning` | scripts/arc_conformance/modern_reference.py:613-624 | the first tensor is at offset 0 and each next one on the first multiple of 64 behind the bytes of the last |
| `PackageMeaning.ValueMeaning` | scripts/arc_conformance/modern_reference.py:953-958 | value i of a tensor is x if and only if its own one, four or eight bytes of the file hold x in two's complement (k unsigned) |
| `PackageMeaning.RowCheckMeaning` | scripts/arc_conformance/modern_reference.py:963-982 | a row passes if and only if all q are within 127 and it is zero with mu 0 and k 16, or mu is in [2^30, 2^31) and k in [16, 62] |
| `PackageWriter.GainRounds` | scripts/arc_conformance/modern_reference.py:458-468 | a gain is v*2^16 exactly when no bits are lost, rounded half away from zero otherwise, with the sign kept |
| `PackageMeaning.GainMeaning` | scripts/arc_conformance/modern_reference.py:458-468 | a pattern has gain g if and only if g is its value times 2^16, exact or to the nearest with halves away from zero, and fits int64 |
| `PackageWriter.QuantizedPasses` | scripts/arc_conformance/modern_reference.py:963-982 | every row the quantiser returns passes the reader's value check and fits its storage |
| `PackageWriter.ValuesFit` | scripts/arc_conformance/modern_reference.py:792-855 | every tensor has as many values as its shape says and all fit their dtype |
| `PackageWriter.RoundTrip` | scripts/arc_conformance/modern_reference.py:792-982 | the serialised tensors of a source are accepted by the reader and each reads back unchanged |
| `PackagePrepare.StreamWriter.Write` | scripts/arc_conformance/modern_reference.py:777-782 | appends and keeps the size |
| `PackagePrepare.StreamWriter.Pad` | scripts/arc_conformance/modern_reference.py:784-785 | appends zeros up to the next multiple of 64 |
| `PackagePrepare.WriteWeights` | scripts/arc_conformance/modern_reference.py:822-834 | quantising chunk by chunk writes the same bytes as the whole matrix and returns the same scales and refusals |
| `PackagePrepare.WriteTensor` | scripts/arc_conformance/modern_reference.py:821-849 | one tensor is written exactly as encoded, the pending scales are always there, refused exactly when the source is |
| `PackagePrepare.WriterOnOffset` | scripts/arc_conformance/modern_reference.py:818-820 | after i tensors the writer stands on the next entry's offset |
| `PackagePrepare.PreparePackage` | scripts/arc_conformance/modern_reference.py:792-855 | neither internal assertion ever fires; the file is the serialisation of the encoded tensors, or the source is refused; the reader accepts it and finds every tensor unchanged |
| `PackageModel.AcceptedIsValid` | scripts/arc_conformance/modern_reference.py:869-982 | an accepted package satisfies every precondition of the engine proofs |
| `PackageEngine.LoadIsSource` | scripts/arc_conformance/modern_reference.py:792-982 | a prepared file loads as the model of the quantised source: its q, mu and k, its gains and its tables |
| `PackageEngine.PrepareAndForce` | scripts/arc_conformance/modern_reference.py:792-1632 | prepare, write, open, load and teacher-force: a source that prepares is always accepted, and every position gets the plain engine's logits for the quantised source, refused exactly when that engine refuses |
| `LegacyExp.BuildLut` | scripts/arc_conformance/integer_reference.py:59-64 | the loop fills the table of the recurrence |
| `LegacyExp.LutValid` | scripts/arc_conformance/integer_reference.py:59-64 | the recurrence gives a non-decreasing table in [0, 2^16] ending at 2^16 |
| `LegacyMeaning.LutMeaning` | scripts/arc_conformance/integer_reference.py:59-64 | the last entry is 2^16 and every other is 65281/65536 of the next, floored |
| `LegacyExp.IntegerExpRange` | scripts/arc_conformance/integer_reference.py:70-81 | values lie in [0, 2^16], saturated at both ends |
| `LegacyExp.IntegerExpMono` | scripts/arc_conformance/integer_reference.py:70-81 | it is non-decreasing everywhere |
| `LegacyExp.IntegerIsqrt` | scripts/arc_conformance/integer_reference.py:86-101 | the loop computes the five-step iteration (`InverseRootAccuracy` says what that is), refusals included |
| `LegacyIsqrt.StepStaysTame` | scripts/arc_conformance/integer_reference.py:92-100 | x*y^2 grows by at most 9/4 per step and no product of the step leaves int64; y = 1 is a fixed point |
| `LegacyIsqrt.FirstGuessTame` | scripts/arc_conformance/integer_reference.py:88-91 | the starting value has x*y^2 < 2^49 or is 1 |
| `LegacyIsqrt.InverseSqrtTotal` | scripts/arc_conformance/integer_reference.py:86-101 | for every int64 argument nothing is refused and the result is at least 1 |
| `InverseRootAccuracy.StepMeaning` | scripts/arc_conformance/integer_reference.py:93-100 | a step gives z if and only if z is the truncation of y*(3*2^16 - t)/2^17, or 1 when that is smaller, with t and the square given by floors and all products in int64 |
| `InverseRootAccuracy.Progress` | scripts/arc_conformance/integer_reference.py:93-100 | below the root a step never moves down, and below 1/sqrt 2 of it it gains a quarter |
| `InverseRootAccuracy.UpperStep` | scripts/arc_conformance/integer_reference.py:93-100 | no step ends above the root by more than 37/27 of what its two floors lose, wherever it starts |
| `InverseRootAccuracy.LowerStep` | scripts/arc_conformance/integer_reference.py:93-100 | a step squares the distance from below: the next (z+1) falls short by at most the dip of w*(3-w)^2/4 |
| `InverseRootAccuracy.InverseSqrtAccurate` | scripts/arc_conformance/integer_reference.py:86-101 | for x up to 2^28 the result r has 27(x*r^2 - 2^48) <= 37*2^16*(x+2^16) and x*(r+1)^2 >= 2^48 - 2^34 - 3(x+2^16)^2/2^17 |
| `InverseRootAccuracy.InverseSqrtClose` | scripts/arc_conformance/integer_reference.py:86-101 | for x up to 2^24 abs(x*r^2 - 2^48) <= 2^41 |
| `InverseRootAccuracy.InverseSqrtLarge` | scripts/arc_conformance/integer_reference.py:86-101 | from 2^34 on the result is 1, 243, 121, 60, 28, 13 or 1 by the size of x alone |
| `InverseRootAccuracy.WhereItApproximates` | scripts/arc_conformance/integer_reference.py:86-101 | within a factor of the root of five of 2^24/sqrt x: for all x up to 2^32 - 2^16, and from 2^34 on exactly between 2^47 and 5*2^48 |
| `InverseRootAccuracy.BetweenItDepends` | scripts/arc_conformance/integer_reference.py:86-101 | two inputs between those ranges, one approximated and one not |
| `LegacyAttention.OnlineAttention` | scripts/arc_conformance/integer_reference.py:166-192 | the loop computes the position-by-position recurrence, refusals included |
| `LegacyMeaning.AbsorbIs` | scripts/arc_conformance/integer_reference.py:174-186 | one position takes state o to r if and only if score, rescaling, weight and sums of r are the floored ones, all in int64 |
| `LegacyEngineMeaning.HeadOutMeaning` | scripts/arc_conformance/integer_reference.py:166-192 | a head gives y if and only if a chain of such states ends in one whose accumulator over sum, truncated, is y |
| `LegacyAttention.FirstPosition` | scripts/arc_conformance/integer_reference.py:173-186 | the sentinel never survives the first position and leaves nothing behind |
| `LegacyAttention.OnlineInvariant` | scripts/arc_conformance/integer_reference.py:173-189 | after n positions the maximum is the largest score so far, 2^16 <= sum <= n*2^16, and the accumulator is covered by the value bound |
| `LegacyAttention.OnlineRange` | scripts/arc_conformance/integer_reference.py:166-192 | 2^16 abs out <= 2^16 V + n (V + 2*2^16) when all values are within V |
| `LegacyAttention.TwoPassAttention` | scripts/arc_conformance/mutations.py:67-75 | the two-pass loop computes its specification |
| `LegacyAttention.FirstMaximumAgrees` | scripts/arc_conformance/mutations.py:67-75 | online equals two-pass whenever the first score is a maximum and nothing is refused |
| `LegacyAttention.RisingScoresDiffer` | scripts/arc_conformance/mutations.py:132-132 | three rising scores on which the two forms give 0 and 1 |
| `LegacyOps.SigmoidIs` | scripts/arc_conformance/integer_reference.py:156-163 | the legacy sigmoid is the sigmoid of the recurrence table, so range, monotonicity and symmetry carry over |
| `LegacyMeaning.MatmulMeaning` | scripts/arc_conformance/integer_reference.py:123-133 | a legacy projection is y if and only if every magnitude sum and scaled sum fits int64 and y holds the floors |
| `LegacyMeaning.NormRefusal` | scripts/arc_conformance/integer_reference.py:106-120 | a legacy normalisation is refused exactly when the square sum reaches 2^127, the mean does not fit or a product leaves int64; the inverse root never refuses |
| `LegacyMeaning.NormMeaning` | scripts/arc_conformance/integer_reference.py:106-120 | a legacy normalisation is y if and only if y holds the doubly floored products with the inverse root of the mean square plus one, missing gains being one |
| `LegacyMeaning.SiluMeaning` | scripts/arc_conformance/integer_reference.py:156-163 | a legacy activation is y if and only if y holds the doubly floored products with the sigmoid of the recurrence table |
| `LegacyMeaning.ResidualMeaning` | scripts/arc_conformance/integer_reference.py:312-318 | a legacy residual is y if and only if y minus one summand is the other, inside int64 |
| `LegacyMeaning.RopeMeaning` | scripts/arc_conformance/integer_reference.py:136-153 | a rotated vector is y if and only if every pair, adjacent or half a vector apart, is turned by the position's angle with four floored products in int64 |
| `LegacyOps.Apply` | scripts/arc_conformance/integer_reference.py:123-133 | the loop over rows computes the projection, refusals included |
| `LegacyOps.NormRow` | scripts/arc_conformance/integer_reference.py:106-120 | the loop computes the normalisation, refusals included |
| `LegacyOps.RopeSplitHalf` | scripts/arc_conformance/integer_reference.py:136-143 | the in-place loop leaves the rotated vector, or refuses exactly when a product leaves int64 or the tables end |
| `LegacyOps.RopeInterleaved` | scripts/arc_conformance/integer_reference.py:146-153 | the same for adjacent pairs |
| `LegacyModel.Executor.RotateHeads` | scripts/arc_conformance/integer_reference.py:296-303 | head by head: copy out, turn in place, copy back |
| `LegacyModel.AttendAll` | scripts/arc_conformance/integer_reference.py:306-311 | the loop over query heads concatenates their attention |
| `LegacyEngineMeaning.KvHeadGroups` | scripts/arc_conformance/integer_reference.py:195-197 | query head h uses key/value head kv if and only if h lies in the kv-th group of consecutive heads |
| `LegacyEngineMeaning.AttendMeaning` | scripts/arc_conformance/integer_reference.py:306-311 | an attention row is y if and only if y is the heads of the row one after the other, each over the keys and values of its group |
| `LegacyModel.Executor.ProjectRows` | scripts/arc_conformance/integer_reference.py:291-295 | norm and the three projections of a layer |
| `LegacyModel.Executor.FinishRow` | scripts/arc_conformance/integer_reference.py:312-318 | output projection, feed-forward and residuals of a layer |
| `LegacyModel.Executor.StepLayer` | scripts/arc_conformance/integer_reference.py:289-318 | one layer appends to the cache and gives the specified hidden row or refusal |
| `LegacyEngineMeaning.PrepareMeaning` | scripts/arc_conformance/integer_reference.py:289-303 | what a layer appends is p if and only if p are the projections of the normalised row, queries and keys turned head by head |
| `LegacyEngineMeaning.FinishMeaning` | scripts/arc_conformance/integer_reference.py:312-318 | the rest of a layer is y if and only if rows exist that tie its projections, activation and two residuals together |
| `LegacyEngineMeaning.LayerMeaning` | scripts/arc_conformance/integer_reference.py:287-319 | a layer gives y and cache r if and only if r is the cache grown by one key and one value row of this layer and y solves the equations over it |
| `LegacyModel.Executor.RunRange` | scripts/arc_conformance/integer_reference.py:287-319 | a layer range computes the specified state, stopping at the first refusal |
| `LegacyModel.Executor.ForwardToken` | scripts/arc_conformance/integer_reference.py:324-330 | one forward call, position limit and cache length included |
| `LegacyModel.Executor.RunSequence` | scripts/arc_conformance/kat.py:126-134 | the loop over tokens leaves the specified cache and logits up to the first refusal |
| `LegacyEngineMeaning.ForwardMeaning` | scripts/arc_conformance/integer_reference.py:324-330 | a forward call gives y and cache r if and only if the token's slice of the embedding leads through all layers to y, below the position limit |
| `LegacyEngineMeaning.SequenceMeaning` | scripts/arc_conformance/kat.py:126-134 | a token sequence gives logits ys and cache c if and only if these solve the equations of the whole model from empty caches |
| `Sharding.RunLayersSplit` | scripts/arc_conformance/integer_reference.py:287-319 | running layers a..b and then b..e is running a..e, cache and refusal included |
| `Sharding.ShardsAreWhole` | scripts/arc_conformance/kat.py:137-148 | after j shards cache and outcome are those of one pass, and so is the hidden state at every boundary |
| `Sharding.ShardedSequenceIsSequence` | scripts/arc_conformance/integer_reference.py:287-330 | for every partition and token sequence the sharded run has the same logits, cache and refusals |
| `Sharding.RunSplit` | scripts/arc_conformance/kat.py:137-148 | the loops of the split run compute its specification, for any number of boundaries |
| `Sharding.SplitMatchesWhole` | scripts/arc_conformance/kat.py:126-148 | the whole run succeeds exactly when the split run does, no position is past the limit and every final state has logits; then caches and logits agree |
| `Sharding.SplitOutrunsWhole` | scripts/arc_conformance/kat.py:126-148 | a model and a token on which the split run succeeds and the whole run refuses |
| `RopeLayouts.PermutedSplitHalf` | scripts/arc_conformance/operator_vectors.py:183-191 | the loop permutes every whole head |
| `RopeLayouts.RopePerm` | scripts/arc_conformance/integer_reference.py:136-153 | permuting after the interleaved rotation is the split-half rotation after permuting, refusals included |
| `RopeLayouts.RopeHeadsPerm` | scripts/arc_conformance/integer_reference.py:296-303 | the same for every head of a row |
| `RopeLayouts.MatmulPerm` | scripts/arc_conformance/integer_reference.py:123-133 | permuting the weight rows permutes the projection, refusals included |
| `RopeLayouts.DotPerm` | scripts/arc_conformance/integer_reference.py:175-178 | dot product and magnitude sum do not see a permutation of both sides |
| `RopeLayouts.AttentionHeadPerm` | scripts/arc_conformance/integer_reference.py:166-192 | one head of attention is unchanged when Q and K are permuted alike |
| `RopeRewrite.LayerPerm` | scripts/arc_conformance/integer_reference.py:287-319 | one layer of the rewritten model on the permuted cache gives the same hidden row and the permuted cache |
| `RopeRewrite.LayoutsAgree` | scripts/arc_conformance/integer_reference.py:287-330 | the model with permuted Q and K rows run split-half gives the same logits and refusals at every position, for any number of whole heads; its keys are the permuted keys |
| `ByteCodec.LittleEndianRoundTrip` | scripts/arc_conformance/gguf.py:72-76 | what fits in w bytes is read back |
| `ByteCodec.LittleEndianOnto` | scripts/arc_conformance/gguf.py:72-76 | every byte string is the writing of what it reads as |
| `ByteCodec.AllRoundTrip` | scripts/arc_conformance/modern_reference.py:835-846 | arrays of fixed-width two's-complement integers read back unchanged |
| `ByteCodec.AllOnto` | scripts/arc_conformance/modern_reference.py:953-958 | whole groups of bytes are the writing of in-range values |
| `ByteMeaning.EncodedHolds` | scripts/arc_conformance/gguf.py:72-76 | an integer of 1, 2, 4 or 8 bytes is encoded as b if and only if b holds it lowest byte first in two's complement |
| `Gguf.Write` | scripts/arc_conformance/gguf.py:155-175 | the loops write preamble, metadata, tensor table, padding and blobs as specified (`GgufMeaning` says in which bytes) |
| `GgufMeaning.NumberWritable` | scripts/arc_conformance/gguf.py:15-18 | exactly these numbers can be written under each type code |
| `GgufMeaning.NumberWritten` | scripts/arc_conformance/gguf.py:15-18 | a written number takes the bytes of its type and they hold it |
| `GgufMeaning.NumberRead` | scripts/arc_conformance/gguf.py:72-86 | a number is read as x with the cursor at end if and only if exactly the bytes of its type hold x |
| `GgufMeaning.Utf8Meaning` | scripts/arc_conformance/gguf.py:78-82 | text is accepted if and only if it is the UTF-8 encoding of a sequence of Unicode scalar values |
| `GgufMeaning.StringMeaning` | scripts/arc_conformance/gguf.py:78-82 | a string is read as b if and only if its eight length bytes hold at most 2^24 and b is well-formed text of that length behind them |
| `GgufMeaning.ValueMeaning` | scripts/arc_conformance/gguf.py:84-97 | a value is read as v if and only if the bytes are those of v: number, string, or an array of at most 2^24 elements that are not arrays |
| `GgufMeaning.HeaderMeaning` | scripts/arc_conformance/gguf.py:100-134 | the reader returns h if and only if the bytes are those of h, field by field: magic, version 2 or 3, counts, items with distinct keys, entries with distinct names and one to four dimensions |
| `GgufReader.ValueWritten` | scripts/arc_conformance/gguf.py:84-97 | a written value is read back, or refused exactly when it is beyond the reader's bounds or a nested array |
| `GgufReader.RoundTrip` | scripts/arc_conformance/gguf.py:100-134 | exactly the readable inputs come back, with the cursor on the end of the tensor table whatever data follows |
| `GgufReader.WriteThenRead` | scripts/arc_conformance/gguf.py:100-175 | a written file reads back if and only if keys and names are distinct and everything is within bounds; then every item and every tensor is recovered, none added |
| `GgufReader.EmptyNestedArrayRefused` | scripts/arc_conformance/gguf.py:84-97 | an input the writer takes and the reader refuses |
| `GgufReader.OffsetsApart` | scripts/arc_conformance/gguf.py:163-172 | data offsets are aligned and the blobs do not overlap |
| `GgufReader.BlobsInPlace` | scripts/arc_conformance/gguf.py:163-175 | each blob lies at the first aligned byte after the table plus its recorded offset |
| `GgufReader.Cursor.Take` | scripts/arc_conformance/gguf.py:66-70 | takes exactly n bytes and moves the cursor, or refuses |
| `GgufReader.Cursor.String` | scripts/arc_conformance/gguf.py:78-82 | a bounded, well-formed UTF-8 string |
| `GgufReader.Cursor.ValueOf` | scripts/arc_conformance/gguf.py:84-97 | a metadata value by its type code |
| `GgufReader.Cursor.Metadata` | scripts/arc_conformance/gguf.py:112-119 | the dictionary loop, duplicate keys refused |
| `GgufReader.Cursor.Table` | scripts/arc_conformance/gguf.py:120-132 | the tensor loop, duplicate names and bad dimension counts refused |
| `GgufReader.ReadFile` | scripts/arc_conformance/gguf.py:100-134 | the whole reader over a fresh cursor is the parser |

## Left out

- Table generation (exponential, sine and cosine tables from high-precision arithmetic) and `rope_margin.py`: the finished tables are parameters with their shape and range as contract.
- Hashing, canonical JSON text, file and memory-map access, safetensors, manifests and the command line: a hash is any function of the logits, the package header text is a pair of functions with `parse(render(h)) == h` for the header at hand.
- `model_from_config` and `rms_eps_q32`: the shape and epsilon they produce are parameters.
- Floating-point rounding itself: float64 is any rounding that is exact on integers below 2^53, with any summation order; the float estimate of a magnitude sum is any upper bound.
- `generate_v1`, `generate_v2`, `generate_run` and the known-answer fixtures: loops over operations modelled here with nothing new to prove.
- The relayer, faucet, agents, dashboards, explorer and desktop code.
- PackageLayout.Layout: tensor names are constructors instead of strings, so the rendering of a layer number in a name is not modelled; sizes are unbounded where numpy multiplies in int64.
- PackageReader.OpenPackage: which fields the header's JSON objects have and of which JSON type they are is decided by the uninterpreted parser.
- PackageReader.CheckValues: goes through the rows one at a time where the source compares whole arrays in chunks.
- FastEngine.Engine.LayerStacked: the fallback counters are kept by the class but only their bookkeeping is stated, because no result depends on them.
- ModernModel.ValidModel: inner dimensions are below 2^44; from there on the limb budget of a projection can run out (`ExactMatmul.BudgetSuffices`), which the fast engine does not catch.
- PackageModel.AcceptedIsValid: the reader itself has no upper bound on dimensions; the engines have this one.
- ExactMatmul.MatmulExact: inner dimensions are below 2^50, where the limb width of the source becomes 0 and its limb loop would not end.
- Exponential.ExpMono: positive arguments, which the source refuses, are outside the function; every caller is proved never to pass one.
- Selection.SelectNext: defined on non-empty logits, since a vocabulary has at least one entry.
- LegacyAttention.FirstMaximumAgrees: one direction only; when the first score is not a maximum the two forms may still agree by accident of rounding.
- InverseRootAccuracy.WhereItApproximates: between 2^32 - 2^16 and 2^34 the result changes between right and wrong several times with single steps of y; `BetweenItDepends` shows both, the exact set is not characterised.
- RunVerification.VerifyRun: the comparison of package identity and the digest over all cases of a run are not modelled.
- RopeRewrite.LayoutsAgree: the rows of Q and K form whole heads; rewriting a row drops a partial head, so for other matrices there is nothing to compare.
- Gguf.Write: values outside their declared width, which make the packing raise, are outside its precondition; floating-point numbers are bit patterns, so the rounding of a double to 32 bits is not modelled.
