# The Royal Game of Ur 3D: rules engine and neural-network library, modelled in Dafny

The repository holds two sequential cores, and this project models both.

**The network engine.** A small feed-forward neural-network library written in C#. It has:
- dense matrix operations;
- layers that compute `f(W·x + b)` with a diagonal Jacobian;
- networks that chain layers;
- back-propagation of the squared error;
- incremental and batch gradient descent, with batch training stopped by an R² test;
- random mutation of weights for genetic search.

Doubles are exact `real`s. `Math.Exp` and the Gaussian draw are parameters. Every exception the C# code throws becomes an `Err` of `Outcomes.Result`.

**The game rules.** The rules of the Royal Game of Ur, as the Unity scripts play them:
- stones walk a tile graph that forks per player;
- the legality of a destination, and the knock-off ("bop") of an enemy stone;
- the turn state machine and the dice;
- a random and a scoring computer player;
- the storage where stones wait off the board.

Unity object references become indices into the game's tiles and stones, and a null reference becomes `None`, including a null entry in a tile's successor array. `Random.Range` draws and the objects Unity finds become inputs.

Modules: `Outcomes` (outcomes.dfy), `Matrices`, `MatrixFixtures`, `Transfer`, `Training`, `Layers`, `Networks`, `BatchExample`, `Board`, `Paths`, `Turns`, `Moves`, `Dice`, `Ai`, `UtilityAi` and `Storage`.

## Model

| member | source | states |
|---|---|---|
| Matrices.Add | NeuralNetwork/NeuralNetwork/NeuralMath/Matrix.cs:30-51 | fails with a dimension error exactly when the shapes differ; otherwise the same shape, with each element the sum of the two operands' elements |
| Matrices.Subtract | NeuralNetwork/NeuralNetwork/NeuralMath/Matrix.cs:75-96 | fails exactly when the shapes differ; otherwise the element-wise difference, same shape |
| Matrices.SubtractThenAdd | NeuralNetwork/NeuralNetwork/NeuralMath/Matrix.cs:30-96 | subtracting then adding back the same matrix returns the original: Add undoes Subtract |
| Matrices.AddZero | NeuralNetwork/NeuralNetwork/NeuralMath/Matrix.cs:30-51 | adding a zero matrix of the same shape changes nothing |
| Matrices.AddCommutes | NeuralNetwork/NeuralNetwork/NeuralMath/Matrix.cs:30-51 | both orders of Add fail together or give the same matrix |
| Matrices.RowView | NeuralNetwork/NeuralNetwork/NeuralMath/Matrix.cs:249-259 | the row view of a vector is a 1 × n matrix holding the vector in row 0 |
| Matrices.ColumnView | NeuralNetwork/NeuralNetwork/NeuralMath/Matrix.cs:266-276 | the column view is an n × 1 matrix holding the vector in column 0 |
| Matrices.ToVector | NeuralNetwork/NeuralNetwork/NeuralMath/Matrix.cs:284-311 | fails exactly when neither dimension is 1; a single row reads out as that row, otherwise the single column reads out |
| Matrices.ToVectorOfColumn | NeuralNetwork/NeuralNetwork/NeuralMath/Matrix.cs:284-311 | every n × 1 matrix reads out as its column, whatever n is, including n = 1 |
| Matrices.ViewsRoundTrip | NeuralNetwork/NeuralNetwork/NeuralMath/Matrix.cs:249-311 | reading back either view of a vector gives the vector |
| Matrices.AddVec | NeuralNetwork/NeuralNetwork/NeuralMath/Matrix.cs:17-22 | the 1-D Add fails exactly when the lengths differ, else gives element-wise sums |
| Matrices.SubVec | NeuralNetwork/NeuralNetwork/NeuralMath/Matrix.cs:59-64 | the 1-D Subtract fails exactly when the lengths differ, else gives element-wise differences |
| Matrices.Scale | NeuralNetwork/NeuralNetwork/NeuralMath/Matrix.cs:117-130 | scalar multiplication never fails, keeps the shape and multiplies every element by the scalar |
| Matrices.ScaleVec | NeuralNetwork/NeuralNetwork/NeuralMath/Matrix.cs:104-108 | the 1-D scalar multiplication keeps the length and scales every entry |
| Matrices.Multiply | NeuralNetwork/NeuralNetwork/NeuralMath/Matrix.cs:138-160 | fails exactly when the left columns differ from the right rows; otherwise rows(left) × cols(right), with each entry the dot product of a left row and a right column |
| Matrices.MultiplyLoop | NeuralNetwork/NeuralNetwork/NeuralMath/Matrix.cs:138-160 | the original's triple loop computes the same errors, shape and entries as the dot-product definition |
| Matrices.Transpose | NeuralNetwork/NeuralNetwork/NeuralMath/Matrix.cs:230-242 | the transpose is cols × rows, with entry (j, i) equal to entry (i, j) of the argument |
| Matrices.TransposeTwice | NeuralNetwork/NeuralNetwork/NeuralMath/Matrix.cs:230-242 | transposing twice gives back the original matrix |
| Matrices.DotCommutes | NeuralNetwork/NeuralNetwork/NeuralMath/Matrix.cs:147-157 | the inner sum of Multiply is symmetric in its two vectors |
| Matrices.TransposeOfProduct | NeuralNetwork/NeuralNetwork/NeuralMath/Matrix.cs:138-160 | (AB)ᵀ = BᵀAᵀ, and the two products fail together |
| Matrices.Clamp | NeuralNetwork/NeuralNetwork/NeuralMath/Matrix.cs:197-205 | an element is first moved into [lower, upper]; an element already inside is kept |
| Matrices.Reflect | NeuralNetwork/NeuralNetwork/NeuralMath/Matrix.cs:210-217 | a sample inside the bounds is kept; one below lower is mirrored above lower by the same distance, and one above upper is mirrored below upper |
| Matrices.ReflectStaysInsideForSmallOvershoot | NeuralNetwork/NeuralNetwork/NeuralMath/Matrix.cs:210-217 | an overshoot no wider than the interval lands back inside [lower, upper] |
| Matrices.ReflectCanLeaveInterval | NeuralNetwork/NeuralNetwork/NeuralMath/Matrix.cs:210-217 | a wider overshoot is mirrored past the opposite bound: −4 in [−1, 1] becomes 2 |
| Matrices.MutateMatrix | NeuralNetwork/NeuralNetwork/NeuralMath/Matrix.cs:182-220 | fails exactly when stdev ≤ 0 or lower ≥ upper, before touching any element; otherwise keeps the shape, and each element is the reflected draw centred on the clamped element |
| Matrices.MutateVector | NeuralNetwork/NeuralNetwork/NeuralMath/Matrix.cs:169-174 | the 1-D mutation has the same error cases and mutates each entry as row 0 of the row view |
| MatrixFixtures.ThreeByThreeProduct | NeuralNetwork/NeuralNetwork/Tests/UnitsTests.cs:24-45 | the 3 × 3 test product equals the test's expected matrix |
| MatrixFixtures.ThreeByTwoProduct | NeuralNetwork/NeuralNetwork/Tests/UnitsTests.cs:47-54 | the 3 × 3 by 3 × 2 test product equals the test's expected matrix |
| MatrixFixtures.ThreeByThreeSumAndDifference | NeuralNetwork/NeuralNetwork/Tests/UnitsTests.cs:24-40 | the test's sum and difference equal its expected matrices |
| MatrixFixtures.ProductOfThreeColumns | NeuralNetwork/NeuralNetwork/Tests/UnitsTests.cs:42-54 | any product with three inner columns succeeds, and each entry is the three-term sum the test expectations are written from |
| Transfer.Value | NeuralNetwork/NeuralNetwork/Components/TransferFunction.cs:15-34 | PureLine is the identity; LogSigmoid lies strictly between 0 and 1 |
| Transfer.Derivative | NeuralNetwork/NeuralNetwork/Components/TransferFunction.cs:21-38 | PureLine's derivative is 1; LogSigmoid's lies strictly between 0 and 1 |
| Transfer.LogisticSlopeBounds | NeuralNetwork/NeuralNetwork/Components/TransferFunction.cs:21-24 | the logistic slope e/(1+e)² lies strictly between 0 and 1 for every positive e, as Math.Exp supplies |
| Transfer.LogSigmoidDerivativeIsProduct | NeuralNetwork/NeuralNetwork/Components/TransferFunction.cs:15-24 | the logistic derivative as written, e^−x/(1+e^−x)², equals σ(x)·(1 − σ(x)) |
| Training.NewTrainingPoint | NeuralNetwork/NeuralNetwork/Components/TrainingPoint.cs:19-26 | input and expected output equal the arguments element-wise, with no length relation imposed between them |
| Layers.NewCache | NeuralNetwork/NeuralNetwork/Components/WeightUpdateData.cs:19-32 | the cached input and Jacobian equal the arguments element-wise, with the same length and shape |
| Layers.NewRandom | NeuralNetwork/NeuralNetwork/Components/LayerOfNeurons.cs:20-45 | weights are totalOutputs × totalInputs, drawn with mean 0 and deviation 0.1; biases are present exactly when requested, one per output; a negative size fails as the array allocation does |
| Layers.Copy | NeuralNetwork/NeuralNetwork/Components/LayerOfNeurons.cs:51-81 | the copy equals the original layer and keeps its transfer function; it fails exactly when biases are present with a length other than the weight rows |
| Layers.Explicit | NeuralNetwork/NeuralNetwork/Components/LayerOfNeurons.cs:89-114 | copies the given weights and biases element-wise, keeps null biases null, and checks no lengths |
| Layers.CopyOfExplicit | NeuralNetwork/NeuralNetwork/Components/LayerOfNeurons.cs:51-114 | copying an explicitly built layer fails exactly when its biases are present with the wrong length |
| Layers.Calculate | NeuralNetwork/NeuralNetwork/Components/LayerOfNeurons.cs:122-141 | fails exactly on an input width other than the weight columns, or on misfitting biases; otherwise one output per weight row, each the transfer function of W·x (+ b), with a diagonal Jacobian of the derivatives and a cache holding the input |
| Layers.ComputePreActivation | NeuralNetwork/NeuralNetwork/Components/LayerOfNeurons.cs:122-129 | W·x (+ b) through the column view of x: it fails with a dimension error exactly when the input width differs from the weight columns or the biases misfit, and otherwise is the reference pre-activation, entry by entry |
| Layers.Diagonal | NeuralNetwork/NeuralNetwork/Components/LayerOfNeurons.cs:131-136 | the Jacobian matrix carries the derivatives on its diagonal and zeros everywhere else |
| Layers.Mutate | NeuralNetwork/NeuralNetwork/Components/LayerOfNeurons.cs:149-157 | fails exactly on MutateMatrix's argument errors; biases mutate only when present, weights always; shapes, the presence of biases and the transfer function are kept |
| Layers.MutateKeepsBiasFit | NeuralNetwork/NeuralNetwork/Components/LayerOfNeurons.cs:149-157 | a layer whose biases fit still has fitting biases after mutation |
| Layers.SingleNeuronFixture | NeuralNetwork/NeuralNetwork/Tests/UnitsTests.cs:101-110 | weights [[3, 2]], bias [1.2] and input [−5, 6] give pre-activation −1.8 and output LogSigmoid(−1.8) |
| Networks.New | NeuralNetwork/NeuralNetwork/FeedForwardNetwork.cs:58-75 | fails exactly when there is no hidden layer or a size is negative; otherwise totalHiddenLayers layers: the first maps inputs to outputs and every later layer maps outputs to outputs, so the widths chain; every layer has biases exactly when requested |
| Networks.NodesPerLayerIsUnused | NeuralNetwork/NeuralNetwork/FeedForwardNetwork.cs:58-75 | two values of nodesPerLayer build the same network |
| Networks.CopyNetwork | NeuralNetwork/NeuralNetwork/FeedForwardNetwork.cs:81-88 | a copy is equal to the network, and every well-formed network copies without error |
| Networks.CopyLayers | NeuralNetwork/NeuralNetwork/FeedForwardNetwork.cs:81-88 | copying the layer list fails exactly when some layer's biases do not fit; otherwise the list is equal |
| Networks.FromLayers | NeuralNetwork/NeuralNetwork/FeedForwardNetwork.cs:94-102 | copies each given layer, failing exactly when some layer's biases do not fit |
| Networks.Forward | NeuralNetwork/NeuralNetwork/FeedForwardNetwork.cs:306-321 | each layer's output feeds the next, and exactly one cache per layer is recorded, in layer order |
| Networks.CalculateOutput | NeuralNetwork/NeuralNetwork/FeedForwardNetwork.cs:293-298 | the public Calculate succeeds exactly when the forward pass does and returns its output |
| Networks.ForwardSucceeds | NeuralNetwork/NeuralNetwork/FeedForwardNetwork.cs:306-321 | a well-formed network accepts every input of its input width and outputs the last layer's width |
| Networks.ForwardOkMeansWellFormed | NeuralNetwork/NeuralNetwork/FeedForwardNetwork.cs:306-321 | a successful forward pass implies chained widths, fitting biases and an input of the right width |
| Networks.ForwardCachesFit | NeuralNetwork/NeuralNetwork/FeedForwardNetwork.cs:306-321 | the caches of a forward pass have the shapes back-propagation needs |
| Networks.LastSensitivity | NeuralNetwork/NeuralNetwork/FeedForwardNetwork.cs:365-370 | fails exactly when the expected and actual lengths differ or the Jacobian does not fit them; otherwise one sensitivity per Jacobian row |
| Networks.BackSensitivity | NeuralNetwork/NeuralNetwork/FeedForwardNetwork.cs:372-381 | fails exactly when the Jacobian and the next layer's weights or sensitivities do not fit; otherwise one sensitivity per Jacobian row |
| Networks.SensitivitiesFrom | NeuralNetwork/NeuralNetwork/FeedForwardNetwork.cs:360-381 | a success implies equal expected and actual lengths, one sensitivity vector per remaining layer, each sized by its layer's Jacobian |
| Networks.DiagonalTimesTranspose | NeuralNetwork/NeuralNetwork/FeedForwardNetwork.cs:372-381 | a diagonal Jacobian times the next weights transposed scales row j of Wᵀ by f'(n_j) |
| Networks.ProductWithColumnView | NeuralNetwork/NeuralNetwork/Components/LayerOfNeurons.cs:124 | W times the column view of x, read back as a vector, is the vector of row dot products W[j]·x |
| Networks.LastSensitivityIsChainRule | NeuralNetwork/NeuralNetwork/FeedForwardNetwork.cs:365-370 | with a diagonal Jacobian, the final sensitivity −2·J·(e − a) is −2·f'(n_j)·(e_j − a_j) entry by entry |
| Networks.BackSensitivityIsChainRule | NeuralNetwork/NeuralNetwork/FeedForwardNetwork.cs:372-381 | an earlier sensitivity J_i·W_{i+1}ᵀ·s_{i+1} is f'(n_j)·Σ_m W[m][j]·s[m] |
| Networks.SensitivitiesFollowChainRule | NeuralNetwork/NeuralNetwork/FeedForwardNetwork.cs:360-381 | on caches from a forward pass, every sensitivity satisfies the back-propagation recurrence of the squared error |
| Networks.Outer | NeuralNetwork/NeuralNetwork/FeedForwardNetwork.cs:392-395 | the column view of s times the row view of x is the outer product with entries s[r]·x[c] |
| Networks.ComputeDerivative | NeuralNetwork/NeuralNetwork/FeedForwardNetwork.cs:357-397 | a network without layers fails on the empty cache list; otherwise one weight and one bias derivative per layer: the weight derivative is s_i·x_iᵀ, and the bias derivative is s_i exactly when the layer has biases |
| Networks.BackPropagation | NeuralNetwork/NeuralNetwork/FeedForwardNetwork.cs:357-397 | on a forward pass's caches, back-propagation succeeds exactly when expected and actual outputs have equal length, and each weight derivative has its layer's shape |
| Networks.TrainLayer | NeuralNetwork/NeuralNetwork/FeedForwardNetwork.cs:273-285 | W := W − rate·dW and, only when biases are present, B := B − rate·dB; it succeeds exactly when the derivatives have the layer's shapes |
| Networks.TrainLayers | NeuralNetwork/NeuralNetwork/FeedForwardNetwork.cs:273-285 | the layer-by-layer update succeeds exactly when every layer's derivatives fit it, and then each layer takes its own step |
| Networks.TrainLayerUndo | NeuralNetwork/NeuralNetwork/FeedForwardNetwork.cs:273-285 | a layer step with rate −rate after one with rate restores the layer |
| Networks.TrainLayerIsGradientStep | NeuralNetwork/NeuralNetwork/FeedForwardNetwork.cs:273-285 | with the derivatives s·xᵀ and s, the layer update is W − rate·s·xᵀ and b − rate·s |
| Networks.TrainAlongGradient | NeuralNetwork/NeuralNetwork/FeedForwardNetwork.cs:258-286 | Train on back-propagated derivatives succeeds and moves every layer along its own sensitivities and cached input |
| Networks.Train | NeuralNetwork/NeuralNetwork/FeedForwardNetwork.cs:258-286 | fails on a rate outside [−1, 1] or on derivative counts that differ from the layer count; otherwise every layer takes its step and the shapes are kept |
| Networks.TrainUndo | NeuralNetwork/NeuralNetwork/FeedForwardNetwork.cs:258-286 | a step with rate −rate after a step with rate restores the network |
| Networks.IncrementalTrain | NeuralNetwork/NeuralNetwork/FeedForwardNetwork.cs:234-248 | rejects a rate outside [−1, 1]; a result keeps the network's shape |
| Networks.IncrementalTrainSucceeds | NeuralNetwork/NeuralNetwork/FeedForwardNetwork.cs:234-248 | succeeds exactly when the rate is in range, the network has a layer, the forward pass accepts the input, and the expected output has the output's width |
| Networks.IncrementalTrainUpdate | NeuralNetwork/NeuralNetwork/FeedForwardNetwork.cs:234-248 | a successful incremental step is, in every layer, the gradient step along the back-propagated sensitivities of one forward pass |
| Networks.IncrementalTrainDefault | NeuralNetwork/NeuralNetwork/FeedForwardNetwork.cs:219-222 | the one-argument IncrementalTrain uses rate 0.1, which is in range, so it succeeds exactly when the network has a layer, the forward pass accepts the input and the expected output has the output width; a result keeps the shape |
| Networks.SquaredDeviations | NeuralNetwork/NeuralNetwork/FeedForwardNetwork.cs:427-436 | the sum of squared deviations is never negative, and is zero exactly when every expected value equals the mean |
| Networks.TotalSumOfSquares | NeuralNetwork/NeuralNetwork/FeedForwardNetwork.cs:404-439 | a network without layers is an index error; otherwise it fails exactly when some expected output has a length other than the last layer's rows; a result has one non-negative entry per output, zero exactly when every expected value equals that output's mean |
| Networks.SquareOfResiduals | NeuralNetwork/NeuralNetwork/FeedForwardNetwork.cs:447-461 | fails exactly on a length mismatch; otherwise each entry is (e − a)², never negative and zero exactly when e = a |
| Networks.R2PassesMeans | NeuralNetwork/NeuralNetwork/FeedForwardNetwork.cs:187-196 | for a positive total, an output passes exactly when its residual sum is at most (1 − minR²) times the total |
| Networks.ZeroResidualsPass | NeuralNetwork/NeuralNetwork/FeedForwardNetwork.cs:184-202 | a network without residuals passes the test for any threshold at most 1 |
| Networks.ResidualSums | NeuralNetwork/NeuralNetwork/FeedForwardNetwork.cs:150-182 | the residual sums over a training set have one entry per output, each non-negative |
| Networks.Accumulate | NeuralNetwork/NeuralNetwork/FeedForwardNetwork.cs:163-181 | the sums of layers before k are kept, and every later layer's sums are its accumulation with the point's derivatives |
| Networks.AddPoint | NeuralNetwork/NeuralNetwork/FeedForwardNetwork.cs:161-181 | the residual sums grow by exactly the point's squared residuals, and every layer keeps a sum slot |
| Networks.AccumulateLayer | NeuralNetwork/NeuralNetwork/FeedForwardNetwork.cs:163-181 | adds a point's derivatives to the layer's sums, allocating zero sums on first use; bias sums change only for layers with biases |
| Networks.SweepComputesResiduals | NeuralNetwork/NeuralNetwork/FeedForwardNetwork.cs:150-182 | the residual sums a pass adds up from zero are the network's residual sums over the training set |
| Networks.BatchLoop | NeuralNetwork/NeuralNetwork/FeedForwardNetwork.cs:146-208 | a result has the network's shape and passes the R² test for every output; from pass MAX_TRIES = 10⁶ on it fails |
| Networks.BatchLoopSteps | NeuralNetwork/NeuralNetwork/FeedForwardNetwork.cs:184-205 | a pass that leaves some output failing the test is followed by Train with rate divided by the number of points on the pass's sums, and the loop goes on from the next pass |
| Networks.PointStep | NeuralNetwork/NeuralNetwork/FeedForwardNetwork.cs:153-181 | one point's forward pass, back-propagation and accumulation keep one sum slot per layer and the residual width; its sums are stated by PointStepAccumulatesGradient |
| Networks.Sweep | NeuralNetwork/NeuralNetwork/FeedForwardNetwork.cs:149-182 | a pass over no points changes nothing; otherwise one sum slot per layer and the residual width are kept; its contents are stated by SweepAddsGradients and SweepComputesResiduals |
| Networks.PointGradients | NeuralNetwork/NeuralNetwork/FeedForwardNetwork.cs:153-158 | the gradients of the points at one network, in order: they exist exactly when every point's forward pass and back-propagation succeed, and entry i is point i's gradient |
| Networks.AccumulateAddsGradient | NeuralNetwork/NeuralNetwork/FeedForwardNetwork.cs:159-177 | adding one point's derivatives into sums that fit keeps them fitting, allocates every sum, and grows each entry by exactly the derivative's entry |
| Networks.PointStepAccumulatesGradient | NeuralNetwork/NeuralNetwork/FeedForwardNetwork.cs:153-181 | a point step that succeeds has a gradient at the current network, and its sums are that gradient added into the sums before |
| Networks.SumsAddLast | NeuralNetwork/NeuralNetwork/FeedForwardNetwork.cs:153-182 | sums over some gradients, then one gradient more, are the sums over all of them |
| Networks.SweepAddsGradients | NeuralNetwork/NeuralNetwork/FeedForwardNetwork.cs:149-182 | a successful pass means every point has a gradient at the current network; entry by entry the sums after it are the sums before plus all those gradients, and after a non-empty pass every sum is allocated |
| Networks.TrainLayerAlongSum | NeuralNetwork/NeuralNetwork/FeedForwardNetwork.cs:273-285 | a layer's update along an allocated sum that fits moves each weight (and each present bias) by −step times the summed derivative |
| Networks.TrainAlongSums | NeuralNetwork/NeuralNetwork/FeedForwardNetwork.cs:258-286 | Train along allocated sums that fit, with a rate in range, succeeds and moves every layer along its own sums |
| Networks.StepAfterPassIsCarried | NeuralNetwork/NeuralNetwork/FeedForwardNetwork.cs:141-204 | the step along the sums a pass leaves is the step along the starting sums plus the pass's gradients |
| Networks.PassStepsAlongSums | NeuralNetwork/NeuralNetwork/FeedForwardNetwork.cs:146-206 | a pass that fails the R² test is followed by one Train step along the starting sums plus every point's gradient at the current network, scaled by rate divided by the number of points, and then by the next pass |
| Networks.CarriedFromNothing | NeuralNetwork/NeuralNetwork/FeedForwardNetwork.cs:141-142 | a step carried from no sums is a plain batch gradient step |
| Networks.RestartedPassIsBatchGradientStep | NeuralNetwork/NeuralNetwork/FeedForwardNetwork.cs:146-206 | with the sums restarted, every pass that fails the R² test is one step of batch gradient descent: the sum over the set of each point's gradient at the current network, scaled by rate divided by the number of points |
| Networks.AsWrittenPassCarriesSums | NeuralNetwork/NeuralNetwork/FeedForwardNetwork.cs:141-206 | as written, every pass that fails the R² test steps along the sums of all earlier passes plus the current gradients |
| Networks.BatchTrainDefault | NeuralNetwork/NeuralNetwork/FeedForwardNetwork.cs:110-113 | the one-argument BatchTrain uses R² threshold 0.9 and rate 0.1, which pass the argument checks: the loop starts at once on the total sums of squares, and a result keeps the shape and passes the test at 0.9; the loop is the corrected one that restarts its sums each pass (see Left out) |
| Networks.BatchTrainRestarted | NeuralNetwork/NeuralNetwork/FeedForwardNetwork.cs:128-210 | rejects minR² outside (0, 1] and rates outside [−1, 1]; a result keeps the shape and passes the R² test on every output (sums restarted each pass) |
| Networks.BatchTrainAsWritten | NeuralNetwork/NeuralNetwork/FeedForwardNetwork.cs:128-210 | the same argument checks and guarantee, with the derivative sums carried over from pass to pass |
| Networks.RestartedPassesIgnoreHistory | NeuralNetwork/NeuralNetwork/FeedForwardNetwork.cs:141-206 | with the sums restarted, a pass does not depend on the sums a previous pass left |
| Networks.MutateNetwork | NeuralNetwork/NeuralNetwork/FeedForwardNetwork.cs:339-345 | fails exactly when there is a layer and the bounds or deviation are invalid; otherwise every layer mutates with its own draws and the shape is kept |
| Networks.MutateLayers | NeuralNetwork/NeuralNetwork/FeedForwardNetwork.cs:339-345 | fails exactly when there is a layer and the arguments are invalid; otherwise layer i mutates with draw i |
| Networks.MutateKeepsWellFormed | NeuralNetwork/NeuralNetwork/FeedForwardNetwork.cs:339-345 | mutation keeps a network well formed |
| Networks.SameShapeKeepsWellFormed | NeuralNetwork/NeuralNetwork/FeedForwardNetwork.cs:258-345 | a network with a well-formed network's layer shapes is well formed, which is why training and mutation keep it so |
| Networks.DefaultMutateSucceeds | NeuralNetwork/NeuralNetwork/FeedForwardNetwork.cs:328-331 | the argument-free Mutate, with bounds [−1, 1] and deviation 0.1, never fails |
| BatchExample.FirstPassFromZero | NeuralNetwork/NeuralNetwork/FeedForwardNetwork.cs:148-205 | for y = w·x at w = 0 on the point 1 ↦ 1, the first pass sums the derivative −2 and the step moves w to 0.2 |
| BatchExample.OneWeightGradient | NeuralNetwork/NeuralNetwork/FeedForwardNetwork.cs:357-397 | for y = w·x on the point 1 ↦ 1, back-propagation gives the weight derivative −2(1 − w) and no bias derivative |
| BatchExample.AsWrittenSecondPassOvershoots | NeuralNetwork/NeuralNetwork/FeedForwardNetwork.cs:141-205 | with the sums carried over, the second pass sums −3.6 and moves w to 0.56 |
| BatchExample.RestartedSecondPassFollowsGradient | NeuralNetwork/NeuralNetwork/FeedForwardNetwork.cs:148-205 | with the sums restarted, the second pass sums the current derivative −1.6 and moves w to 0.36 |
| BatchExample.UnitLoopStep | NeuralNetwork/NeuralNetwork/FeedForwardNetwork.cs:146-205 | for y = w·x with w ≠ 1 on the point 1 ↦ 1, one turn of the loop fails the R² test, sums the starting sum plus −2(1 − w), and moves w by −0.1 times that sum |
| BatchExample.FirstLoopStep | NeuralNetwork/NeuralNetwork/FeedForwardNetwork.cs:146-205 | from w = 0, either variant's first turn of the loop moves w to 0.2 with the sum −2 |
| BatchExample.AsWrittenSecondLoopStep | NeuralNetwork/NeuralNetwork/FeedForwardNetwork.cs:141-205 | as written, the second turn adds −1.6 onto the carried −2 and moves w by the sum −3.6 to 0.56 |
| BatchExample.RestartedSecondLoopStep | NeuralNetwork/NeuralNetwork/FeedForwardNetwork.cs:146-205 | with the sums restarted, the second turn sums −1.6 alone and moves w to 0.36 |
| BatchExample.AsWrittenTwoPasses | NeuralNetwork/NeuralNetwork/FeedForwardNetwork.cs:128-205 | the original BatchTrain from w = 0 with rate 0.1 reaches w = 0.56 with carried sum −3.6 after two passes |
| BatchExample.RestartedTwoPasses | NeuralNetwork/NeuralNetwork/FeedForwardNetwork.cs:128-205 | the restarted BatchTrain from w = 0 with rate 0.1 reaches w = 0.36 after two passes, the second sum being the current gradient −1.6 |
| Paths.Advance | Assets/Scripts/PlayerStone.cs:232-256 | off the board the next tile is the starting tile; a tile without successors ends the walk; at a fork the player's branch is taken and a missing branch is an index error; otherwise the sole successor; the successor taken may itself be null |
| Paths.Walk | Assets/Scripts/PlayerStone.cs:229-261 | the tiles n moves pass over: n entries, each naming a tile of the board or null; only a fork can fail |
| Paths.TilesAhead | Assets/Scripts/PlayerStone.cs:220-229 | null for a zero move, an allocation failure for a negative one, and otherwise an array of exactly n entries |
| Paths.GetTilesAhead | Assets/Scripts/PlayerStone.cs:220-262 | the original loop, with its early break, fills the array exactly as the step-by-step walk defines |
| Paths.TileAhead | Assets/Scripts/PlayerStone.cs:265-277 | the current tile for a zero move, otherwise the last tile of the walk, possibly null |
| Paths.WalkPrefix | Assets/Scripts/PlayerStone.cs:229-261 | the tiles k moves pass over are the first k of those any longer move passes over |
| Paths.TileAheadInWalk | Assets/Scripts/PlayerStone.cs:265-277 | the tile k moves ahead is entry k − 1 of the tiles a longer move passes over |
| Paths.CanLegallyMoveTo | Assets/Scripts/PlayerStone.cs:286-325 | false for null, true for an empty tile, false for one's own stone, false for an enemy on a roll-again tile, true otherwise |
| Paths.CanLegallyMoveAhead | Assets/Scripts/PlayerStone.cs:279-284 | the legality of the tile n moves ahead, with the look-ahead's failure passed on |
| Paths.FirstStepFromOffBoard | Assets/Scripts/PlayerStone.cs:234-237 | from off the board, the first entry of the walk is the starting tile |
| Paths.WalkFromOffBoardWithoutStart | Assets/Scripts/PlayerStone.cs:234-246 | a stone off the board without a starting tile passes over only nulls |
| Paths.WalkSucceeds | Assets/Scripts/PlayerStone.cs:247-251 | when every fork has a branch for the player, no walk fails |
| Paths.WalkFollowsSuccessors | Assets/Scripts/PlayerStone.cs:232-258 | each non-null entry after the first is one step on from the entry before it |
| Paths.NullsFormSuffix | Assets/Scripts/PlayerStone.cs:240-246 | on a board where no successor array holds a null, once an entry is null, every later entry is null |
| Paths.WalkFrom | Assets/Scripts/PlayerStone.cs:229-261 | the entries after a non-null entry are exactly the walk from that tile over the remaining moves |
| Paths.NullSuccessorRestarts | Assets/Scripts/PlayerStone.cs:232-256 | when the successor taken is null, the next entry is null and the one after it is the starting tile again |
| Paths.DeadEndStopsWalk | Assets/Scripts/PlayerStone.cs:240-246 | after a tile with no successors, every remaining entry is null |
| Paths.WalkExtends | Assets/Scripts/PlayerStone.cs:232-258 | a walk one move longer is the shorter walk plus the step from its last tile |
| Paths.TileAheadSteps | Assets/Scripts/PlayerStone.cs:265-277 | the tile n + 1 moves ahead is one step on from the tile n moves ahead |
| Paths.NoMoveOntoOwnTile | Assets/Scripts/PlayerStone.cs:309-313 | on a consistent board a stone may never land on the tile it stands on |
| Turns.InitialState | Assets/Scripts/StateManager.cs:14-22 | two players, player 0 to move, no flag set |
| Turns.CsRem | Assets/Scripts/StateManager.cs:35 | C#'s remainder: its magnitude is the remainder of the magnitudes and it takes the dividend's sign |
| Turns.NewTurn | Assets/Scripts/StateManager.cs:26-36 | clears the three flags and passes the turn to C#'s remainder of id + 1 by the player count; zero players divide by zero |
| Turns.RollAgain | Assets/Scripts/StateManager.cs:38-44 | clears the three flags and keeps the player, the player count and the dice total |
| Turns.Update | Assets/Scripts/StateManager.cs:47-56 | starts a new turn exactly when all three flags are set, and otherwise leaves the state unchanged |
| Turns.HasLegalMove | Assets/Scripts/StateManager.cs:69-82 | true only when some stone of the player can move the roll; false only when none can; it fails exactly when the look-ahead of some stone of the player fails, even if another stone could move, and with that stone's error |
| Turns.CheckLegalMoves | Assets/Scripts/StateManager.cs:59-103 | a zero roll, or a roll that no stone of the current player can use, ends in NewTurn; otherwise the state is unchanged |
| Turns.NextPlayerInRange | Assets/Scripts/StateManager.cs:35 | with a positive player count a valid id stays valid, moving to the next id and wrapping to 0 |
| Turns.TurnOrderCycles | Assets/Scripts/StateManager.cs:26-36 | after as many turn changes as there are players, the same player moves again |
| Turns.TwoPlayersAlternate | Assets/Scripts/StateManager.cs:14-35 | with two players the turn alternates between 0 and 1 |
| Turns.NegativeIdIsNotWrapped | Assets/Scripts/StateManager.cs:35 | with two players, id −3 moves to 0 and id −4 to −1: the remainder does not wrap negative ids into range |
| Turns.RollAgainKeepsPlayer | Assets/Scripts/StateManager.cs:38-56 | after a roll-again the same player moves and Update leaves the state alone |
| Turns.UpdateIdempotent | Assets/Scripts/StateManager.cs:47-56 | a state that Update has settled does not change under a second Update |
| Moves.Bop | Assets/Scripts/PlayerStone.cs:193-199 | an empty destination changes nothing; otherwise the occupant's tile is emptied and the occupant loses its position, nothing else changes, and an occupant without a position is a null dereference |
| Moves.OnMouseUp | Assets/Scripts/PlayerStone.cs:142-217 | a click is ignored unless it is the stone's player's turn, the dice are rolled, no move is made yet and the roll is not zero; an accepted move marks the click done and keeps the board well formed |
| Moves.MoveStone | Assets/Scripts/PlayerStone.cs:193-214 | fails exactly when the bop does; otherwise the destination holds the stone and the stone stands on the destination |
| Moves.ScoringDereferencesNull | Assets/Scripts/PlayerStone.cs:177-211 | a move that runs past the end of the path fails on the null final tile |
| Moves.IllegalClickChangesNothing | Assets/Scripts/PlayerStone.cs:184-190 | an illegal destination leaves the turn and the board as they were |
| Moves.MoveStoneEffect | Assets/Scripts/PlayerStone.cs:193-214 | on a consistent board: the tile left is empty, the stone landed on is off the board, and no other tile or stone changes |
| Moves.MoveStoneKeepsConsistent | Assets/Scripts/PlayerStone.cs:193-214 | a move keeps tile occupancy and stone positions in agreement |
| Moves.MoveEffect | Assets/Scripts/PlayerStone.cs:142-217 | an accepted click with a legal destination makes that move, marks the click done, keeps the board consistent, and only knocks off an enemy |
| Dice.Initial | Assets/Scripts/DiceRoller.cs:9-12 | four dice, not yet rolled |
| Dice.RollTheDice | Assets/Scripts/DiceRoller.cs:32-69 | the drawn values replace the dice and the total is their sum; the roll counts as done when it already was or at least one die was drawn |
| Dice.NewTurn | Assets/Scripts/DiceRoller.cs:26-30 | the roll is no longer done; the dice and the total are kept |
| Dice.TotalInRange | Assets/Scripts/DiceRoller.cs:42-47 | dice showing 0 or 1 total between 0 and the number of dice |
| Dice.RollMovesAtMostFour | Assets/Scripts/DiceRoller.cs:10-47 | a roll of the four dice totals 0 to 4 |
| Ai.DoAI | Assets/Scripts/AIPlayer.cs:13-31 | rolls exactly when not yet rolled, clicks exactly when rolled but not clicked, and otherwise waits |
| Ai.LegalAmong | Assets/Scripts/AIPlayer.cs:83-92 | a stone is listed exactly when it is among those scanned, belongs to the player and can legally move the roll; the scan fails exactly when the look-ahead of some stone of the player fails, with that stone's error |
| Ai.GetLegalMoves | Assets/Scripts/AIPlayer.cs:69-95 | nothing for a zero roll; otherwise it fails exactly when the look-ahead of one of the current player's stones fails, and else lists exactly the current player's stones that can legally move the roll |
| Ai.LegalMovesInScanOrder | Assets/Scripts/AIPlayer.cs:81-94 | the legal stones are listed in scan order |
| Ai.LegalMoveScansAgree | Assets/Scripts/AIPlayer.cs:83-94 | CheckLegalMoves' scan finds a move exactly when the AI's list is non-empty, and the two scans fail alike |
| Ai.PickStoneToMove | Assets/Scripts/AIPlayer.cs:60-63 | the pick is an element of the legal list |
| Ai.DoClick | Assets/Scripts/AIPlayer.cs:39-57 | nothing is clicked exactly when no stone is legal; a clicked stone is the current player's and can legally move |
| UtilityAi.RemainingWeight | Assets/Scripts/AIPlayer_UtilityAI.cs:60-86 | the most one enemy can still add to a tile from a given distance on is never negative |
| UtilityAi.OneEnemyAddsAtMost | Assets/Scripts/AIPlayer_UtilityAI.cs:60-86 | over distances 1 to 4 one enemy adds at most 0.2 + 0.3 + 0.2 + 0.2 = 0.9 to any tile |
| UtilityAi.AddStoneDanger | Assets/Scripts/AIPlayer_UtilityAI.cs:60-86 | an enemy's scan never lowers a danger value, raises none by more than the remaining weights, and leaves safe tiles untouched |
| UtilityAi.DangerFrom | Assets/Scripts/AIPlayer_UtilityAI.cs:41-87 | starting from zero on every tile, every danger value is non-negative and scoring, sideline and roll-again tiles stay at zero |
| UtilityAi.CalcTileDanger | Assets/Scripts/AIPlayer_UtilityAI.cs:39-88 | one non-negative value per tile, zero on every safe tile |
| UtilityAi.ReachedWeight | Assets/Scripts/AIPlayer_UtilityAI.cs:60-86 | the reference weight one enemy gives a tile: the sum of DangerWeight(k) over the distances k at which its look-ahead, still unbroken by a null, lands on the tile; never negative |
| UtilityAi.NullEndsReach | Assets/Scripts/AIPlayer_UtilityAI.cs:64-68 | past a null look-ahead no distance reaches any tile |
| UtilityAi.UnreachedWeighsNothing | Assets/Scripts/AIPlayer_UtilityAI.cs:60-86 | a tile no distance reaches gets no weight |
| UtilityAi.AddStoneDangerIsReachedWeight | Assets/Scripts/AIPlayer_UtilityAI.cs:60-86 | from any distance on, after non-null look-aheads, the scan succeeds and adds to each unsafe tile exactly its reference weight, leaving safe tiles alone |
| UtilityAi.StoneDangerIsReachedWeight | Assets/Scripts/AIPlayer_UtilityAI.cs:60-86 | when the four tiles ahead can be computed, one enemy's scan adds to each unsafe tile 0.2 for each of distances 1, 3 and 4 and 0.3 for distance 2 at which it lands there before the first null, and leaves safe and unreached tiles unchanged |
| UtilityAi.LookAheadWeight | Assets/Scripts/AIPlayer_UtilityAI.cs:60-86 | the weight one stone's look-ahead gives a tile, never negative |
| UtilityAi.EnemyWeight | Assets/Scripts/AIPlayer_UtilityAI.cs:53-86 | the reference danger of a tile: the sum over the enemy stones of their look-ahead weights, never negative |
| UtilityAi.DangerFromIsEnemyWeight | Assets/Scripts/AIPlayer_UtilityAI.cs:41-87 | when every enemy can look ahead, the danger of each unsafe tile is the sum of the enemies' weights and each safe tile has none |
| UtilityAi.CalcTileDangerIsEnemyWeight | Assets/Scripts/AIPlayer_UtilityAI.cs:39-88 | the danger map is, tile by tile, zero on safe tiles and the reference sum over every enemy stone elsewhere |
| UtilityAi.Enemies | Assets/Scripts/AIPlayer_UtilityAI.cs:53-56 | exactly the stones of other players, in order |
| UtilityAi.OwnStonesIgnored | Assets/Scripts/AIPlayer_UtilityAI.cs:53-56 | the danger map is the one the enemy stones alone produce |
| UtilityAi.GetStoneGoodness | Assets/Scripts/AIPlayer_UtilityAI.cs:90-135 | a null future tile is dereferenced; otherwise the score minus the danger change lies between −0.1 and 1.7, and is at least 0.2 for a stone entering the board |
| UtilityAi.PlainMoveScoresDangerChange | Assets/Scripts/AIPlayer_UtilityAI.cs:90-135 | a move from a tile that is not a live roll-again tile onto an empty tile with no roll-again or scoring mark scores exactly the danger left behind minus the danger at the destination, so 0 when both are 0 |
| UtilityAi.BopWorthHalf | Assets/Scripts/AIPlayer_UtilityAI.cs:112-116 | landing on an enemy scores exactly 0.5 more than landing on the same tile empty |
| UtilityAi.EnteringWorthFifth | Assets/Scripts/AIPlayer_UtilityAI.cs:94-98 | entering the board scores 0.2 more than leaving a tile with no danger and no roll-again penalty |
| UtilityAi.LeavingRollAgainCostsTenth | Assets/Scripts/AIPlayer_UtilityAI.cs:100-105 | leaving a roll-again tile off the sidelines scores 0.1 less than leaving the same tile unmarked; on a sideline the mark makes no difference |
| UtilityAi.RollAgainLandingWorthHalf | Assets/Scripts/AIPlayer_UtilityAI.cs:107-110 | landing on a roll-again tile scores 0.5 more than landing on it unmarked |
| UtilityAi.ScoringWorthHalf | Assets/Scripts/AIPlayer_UtilityAI.cs:118-121 | landing on the scoring space scores 0.5 more than landing on it unmarked |
| UtilityAi.SaferDestinationScoresHigher | Assets/Scripts/AIPlayer_UtilityAI.cs:123-129 | with the danger of the current tile unchanged, the score rises by exactly the drop in the destination's danger, so less danger there never lowers it |
| UtilityAi.DangerLeftBehindCounts | Assets/Scripts/AIPlayer_UtilityAI.cs:123-129 | with the destination's danger unchanged, the score moves by exactly the change in the danger of the tile left behind |
| UtilityAi.DangerChangeWeighsOne | Assets/Scripts/AIPlayer_UtilityAI.cs:123-129 | for any two danger maps the scores differ by exactly the change in the danger left behind minus the change in the danger moved into |
| UtilityAi.Scores | Assets/Scripts/AIPlayer_UtilityAI.cs:25-33 | one score per candidate, each its goodness, failing exactly when some candidate's future tile is null |
| UtilityAi.FirstMaxFrom | Assets/Scripts/AIPlayer_UtilityAI.cs:22-33 | the scan that replaces the best only on a strictly greater score ends at a maximal score with every earlier score smaller |
| UtilityAi.FirstMax | Assets/Scripts/AIPlayer_UtilityAI.cs:22-33 | the position of the first maximal score |
| UtilityAi.FirstBestUnique | Assets/Scripts/AIPlayer_UtilityAI.cs:28 | only one position is maximal with every earlier score smaller |
| UtilityAi.PickStoneToMove | Assets/Scripts/AIPlayer_UtilityAI.cs:8-37 | no stone for no candidates; otherwise the first candidate with a maximal score under the first candidate's danger map; it fails when some future tile is null or the danger map fails, and otherwise always picks a stone |
| UtilityAi.TiesGoToFirst | Assets/Scripts/AIPlayer_UtilityAI.cs:28 | among equal scores the first candidate wins |
| Storage.Remove | Assets/Scripts/StoneStorage.cs:52 | re-parenting takes the stone off its old placeholder and keeps every other stone |
| Storage.Detach | Assets/Scripts/StoneStorage.cs:52 | every placeholder loses the stone and keeps the rest |
| Storage.FirstEmpty | Assets/Scripts/StoneStorage.cs:30-42 | the lowest-index empty placeholder, with every earlier one taken; none when all are taken |
| Storage.AddStoneToStorage | Assets/Scripts/StoneStorage.cs:28-56 | the stone ends on the given placeholder, or else on the first empty one, and on no other; other stones stay where they were; with no empty placeholder nothing changes |
| Storage.LeaveStorage | Assets/Scripts/PlayerStone.cs:202 | a moving stone leaves every placeholder and the other stones stay |
| Storage.LeaveThenReturn | Assets/Scripts/StoneStorage.cs:28-56 | a stone that leaves its placeholder and is knocked back returns to it when every earlier placeholder is still taken, restoring the storage |
| Storage.NewStone | Assets/Scripts/StoneStorage.cs:15-17 | a new stone enters on the storage's starting tile, is off the board and belongs to the storage |
| Storage.Start | Assets/Scripts/StoneStorage.cs:8-22 | one new stone per placeholder, stone i on placeholder i and on no other; stones not created stay where they were |
| Storage.StartFromEmpty | Assets/Scripts/StoneStorage.cs:8-22 | from empty placeholders, each placeholder ends holding exactly its own new stone |

## Left out

- ZScore, the Gaussian sampler: it is floating-point numerics and `System.Random`, so every draw is an input (`Sampler`).
- Save and Load: file I/O through BinaryFormatter.
- Floating point in general: doubles are exact reals, and NaN and infinity appear only where the R² test meets a zero total (`Networks.R2Passes`).
- The numeric expectations after IncrementalTrain and the AND-gate convergence test: they depend on `Math.Exp` and rounding. `Math.Exp` is a parameter whose only assumed property is positivity.
- `Math.Round` in MutateMatrix: its result is discarded, so it has no effect.
- Networks.Train: a failure part-way through the layers leaves the earlier layers updated in the original; the model returns only the error. Derivatives from back-propagation always fit, so this case cannot arise from IncrementalTrain or BatchTrain.
- Networks.Mean: the mean of an empty training set is 0/0 in the original; the model takes 0, and the empty set passes the test on the first pass without using the mean.
- Networks.BatchTrainDefault: runs the corrected loop, which restarts the gradient sums every pass, while the original one-argument BatchTrain calls the three-argument loop that carries them over (see ## Findings); the as-written behaviour with the default constants is `Networks.BatchTrainAsWritten(net, points, DefaultMinRSquare, DefaultLearningRate, exp)`, so the default entry point's carried-sum training is not what this member promises.
- Networks.BatchLoop: when the 10⁶-th pass still fails the R² test, the original throws after Train has already updated the caller's network in place on every failing pass; the model returns only `Err(ConvergenceFailure)`, so that partly trained network is not promised. The bound is the pass counter in its `decreases` clause, not fuel.
- UtilityAi.GetStoneGoodness: its own contract only bounds the score around the danger change; the exact terms are stated by partner lemmas: EnteringWorthFifth, LeavingRollAgainCostsTenth, RollAgainLandingWorthHalf, BopWorthHalf and ScoringWorthHalf for the flags, DangerChangeWeighsOne, DangerLeftBehindCounts and SaferDestinationScoresHigher for the danger terms with weight one.
- Unity animation, rendering and UI: PlayerStone.Update, AdvanceMoveQueue and SetNewTargetPosition, the transform handling of ReturnToStorage, the camera and display scripts, and the dice sprites.
- The one-second coroutine delay in CheckLegalMoves: the model calls NewTurn immediately.
- Turns.NewTurn: with zero players the original clears the three flags before the remainder throws; the model returns only the error, so the cleared flags are not promised on that path.
- Turns.CsRem: integers are unbounded, so C#'s 32-bit behaviour is not modelled: `CurrentPlayerId + 1` wrapping at `int.MaxValue`, and `int.MinValue % -1` throwing an overflow exception. The dice total and move lengths handed to Paths.TilesAhead are unbounded for the same reason; in play they stay between 0 and 4.
- Moves.OnMouseUp: in the scoring case the original empties the stone's old tile before dereferencing the null final tile; the model returns only the error.
- Object discovery: `FindObjectsOfType` becomes the game's stones in index order.
- `Random.Range`: the dice values and the AI's random index are inputs.
- UtilityAi.PickStoneToMove: each candidate's current tile and its tile ahead are inputs, because the `CurrentTile` and no-argument `GetTileAhead()` it calls are not part of the model. A null `legalStones` array has no counterpart: a sequence is never null.
- `MoveMe()`, which the base AI calls on the picked stone, is not part of the model.
- Storage: a placeholder Transform becomes an index into this storage's placeholders, and only this storage's placeholders are tracked when a stone is re-parented. The stone prefab's player id becomes a parameter.

## Findings

| source | as written | input that shows it | evidently intended | confidence | as-written member | corrected member |
|---|---|---|---|---|---|---|
| NeuralNetwork/NeuralNetwork/FeedForwardNetwork.cs:141-206 | the weight and bias derivative sums are allocated once, before the training loop, and never reset, so each pass's Train step uses the sum of all derivatives so far | network y = w·x with w = 0, training set {1 ↦ 1}, rate 0.1: the second pass steps with the sum −3.6 instead of the current derivative −1.6, so w goes 0.2 → 0.56 rather than 0.36 | each pass steps along that pass's summed gradient, with the sums restarted at every pass | medium; not executed | Networks.BatchTrainAsWritten, Networks.AsWrittenPassCarriesSums, BatchExample.AsWrittenTwoPasses | Networks.BatchTrainRestarted, Networks.RestartedPassIsBatchGradientStep, BatchExample.RestartedTwoPasses |
