# RELU AI Bridge: a verified model

The RELU AI Bridge connects AI clients to analysis viewers. This project models three of its cores and
proves what they promise.

* **Time alignment** (`Series`, `DtwModel`, `DtwEngine`, `Dtw`, `Simplify`, `TimeMapping`, `Pipeline`).
  Two recorded signals are sampled, warped onto each other by a banded, open-ended dynamic time warping,
  and the warping path becomes a simplified piecewise-linear time mapping with an inverse. The table
  equals the minimum over all admissible paths, the traceback attains it, and the error bound of the
  simplification carries through to the interpolator.
* **The embedded .NET host.** `Decimal*`, `JsonTree`, `OrdinalOrder`, `Canonical*`, `ContextBinding` and
  `JsonSchema` are the algebra of JSON numbers, semantic equality, canonical text and schemas.
  `ContextHost` (with `ContextBridge`), `HandlerSlots`, `StdioSession` (with `StdioRequests`) and
  `LineReader` are its protocols: state machines over steps between awaits, which any number of
  operations take in any order.
* **The JavaScript brokers.** `WebConnector` is the connector's authentication and reconnect machine,
  `AgentState` and `AgentBroker` the transactional worker and command broker across failed writes and
  restarts.

Where the source changes state in place, a class with the source's fields or a method with its loop is
proved against a function, and lemmas about that function state what is promised. In the protocol
modules a `State` and a `Step` function describe the interleavings; each method of the class is one
step, or a stretch of steps with no other in between. Theorems quantify over every sequence of steps; a
step that is not possible changes nothing.

Six behaviours of the code are exceptions to what a reader would expect. They are modelled as the code
has them, with the exact condition: zero orders above the fractions below one (`ZeroAboveOneHalf`,
`BoundsAreNumericExcept`), a throwing context update is not announced
(`ThrowingUpdateHiddenIffGuarded`), an unterminated over-long line can be dropped (`ChunksDecide`), a
start that overtakes a connect leaves two in flight (`StartOutOfTurn`, `RestartWhileConnecting`), a
restart with private payloads drops pending commands (`DroppedByPrivateRestart`,
`PrivateRestartDropsPending`), and registering a worker ignores the limit (`RegisteringIgnoresLimit`).

`dafny verify dfyconfig.toml` checks the whole project.

## Model

| member | source | states |
|---|---|---|
| Series.LowerBound | alignment/series.mjs:117-126 | the result is the first index whose value is not below the target: everything before it is smaller |
| Series.InterpolateVectorAt | alignment/series.mjs:128-142 | the vector lies, in every dimension, on the series taken as a polyline that is constant beyond its ends |
| Series.SampleSeriesRange | alignment/series.mjs:144-179 | fails exactly outside the range; otherwise the samples are interpolations on an increasing grid that starts and ends at the range, as many as the originals in range plus missing ends, cut to the maximum |
| Series.ResampledOnce | alignment/series.mjs:161-170 | a range, a number of samples and a series have one sampling |
| Series.GridIsIncreasing | alignment/series.mjs:165-168 | the sample times are strictly increasing and hit both ends exactly, which DTW relies on |
| Series.GridIsUniform | alignment/series.mjs:161-170 | neighbouring sample times are equally far apart |
| DtwEngine.BuildBands | alignment/dtw.mjs:78-87 | every row has a non-empty band inside the samples, the bands' starts and ends never decrease, and the cell count is their total width |
| DtwEngine.NearestIndex | alignment/dtw.mjs:10-20 | the index is the first of the closest timestamps |
| DtwEngine.MeasureDistance | alignment/dtw.mjs:22-29 | the loop computes the local distance that the next three rows pin down |
| DtwModel.DistanceOfOne | alignment/dtw.mjs:22-29 | in one dimension the local distance is the square of the difference, and 64 beyond a difference of 8 |
| DtwModel.DistanceAdds | alignment/dtw.mjs:22-29 | over more dimensions it is the mean: weighted by the number of dimensions it adds up |
| DtwModel.DistanceLaws | alignment/dtw.mjs:22-29 | it is never negative, symmetric, and zero exactly between equal vectors |
| DtwModel.LocalSumLaws | alignment/dtw.mjs:194-195 | the local costs of a path are never negative, and add up to zero exactly if every cell pairs equal vectors |
| DtwModel.EndpointPrices | alignment/dtw.mjs:114-147 | an end k columns from the expected one, on either side, costs k shares of the endpoint penalty |
| DtwModel.TiesAreBroken | alignment/dtw.mjs:123-132 | the diagonal wins every tie, and the move from the row above wins against the one within the row |
| DtwEngine.BandIsTube | alignment/dtw.mjs:77-84 | a column is in the band of a row exactly if it lies less than one column beyond the radius from the straight line over the expected span |
| DtwEngine.CellCountIsExact | alignment/dtw.mjs:79-87 | the cell count is the number of cells in the band |
| DtwEngine.BoundaryHitsAreExact | alignment/dtw.mjs:196-197 | the boundary hits are the cells of the path on either edge of their row's band |
| DtwEngine.FillCell | alignment/dtw.mjs:110-135 | the cell gets the value and the direction of the recurrence, ties included, from the row above and the cell to the left |
| DtwEngine.FillTable | alignment/dtw.mjs:99-139 | rolling one row forward leaves the last row equal to the recurrence and every row of directions equal to its choices |
| DtwEngine.SelectEnd | alignment/dtw.mjs:141-150 | the end is the first cheapest reachable column, and the cost is infinite exactly when none can be reached |
| DtwEngine.TraceBack | alignment/dtw.mjs:155-183 | the loop returns exactly the trace of the recorded directions, so its three defensive throws are unreachable |
| DtwEngine.PathStatistics | alignment/dtw.mjs:188-206 | the counted steps, boundary hits and local costs account for the whole path: rows, columns and length |
| DtwModel.BestIsLowerBound | alignment/dtw.mjs:110-135 | no open path through the band to a cell costs less than the value of the recurrence |
| DtwModel.TraceRealisesBest | alignment/dtw.mjs:155-183 | the path the directions lead back along is open, ends in the cell, costs exactly the value of the recurrence and is no longer than row plus column allow |
| DtwModel.BestEndIsOptimal | alignment/dtw.mjs:99-183 | the traced path from the best end is admissible and costs the minimum over all admissible paths |
| DtwModel.PathExistsIffNoGap | alignment/dtw.mjs:141-153 | an admissible path exists, and some end cost is finite, exactly when no row starts more than one column past the end of the row above |
| Dtw.Solve | alignment/dtw.mjs:99-206 | the solution is optimal with its counts accounted for, and DTW_FAILED is raised exactly when a row starts beyond the reach of the row above |
| Dtw.CountsExplainCost | alignment/dtw.mjs:188-224 | the reported counts and the local total add up to the cost that was minimised |
| Dtw.PathIsTimed | alignment/dtw.mjs:163-168 | the path's times never run backwards on either axis and cover the reference from its first to its last sample |
| Dtw.ConstrainedDtw | alignment/dtw.mjs:36-227 | the early refusals in the program's order; after them LIMIT_EXCEEDED exactly if the posed problem has more band cells than the limit, DTW_FAILED exactly if it has not and its band has a gap, and otherwise the optimum: every returned point is a cell of an optimal, accounted path with the times of its two samples |
| Dtw.AlignsWithItself | alignment/dtw.mjs:36-227 | aligning a series with itself over its whole range never fails with DTW_FAILED |
| Dtw.AlignmentWithItselfIsFree | alignment/dtw.mjs:36-227 | it has normalized cost zero, and with a penalty on bends it pairs every sample with itself |
| Dtw.PaddedRangeIs | alignment/dtw.mjs:67-69 | the sampled DUT range is all of the padded candidate that the DUT covers |
| Dtw.BandRadiusIs | alignment/dtw.mjs:75-76 | the radius is the smallest one of at least 3 that covers its share of the expected span |
| Dtw.PosesOnce | alignment/dtw.mjs:58-87 | a call poses exactly one problem: the arguments determine both samplings, the expected indices and the band |
| Simplify.FindFarthest | alignment/mapping.mjs:20-28 | the inner loop finds the first point farthest from the chord |
| Simplify.DroppedIsClose | alignment/mapping.mjs:12-35 | every point the recursion drops lies within the tolerance of the chord between its two kept neighbours |
| Simplify.KeptIsNeeded | alignment/mapping.mjs:12-35 | every point the recursion keeps was farther than the tolerance from a chord of points that it keeps too |
| Simplify.SimplifyRdp | alignment/mapping.mjs:12-35 | the explicit stack terminates and keeps exactly the points of the recursive definition; both ends stay and every point is within the tolerance of a kept chord |
| Simplify.ReducedOnce | alignment/mapping.mjs:12-35 | points and a tolerance have one simplification |
| Simplify.CapPoints | alignment/mapping.mjs:37-44 | at most the maximum is selected, in strictly increasing order, both ends included |
| Simplify.CapIndexIsNearest | alignment/mapping.mjs:37-44 | every selected index is the integer nearest to its even share |
| TimeMapping.Collapse | alignment/mapping.mjs:66-80 | every run of equal REF times becomes the plain mean of its DUT times; the running maximum changes nothing |
| TimeMapping.RunMeansShape | alignment/mapping.mjs:66-80 | collapsed inputs increase strictly and collapsed outputs never decrease |
| TimeMapping.MeanBalances | alignment/mapping.mjs:66-80 | the mean of a run, taken once for each of its points, makes up for the means of its parts; the mean of one is itself |
| TimeMapping.CheckPoints | alignment/mapping.mjs:104-124 | accepts exactly the points that increase strictly in REF and never decrease in DUT |
| TimeMapping.AverageRuns | alignment/mapping.mjs:126-140 | the inverse's knots are the means over runs of equal DUT time |
| TimeMapping.InterpolatePoints | alignment/mapping.mjs:143-173 | the binary search and its two end formulas compute one piecewise-linear function with the chosen extrapolation |
| TimeMapping.OutsideForwards | alignment/mapping.mjs:147-159 | outside the range: the error, the nearer end, or the line of the nearer segment |
| TimeMapping.RefToDutRises | alignment/mapping.mjs:143-184 | mapping forwards is monotone on the whole line under clamp and linear extrapolation |
| TimeMapping.DutToRefRises | alignment/mapping.mjs:126-140 | mapping backwards is monotone whenever two DUT times differ |
| TimeMapping.InverseUndoes | alignment/mapping.mjs:181-189 | without plateaus the inverse undoes the mapping, on its range and by linear extrapolation everywhere |
| TimeMapping.ForwardAfterInverse | alignment/mapping.mjs:126-189 | with plateaus, forward after inverse is still exact at the DUT time of every mapping point |
| TimeMapping.MapRefToDut | alignment/mapping.mjs:175-184 | validation and interpolation together compute the forward function or its error |
| TimeMapping.MapDutToRef | alignment/mapping.mjs:175-189 | validation, averaging and interpolation together compute the inverse function or its error |
| Pipeline.CollapsedShape | alignment/mapping.mjs:66-81 | a path that steps forward collapses to strictly increasing REF and monotone DUT, with both REF ends; to two points or more exactly when its REF times differ |
| Pipeline.SimplifiedReadsBack | alignment/mapping.mjs:12-35 | an uncapped simplification reads every collapsed point back to within the tolerance, through the interpolator |
| Pipeline.DefaultToleranceIs | alignment/mapping.mjs:84 | the default tolerance is a thousandth of the DUT range, or 32 times 2 to the power -52 if that is more |
| Pipeline.BuildTimeMapping | alignment/mapping.mjs:46-102 | both errors exactly when the code raises them; otherwise the points are the simplification of the collapsed path, cut to evenly spread ones and flagged as capped exactly if they are more than the maximum; both ends stay, and unless capped every collapsed point is read back within the tolerance |
| Pipeline.BuiltOnce | alignment/mapping.mjs:46-102 | a path, a maximum and a tolerance have one mapping, the capped flag included |
| Pipeline.TimedIsMappable | alignment/mapping.mjs:48-65 | every path that DTW returns passes the path checks |
| Pipeline.BuiltIsReadable | alignment/mapping.mjs:104-141 | every built mapping passes the checks of both readers unless all its DUT times are equal |
| Pipeline.AlignCandidate | alignment/align.mjs:77-89 | fails exactly as the warping does and never with INVALID_MAPPING; a result is the mapping built, with the default tolerance, from the optimal alignment of the arguments, covers the whole reference and is readable both ways |
| Decimal.TextInverts | sdk-dotnet/src/Relu.AI.Bridge.DesktopConnector/Internal/EmbeddedContextProtocol.cs:159-171 | splitting a number literal loses nothing: its parts spell it again |
| Decimal.SplitInverts | sdk-dotnet/src/Relu.AI.Bridge.DesktopConnector/Internal/EmbeddedContextProtocol.cs:159-171 | every literal of section 6 of RFC 8259 splits into exactly the parts it was written from |
| Decimal.LiteralMeans | sdk-dotnet/src/Relu.AI.Bridge.DesktopConnector/Internal/EmbeddedContextProtocol.cs:159-202 | a literal denotes all its digits as one whole number, moved by the exponent and back by the length of the fraction |
| Decimal.ExponentReads | sdk-dotnet/src/Relu.AI.Bridge.DesktopConnector/Internal/EmbeddedContextProtocol.cs:159-202 | an exponent counts with its sign, and upwards without one |
| Decimal.NormalizePreservesValue | sdk-dotnet/src/Relu.AI.Bridge.DesktopConnector/Internal/EmbeddedContextProtocol.cs:152-202 | the normal form denotes the same real number as the literal |
| Decimal.CanonicalIsUnique | sdk-dotnet/src/Relu.AI.Bridge.DesktopConnector/Internal/EmbeddedContextProtocol.cs:152-202 | a number has one normal form |
| DecimalOrder.NormalizeRaw | sdk-dotnet/src/Relu.AI.Bridge.DesktopConnector/Internal/EmbeddedContextProtocol.cs:152-202 | the loops over the text compute the normal form, and refuse exactly the literals over 256 characters |
| DecimalOrder.KeysDecideEquality | sdk-dotnet/src/Relu.AI.Bridge.DesktopConnector/Internal/EmbeddedContextProtocol.cs:99-109 | two accepted literals denote the same number exactly when their canonical keys are equal |
| DecimalOrder.KeyReadsBack | sdk-dotnet/src/Relu.AI.Bridge.DesktopConnector/Internal/EmbeddedContextProtocol.cs:249-264 | a canonical key is itself a literal and normalises to the number it was made from |
| DecimalOrder.IntegerTestIsExact | sdk-dotnet/src/Relu.AI.Bridge.DesktopConnector/Internal/EmbeddedContextProtocol.cs:90-97 | the integer test holds exactly of whole numbers |
| DecimalOrder.CompareCoefficientDigits | sdk-dotnet/src/Relu.AI.Bridge.DesktopConnector/Internal/EmbeddedContextProtocol.cs:137-150 | the loop finds the sign of the first difference of the zero-padded digit strings |
| DecimalOrder.CompareIsListedOrder | sdk-dotnet/src/Relu.AI.Bridge.DesktopConnector/Internal/EmbeddedContextProtocol.cs:111-135 | the comparison is the numeric order with zero moved between the fractions below one and one |
| DecimalOrder.CompareNumbersIsTotalOrder | sdk-dotnet/src/Relu.AI.Bridge.DesktopConnector/Internal/EmbeddedContextProtocol.cs:111-150 | it is a total order, zero exactly on equal values, and numeric exactly on pairs other than zero against a value between zero and one |
| DecimalOrder.ZeroAboveOneHalf | sdk-dotnet/src/Relu.AI.Bridge.DesktopConnector/Internal/EmbeddedContextProtocol.cs:129-134 | a concrete exception: 0 compares above 0.5 |
| JsonTree.ValidateNode | sdk-dotnet/src/Relu.AI.Bridge.DesktopConnector/Internal/BoundedJson.cs:59-115 | the recursion with its running counter accepts exactly the well-shaped trees within the node limit, and counts every node once |
| JsonTree.ShapedIsAccepted | sdk-dotnet/src/Relu.AI.Bridge.DesktopConnector/Internal/BoundedJson.cs:65-115 | a validated tree has distinct names in every object and readable numbers, at every depth |
| JsonTree.ShapedMeans | sdk-dotnet/src/Relu.AI.Bridge.DesktopConnector/Internal/BoundedJson.cs:65-115 | a tree passes the bounds exactly if no place in it is deeper than 16 and every value fits where it is |
| JsonTree.NodesArePlaces | sdk-dotnet/src/Relu.AI.Bridge.DesktopConnector/Internal/BoundedJson.cs:65-71 | the node count is the number of places in the tree |
| JsonTree.Utf8LengthAdds | sdk-dotnet/src/Relu.AI.Bridge.DesktopConnector/Internal/BoundedJson.cs:82-97 | the length of a text adds up over its parts |
| JsonTree.Utf8LengthOfOne | sdk-dotnet/src/Relu.AI.Bridge.DesktopConnector/Internal/BoundedJson.cs:82-97 | a character has one to four bytes, by its code |
| OrdinalOrder.LessIsTotal | sdk-dotnet/src/Relu.AI.Bridge.DesktopConnector/Internal/EmbeddedContextProtocol.cs:210 | the ordinal order by UTF-16 code units is a strict total order on strings |
| OrdinalOrder.LessMeans | sdk-dotnet/src/Relu.AI.Bridge.DesktopConnector/Internal/EmbeddedContextProtocol.cs:210 | a name comes first exactly if it is a proper beginning of the other or has the smaller unit where they first differ |
| OrdinalOrder.UnitsMean | sdk-dotnet/src/Relu.AI.Bridge.DesktopConnector/Internal/EmbeddedContextProtocol.cs:210 | the units of a character are its code, or the two surrogates that spell it |
| OrdinalOrder.SortedIsUnique | sdk-dotnet/src/Relu.AI.Bridge.DesktopConnector/Internal/EmbeddedContextProtocol.cs:210 | the same properties sort to the same list, however they were listed |
| CanonicalJson.EqualsIffCanonical | sdk-dotnet/src/Relu.AI.Bridge.DesktopConnector/Internal/EmbeddedContextProtocol.cs:38-78 | two accepted values are semantically equal exactly when their canonical forms are identical |
| CanonicalJson.EqualityMeans | sdk-dotnet/src/Relu.AI.Bridge.DesktopConnector/Internal/EmbeddedContextProtocol.cs:38-78 | numbers are equal by value, texts and booleans by themselves, lists item by item, and objects exactly when they have the same names with equal values, in any order |
| CanonicalJson.EqualityIsEquivalence | sdk-dotnet/src/Relu.AI.Bridge.DesktopConnector/Internal/EmbeddedContextProtocol.cs:38-78 | semantic equality is reflexive, symmetric and transitive |
| CanonicalText.RenderEnds | sdk-dotnet/src/Relu.AI.Bridge.DesktopConnector/Internal/EmbeddedContextProtocol.cs:204-247 | canonical text is self-delimiting: equal texts with anything after them come from equal values |
| ContextBinding.WriteCanonical | sdk-dotnet/src/Relu.AI.Bridge.DesktopConnector/Internal/EmbeddedContextProtocol.cs:204-247 | the writer appends exactly the canonical text of the value, commas and sorted properties included |
| ContextBinding.CreateBinding | sdk-dotnet/src/Relu.AI.Bridge.DesktopConnector/Internal/EmbeddedContextProtocol.cs:80-88 | the binding is the hash of the canonical text |
| ContextBinding.TextDecidesEquality | sdk-dotnet/src/Relu.AI.Bridge.DesktopConnector/Internal/EmbeddedContextProtocol.cs:80-88 | the hashed text of two values is the same exactly when they are semantically equal |
| ContextBinding.SampleText | sdk-dotnet/src/Relu.AI.Bridge.DesktopConnector/Internal/EmbeddedContextProtocol.cs:204-264 | the canonical text of a sample object, letter for letter: members in order, numbers by their keys, no white space |
| ContextBinding.ProjectionTextDecides | sdk-dotnet/src/Relu.AI.Bridge.DesktopConnector/Internal/EmbeddedContextProtocol.cs:12-36 | the hashed texts of two projections agree exactly when the contexts agree on every guard field, which is when the projections are semantically equal |
| JsonSchema.MatchTransfers | sdk-dotnet/src/Relu.AI.Bridge.DesktopConnector/Internal/EmbeddedJsonSchema.cs:170-247 | a match carries over to every semantically equal instance |
| JsonSchema.VerdictsRespectEquality | sdk-dotnet/src/Relu.AI.Bridge.DesktopConnector/Internal/EmbeddedJsonSchema.cs:170-247 | semantically equal instances get the same verdict from every valid schema |
| JsonSchema.MatchesMeans | sdk-dotnet/src/Relu.AI.Bridge.DesktopConnector/Internal/EmbeddedJsonSchema.cs:170-247 | a schema accepts exactly the instances of its type's kind that equal an enum item and the const if there are any, keep the length and value bounds as numbers, have every required member, and whose members and items match the schemas declared for them |
| JsonSchema.TypeNames | sdk-dotnet/src/Relu.AI.Bridge.DesktopConnector/Internal/EmbeddedJsonSchema.cs:249-258 | the type of a schema is the one whose name its type keyword is |
| JsonSchema.DeclaredIs | sdk-dotnet/src/Relu.AI.Bridge.DesktopConnector/Internal/EmbeddedJsonSchema.cs:201-206 | a name is declared with the value of the one property of that name |
| JsonSchema.KeywordsApply | sdk-dotnet/src/Relu.AI.Bridge.DesktopConnector/Internal/EmbeddedJsonSchema.cs:64-168 | a valid schema carries no keyword that is unknown or does not apply to its type, so none that it does not enforce |
| JsonSchema.MatchesAreClosed | sdk-dotnet/src/Relu.AI.Bridge.DesktopConnector/Internal/EmbeddedJsonSchema.cs:85-93 | an accepted instance has, at every depth, only properties its schema declares there |
| JsonSchema.BoundsAreNumericExcept | sdk-dotnet/src/Relu.AI.Bridge.DesktopConnector/Internal/EmbeddedJsonSchema.cs:233-245 | a minimum or maximum is applied as a numeric bound exactly when it is not zero against a value between zero and one, or the reverse |
| JsonSchema.ZeroBoundMisreadsFraction | sdk-dotnet/src/Relu.AI.Bridge.DesktopConnector/Internal/EmbeddedJsonSchema.cs:233-245 | a minimum of zero rejects, and a maximum of zero admits, every value between zero and one |
| ContextHost.GenerationRepeats | sdk-dotnet/src/Relu.AI.Bridge.DesktopConnector/ReluEmbeddedBridgeHost.cs:131-134 | a generation comes back exactly after whole rounds of 2^63 - 1 announced updates |
| ContextHost.RunKeeps | sdk-dotnet/src/Relu.AI.Bridge.DesktopConnector/ReluEmbeddedBridgeHost.cs:119-151 | every interleaving keeps the gate exclusive, the generation in step with the announced updates, and what each request has recorded true |
| ContextHost.ReturnedResult | sdk-dotnet/src/Relu.AI.Bridge.DesktopConnector/ReluEmbeddedBridgeHost.cs:605-697 | in every interleaving a returned request had shown its handler the context of its first gated read; both gated reads project to equal values with the caller's binding; parameters and result conform |
| ContextHost.ReturnsWhatTheHandlerProduced | sdk-dotnet/src/Relu.AI.Bridge.DesktopConnector/ReluEmbeddedBridgeHost.cs:655-690 | in every interleaving a returned request's result is the one its own handler ended with, and its capability, parameters and binding are those it was submitted with |
| ContextHost.OnlySilentChanges | sdk-dotnet/src/Relu.AI.Bridge.DesktopConnector/ReluEmbeddedBridgeHost.cs:621-625 | if the generation did not go round, the context changed between first read and return by exactly the changes nobody announced |
| ContextHost.NoStaleResult | sdk-dotnet/src/Relu.AI.Bridge.DesktopConnector/ReluEmbeddedBridgeHost.cs:119-151 | with changes only in updates that do not throw, fewer than 2^63 - 1, the context at the return is the one the handler saw |
| ContextHost.ThrowingUpdateSlipsThrough | sdk-dotnet/src/Relu.AI.Bridge.DesktopConnector/ReluEmbeddedBridgeHost.cs:126-139 | an update that changes the context and throws goes unnoticed exactly when old and new context project alike |
| ContextHost.EmbeddedBridgeHost.ReturnResult | sdk-dotnet/src/Relu.AI.Bridge.DesktopConnector/ReluEmbeddedBridgeHost.cs:681-695 | the last stretch of an execution: equality, then binding, then the result, and the gate given back on every path |
| ContextHost.EmbeddedBridgeHost.ReadFirstContext | sdk-dotnet/src/Relu.AI.Bridge.DesktopConnector/ReluEmbeddedBridgeHost.cs:626-627 | the first gated read records the context and its projection, or fails the request and gives the gate back |
| ContextHost.EmbeddedBridgeHost.AdvanceGeneration | sdk-dotnet/src/Relu.AI.Bridge.DesktopConnector/ReluEmbeddedBridgeHost.cs:129-134 | an announced update moves the generation on, from the largest long back to 1 |
| ContextHost.EmbeddedBridgeHost.CheckFirstGeneration | sdk-dotnet/src/Relu.AI.Bridge.DesktopConnector/ReluEmbeddedBridgeHost.cs:621-625 | the request goes on only if the generation is the one of its lease |
| ContextHost.EmbeddedBridgeHost.BindUnderGate | sdk-dotnet/src/Relu.AI.Bridge.DesktopConnector/ReluEmbeddedBridgeHost.cs:618-638 | the whole first section under the gate: the request passes exactly if the generation is its lease's, the context projects and the projection has the caller's binding; the gate is free again and no other request is touched |
| ContextHost.EmbeddedBridgeHost.ReturnUnderGate | sdk-dotnet/src/Relu.AI.Bridge.DesktopConnector/ReluEmbeddedBridgeHost.cs:673-696 | the whole second section: the result is returned exactly if the generation is still the lease's, the context projects to an equal value and the binding still fits; the gate is free again on every path |
| ContextHost.EmbeddedBridgeHost.ChangeContext | sdk-dotnet/src/Relu.AI.Bridge.DesktopConnector/ReluEmbeddedBridgeHost.cs:119-140 | a whole update: the context is the new one, and unless the callback threw no lease taken before is current any more |
| ContextBridge.ResultsAgreeWithTheCaller | sdk-dotnet/src/Relu.AI.Bridge.DesktopConnector/ReluEmbeddedBridgeHost.cs:578-697 | a client that passes the binding it was given gets only results computed on a context that agrees with its own on every guard field, and still agrees at the return, as long as the hash tells the two apart |
| ContextBridge.ResultsAreClosed | sdk-dotnet/src/Relu.AI.Bridge.DesktopConnector/ReluEmbeddedBridgeHost.cs:662-665 | parameters and result have only declared properties, at every depth |
| ContextBridge.ThrowingUpdateHiddenIffGuarded | sdk-dotnet/src/Relu.AI.Bridge.DesktopConnector/ReluEmbeddedBridgeHost.cs:126-139 | on real contexts: the stale result of a throwing update is returned exactly when both contexts agree on the guard fields |
| HandlerSlots.SlotsAreConserved | sdk-dotnet/src/Relu.AI.Bridge.DesktopConnector/Internal/BoundedHandlerSlots.cs:27-76 | in every interleaving, ids distinct or not, free counts, registered ids and steps in transit add up to the capacity, running handlers never exceed it even after their requests gave up, and the double-release exception is unreachable |
| HandlerSlots.GivingBackFits | sdk-dotnet/src/Relu.AI.Bridge.DesktopConnector/Internal/BoundedHandlerSlots.cs:20 | no release exceeds the maximum of the semaphore |
| HandlerSlots.BusyIffFull | sdk-dotnet/src/Relu.AI.Bridge.DesktopConnector/Internal/BoundedHandlerSlots.cs:27-39 | a request finds no slot exactly when as many requests as the capacity hold one |
| HandlerSlots.FreshIdsNeverCollide | sdk-dotnet/src/Relu.AI.Bridge.DesktopConnector/ReluEmbeddedBridgeHost.cs:594-598 | with fresh request ids the id table never refuses, and it holds exactly the registered requests |
| HandlerSlots.BoundedHandlerSlots.TryAcquire | sdk-dotnet/src/Relu.AI.Bridge.DesktopConnector/Internal/BoundedHandlerSlots.cs:27-39 | succeeds exactly with a free slot and an unused id, and otherwise leaves the table as it was |
| HandlerSlots.BoundedHandlerSlots.ReleaseWhenCompleted | sdk-dotnet/src/Relu.AI.Bridge.DesktopConnector/Internal/BoundedHandlerSlots.cs:41-76 | gives back exactly what acquiring took, and nothing while the handler runs |
| StdioRequests.RequestKeysDecide | sdk-dotnet/src/Relu.AI.Bridge.DesktopConnector/ReluMcpStdioEntryPoint.cs:371-377 | valid ids have the same key exactly when they are the same string or the same number |
| StdioRequests.LiveIdsDiffer | sdk-dotnet/src/Relu.AI.Bridge.DesktopConnector/ReluMcpStdioEntryPoint.cs:175-185 | in every interleaving no two live requests have ids that are equal as JSON values |
| StdioRequests.RunServes | sdk-dotnet/src/Relu.AI.Bridge.DesktopConnector/ReluMcpStdioEntryPoint.cs:98-173 | only requests with valid ids are ever served, and neither initialize nor a notification is among them |
| StdioRequests.ClassifyMeans | sdk-dotnet/src/Relu.AI.Bridge.DesktopConnector/ReluMcpStdioEntryPoint.cs:98-173 | which message a line amounts to: by its id, its version and its name |
| StdioRequests.CancellationFindsEqualId | sdk-dotnet/src/Relu.AI.Bridge.DesktopConnector/ReluMcpStdioEntryPoint.cs:347-369 | a cancellation whose id equals a live, active request's as a JSON value cancels that request and changes nothing else |
| StdioSession.LiveKeysDiffer | sdk-dotnet/src/Relu.AI.Bridge.DesktopConnector/ReluMcpStdioEntryPoint.cs:175-185 | in every interleaving no two live requests share a key |
| StdioSession.SlotsAreConserved | sdk-dotnet/src/Relu.AI.Bridge.DesktopConnector/ReluMcpStdioEntryPoint.cs:186-194 | free slots and requests holding one always add up to 16 |
| StdioSession.OneResponseEach | sdk-dotnet/src/Relu.AI.Bridge.DesktopConnector/ReluMcpStdioEntryPoint.cs:738-760 | every response of a request on the output has the id of that request, which committed it, and no other response there is that request's |
| StdioSession.EveryRequestIsAnswered | sdk-dotnet/src/Relu.AI.Bridge.DesktopConnector/ReluMcpStdioEntryPoint.cs:255-307 | in every run, until the session shuts down, a request that is through was either cancelled or has its response on the output |
| StdioSession.CancelledIsSilent | sdk-dotnet/src/Relu.AI.Bridge.DesktopConnector/ReluMcpStdioEntryPoint.cs:789-815 | once a cancellation wins the exchange, no response of that request is ever written |
| StdioSession.CancellationReaches | sdk-dotnet/src/Relu.AI.Bridge.DesktopConnector/ReluMcpStdioEntryPoint.cs:347-369 | in every run a cancellation reaches exactly the live request with its key, and wins if that is still active; without one nothing changes |
| StdioSession.CallIsAdmittedOrRefused | sdk-dotnet/src/Relu.AI.Bridge.DesktopConnector/ReluMcpStdioEntryPoint.cs:160-185 | a request enters the table exactly if the session is open to it, its parameters are valid and its key is free; otherwise it is answered with the error that says which |
| StdioSession.InitializeIsAnswered | sdk-dotnet/src/Relu.AI.Bridge.DesktopConnector/ReluMcpStdioEntryPoint.cs:130-158 | initialize is answered with success exactly if it is the first, valid, and its key is free |
| StdioSession.OthersAreAnswered | sdk-dotnet/src/Relu.AI.Bridge.DesktopConnector/ReluMcpStdioEntryPoint.cs:75-128 | only a valid confirmation after initialize opens the session; unreadable, invalid and misused messages get their errors, and other notifications nothing |
| StdioSession.RefusedIffFull | sdk-dotnet/src/Relu.AI.Bridge.DesktopConnector/ReluMcpStdioEntryPoint.cs:186-194 | in every run an admitted request is refused exactly if 16 requests hold a slot |
| StdioSession.RefusalIsAnswered | sdk-dotnet/src/Relu.AI.Bridge.DesktopConnector/ReluMcpStdioEntryPoint.cs:186-194 | a refused request's own key is removed and it is answered with the busy error |
| StdioSession.DispatchedAfterHandshake | sdk-dotnet/src/Relu.AI.Bridge.DesktopConnector/ReluMcpStdioEntryPoint.cs:106-166 | anything but a ping is dispatched only after initialize was answered and, after that, confirmed |
| StdioSession.InitializedOnce | sdk-dotnet/src/Relu.AI.Bridge.DesktopConnector/ReluMcpStdioEntryPoint.cs:130-158 | initialize succeeds at most once |
| StdioSession.CleanupFindsItsOwn | sdk-dotnet/src/Relu.AI.Bridge.DesktopConnector/ReluMcpStdioEntryPoint.cs:302-307 | a finishing request removes its own key and never overfills the semaphore |
| StdioSession.StdioMcpSession.ReceiveCall | sdk-dotnet/src/Relu.AI.Bridge.DesktopConnector/ReluMcpStdioEntryPoint.cs:160-185 | the four refusals of a request in the order of the code; else it enters the table under its key |
| StdioSession.StdioMcpSession.TryCommitResponse | sdk-dotnet/src/Relu.AI.Bridge.DesktopConnector/ReluMcpStdioEntryPoint.cs:800-801 | the response is written exactly if the request was still active |
| StdioSession.StdioMcpSession.RespondUnderGate | sdk-dotnet/src/Relu.AI.Bridge.DesktopConnector/ReluMcpStdioEntryPoint.cs:738-760 | taking the gate, committing, writing and giving the gate back: one response with the request's id exactly if it was still active, nothing else changed |
| StdioSession.StdioMcpSession.FinishRequest | sdk-dotnet/src/Relu.AI.Bridge.DesktopConnector/ReluMcpStdioEntryPoint.cs:302-307 | the whole finally block: the request finds its own key, and its slot fits |
| LineReader.LinesJoin | sdk-dotnet/src/Relu.AI.Bridge.DesktopConnector/ReluMcpStdioEntryPoint.cs:867-892 | the reference: the lines of an input, joined by line feeds, give the input back |
| LineReader.NoFeedInLines | sdk-dotnet/src/Relu.AI.Bridge.DesktopConnector/ReluMcpStdioEntryPoint.cs:867-892 | no line of the reference holds a line feed, so the lines are the pieces between the line feeds |
| LineReader.VerdictForEachLine | sdk-dotnet/src/Relu.AI.Bridge.DesktopConnector/ReluMcpStdioEntryPoint.cs:843-893 | the list of verdicts has exactly one for each line of the reference, in order |
| LineReader.VerdictMeans | sdk-dotnet/src/Relu.AI.Bridge.DesktopConnector/ReluMcpStdioEntryPoint.cs:867-910 | a line within the limit is decoded without one carriage return at its end, a longer one is refused |
| LineReader.BoundedUtf8LineReader.ReadLine | sdk-dotnet/src/Relu.AI.Bridge.DesktopConnector/ReluMcpStdioEntryPoint.cs:843-893 | for any buffer and chunks: null, the verdict on the next line, or, exactly for an unterminated line whose first piece is over the limit, null; the rest of the input is what follows the line |
| LineReader.BoundedUtf8LineReader.ReadAll | sdk-dotnet/src/Relu.AI.Bridge.DesktopConnector/ReluMcpStdioEntryPoint.cs:843-893 | reading to the end gives one verdict for each line, if the limit is at least the buffer or the input ends with a line feed; otherwise only a final over-long line can be missing |
| LineReader.BoundedUtf8LineReader.Decode | sdk-dotnet/src/Relu.AI.Bridge.DesktopConnector/ReluMcpStdioEntryPoint.cs:895-910 | one trailing carriage return is dropped and the rest is decoded |
| LineReader.ChunksDecide | sdk-dotnet/src/Relu.AI.Bridge.DesktopConnector/ReluMcpStdioEntryPoint.cs:853-864 | the exception is real: an unterminated over-long line in one chunk is lost, in two it is reported |
| WebConnector.OneAttemptAtATime | sdk/relu-web-connector.js:347-429 | if no start overtakes a connect, there is at most one connect in flight, armed timer or socket, and exactly one while neither stopped nor rejected |
| WebConnector.StartOutOfTurn | sdk/relu-web-connector.js:299-307 | starting a stopped connector keeps this exactly when no earlier connect still awaits its context |
| WebConnector.RestartWhileConnecting | sdk/relu-web-connector.js:299-325 | a concrete exception: start, stop, start leaves two connects in flight |
| WebConnector.OneVerifiedResponse | sdk/relu-web-connector.js:454-497 | a handshake sends at most one auth_response, and only for a server proof that verified for its nonces |
| WebConnector.AcceptedOnlyWhenProved | sdk/relu-web-connector.js:499-514 | a session is accepted only in a handshake whose server proved it knows the token |
| WebConnector.OneResetAtATime | sdk/relu-web-connector.js:516-530 | between two resets the bridge accepted the connector or it was started anew |
| WebConnector.RejectedIsFinal | sdk/relu-web-connector.js:539-560 | after a rejection there is no connect, socket, handshake or answer until stop |
| WebConnector.ReluWebConnector.OnClose | sdk/relu-web-connector.js:395-420 | which of rejection, reconnect and reset reconnect follows the close of the current socket; other sockets change nothing |
| WebConnector.ReluWebConnector.SendAuthResponse | sdk/relu-web-connector.js:479-496 | a failing digest or signature rejects the socket; after the last await the response goes out only if socket, handshake, state and stage are still the ones awaited for |
| WebConnector.ReluWebConnector.HandleHelloAck | sdk/relu-web-connector.js:499-546 | out of turn, for another socket or stage, it throws; otherwise it has the effect that the next row states |
| WebConnector.HelloAckIsAcknowledged | sdk/relu-web-connector.js:499-546 | on the fields: refusal rejects for good and logs nothing, acceptance connects and clears the reset counter, a reset is granted once and then rejected |
| WebConnector.AcceptedOnlyByTheBridge | sdk/relu-web-connector.js:499-514 | in every run each accepted session has an acceptance, received on the current socket while that handshake awaited it |
| WebConnector.ConnectedSinceAccepted | sdk/relu-web-connector.js:499-514 | a connected connector has been connected ever since such an acceptance |
| WebConnector.StartLeadsToHandshake | sdk/relu-web-connector.js:299-394 | a start leads over the context and a new socket to a fresh handshake that waits for its challenge |
| WebConnector.FailureLeadsToRetry | sdk/relu-web-connector.js:347-394 | a failing context or socket constructor arms the timer, and the timer connects again |
| WebConnector.CloseLeads | sdk/relu-web-connector.js:395-420 | the close of the current socket leads to rejection exactly when rejected or refused with 1008 or 4003 while authenticating, and otherwise to a reconnect |
| WebConnector.StoppedIsFinal | sdk/relu-web-connector.js:309-325 | after a stop there is no socket, handshake or answer until the next start, whatever was in flight |
| WebConnector.ReluWebConnector.AnswerChallenge | sdk/relu-web-connector.js:454-497 | a challenge that arrives in time is answered exactly if its proof is the server's for this handshake and nothing fails; whatever fails rejects the socket, and the rest of the state stays |
| AgentBroker.CursorsAreNeverReused | src/agents.mjs:189-212 | over all histories of mutations, failed writes and restarts a cursor that was ever visible belongs to one command for ever, and visible cursors increase strictly |
| AgentBroker.ClientMissesNothing | src/agents.mjs:397-402 | a client polling from its largest cursor gets every command at most once; of those meant for it that its cursor passed it missed only commands settled (cancelled, acknowledged, failed), trimmed with 2000 later ones, or dropped while pending by a restart, and these are exactly the seen commands no longer on offer |
| AgentBroker.DroppedByPrivateRestart | src/agents.mjs:73-187 | a command is dropped while pending exactly when a restart in private mode meets it pending, visibly and in the state the file was written from |
| AgentBroker.NothingDropped | src/agents.mjs:73-187 | with payloads recorded, or without restarts, nothing pending is dropped |
| AgentBroker.PrivateRestartDropsPending | src/agents.mjs:180-187 | a concrete exception: in private mode, enqueue, restart, enqueue, poll; the client's cursor passes the first command, which it never gets |
| AgentBroker.UsedIdsStayReserved | src/agents.mjs:271-278 | over all later histories, restarts included, an id once used in a prime cannot be spawned there again |
| AgentBroker.RetiredStaysRetired | src/agents.mjs:305-368 | over all later histories messages, registrations and reports for a retired worker fail |
| AgentBroker.WorkersStay | src/agents.mjs:267-303 | over all later histories a worker stays known to its prime, and a retired one stays retired |
| AgentBroker.ClearedWorkersStayRetired | src/agents.mjs:382-395 | over all later histories no worker a cleared prime had takes a message, a registration or a report |
| AgentBroker.ClearedCommandsStayCancelled | src/agents.mjs:382-402 | over all later histories no command a cleared prime had pending is offered to anybody |
| AgentBroker.AgentBroker.Mutate | src/agents.mjs:199-212 | all or nothing: a mutation that throws, or whose write fails, changes neither the state nor the visible state |
| AgentBroker.AgentBroker.Persist | src/agents.mjs:189-197 | the latest 2000 commands are kept, and the visible state follows only a successful write |
| AgentBroker.AgentBroker.SpawnUnlocked | src/agents.mjs:267-303 | spawning in place has exactly the effect, and the failures, of the specification |
| AgentBroker.AgentBroker.ClearUnlocked | src/agents.mjs:382-395 | every worker of the prime is retired and exactly its pending commands are cancelled |
| AgentState.ApplyContinues | src/agents.mjs:251-265 | every operation keeps the commands there are, in order, and gives new ones new cursors; nothing becomes pending again |
| AgentState.ApplySucceeds | src/agents.mjs:267-413 | no operation takes a worker away or brings a retired one back |
| AgentState.AppliesIfAllowed | src/agents.mjs:267-413 | an operation is refused exactly without room, approval, a task or a fresh valid id, or a worker that is known, not retired and reachable |
| AgentState.SendingMeans | src/agents.mjs:267-335 | spawning starts a worker and messaging puts it to work, each with one new pending command; everything else is as before |
| AgentState.BindingMeans | src/agents.mjs:337-368 | registering binds a worker and puts it to work, a report puts it to sleep or marks it failed; everything else is as before |
| AgentState.ClearMeans | src/agents.mjs:382-395 | every worker of the prime is retired and otherwise as before, exactly its pending commands are cancelled, and nothing else changes |
| AgentState.CommandMeans | src/agents.mjs:251-265 | enqueuing adds one pending command, acknowledging settles the first with its id, and nothing else changes |
| AgentState.UsedIdIsRefused | src/agents.mjs:271-278 | an id that a prime has used is refused by a spawn in every state that succeeds |
| AgentState.RetiredIsRefused | src/agents.mjs:305-368 | messages, registrations and reports for a retired worker fail in every state that succeeds |
| AgentState.LimitIsKept | src/agents.mjs:267-335 | spawning and messaging never take the number of active workers past the limit |
| AgentState.RegisteringIgnoresLimit | src/agents.mjs:337-351 | registering adds an active worker exactly when it was idle, whatever the limit |
| AgentState.FileRoundTrip | src/agents.mjs:73-187 | reading back the file of the same mode restores everything, or, with private payloads, the cursor and every worker with active ones asleep and bindings as hashes |
| AgentState.PollIsExact | src/agents.mjs:397-402 | a poll gives offered commands in order and passes over none up to the cursor it ends at |

## Left out

- Floating-point rounding: Float64 is taken as exact real arithmetic, so non-finite numbers and the checks for them do not occur.
- The cancellation checkpoint after each row of the warping table (`guard?.checkpoint`), and alignment/guard.mjs.
- Coarse search, feature extraction, confidence scores and the choice among candidates in alignment/align.mjs: `Pipeline.AlignCandidate` takes one candidate. They need square roots, logarithms and budgets.
- Freezing in `createTimeMapper`, and mapping inputs that are not arrays of points.
- DtwEngine.MeasureDistance: the vectors have the same dimension, as series validation guarantees; validation itself (alignment/series.mjs:1-115) is not modelled.
- SHA-256 and HMAC are uninterpreted functions; theorems speak of the text before hashing, or assume that the hash tells two given texts apart.
- JSON parsing and the escaping of strings in canonical text: the escaper is a parameter that must be injective and leave quotes escaped.
- Decoding UTF-8 is a parameter of the line reader. Strings are sequences of Unicode scalar values, so lone surrogates do not occur.
- Error messages; errors are their codes, or a failed step.
- Byte limits of payloads in `BoundedJson.CloneAndValidate` and of responses.
- Pipes, sockets, timers, task scheduling and wall-clock timeouts: they are steps that may come at any time. Nothing is claimed about progress.
- ContextHost.EmbeddedBridgeHost: one request is a record in a list, and context-provider and handler failures are one `Cancel`; the slots a request holds meanwhile are in `HandlerSlots`. Stopping the host is not modelled.
- HandlerSlots.BoundedHandlerSlots: a handler's .NET task is reduced to three states.
- StdioRequests.RunServes: the shape checks of initialize, initialized and method parameters are parameters, because no theorem depends on them.
- StdioSession.StdioMcpSession: the steps of the read loop taking the writer's gate, of failing writes and of the final sweep are in `Step` only.
- The tool calls themselves and the pipe client behind them.
- WebConnector.ReluWebConnector: message parsing, the request guard and the context events while connected; closing a socket is the close event that follows it. The guard repeats the host's.
- Labels, tasks, results and timestamps of workers, the approval hash (whether it matched is an input), malformed state files and a restart that changes the recording mode.
- AgentBroker.CursorsAreNeverReused: histories shorter than the safe integers; beyond them JavaScript's cursor stops being exact.
- The bound of active workers as an invariant: it does not hold, because registering does not look at the limit (`AgentState.RegisteringIgnoresLimit`).
- The client registrar, the installer, peer verification, the browser extensions, the Perfetto plugin and the user interfaces.
