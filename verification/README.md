# Verified models of five optimisation cores

Five parts of the compiler passes in `llvm_lib` decide, often with delicate invariants, whether a program
may be changed, and change it. This project models them in Dafny, in the imperative form they have, and
proves what they are for.

- **Narrowing of expression dags** (`Bits`, `Ir`, `Narrowing`, `TruncDag`, `MinWidthWalk`,
  `TruncRewrite`, `TruncImplements`, `TruncEdit`, `TruncErase`, `TruncPlaces`, `TruncBest`,
  `TruncChoice`, `TruncInstCombine`, `TruncContext`). `Ir` gives fixed-width SSA programs a meaning with
  poison and undefined behaviour: an execution is a solution of all defining equations, and a run
  executes the instructions in the places it reaches. The class `TruncInstCombiner` holds the program,
  the worklist and the info map, and edits them in place. Its `Run` is proved to yield a program that
  implements the original and to terminate.
- **Dead argument elimination** (`Calls`, `Liveness`, `LiveUses`, `Keep`, `DeadArgSurvey`,
  `SignatureRewrite`, `DeadValues`, `RewriteSteps`, `DeadArgElimination`, `DeadReturned`). A first-order
  language with recursion and several results per function; the liveness solver with its multimap of
  postponed decisions; the signature rewrite, one function at a time. The solver finds the least solution
  in any order, and the rewritten program agrees with the original on everything live.
- **Coroutine frames** (`SuspendCrossing`, `StructLayout`, `SlotSharing`, `FrameLayout`,
  `CoroutineFrame`). The bit-vector fixpoint is exact with respect to paths of the control-flow graph;
  slot sharing, field layout and the struct body keep interfering values apart and put every field where
  the layout says.
- **Argument promotion** (`PrefixSet`, `PromotionSafety`, `PromotionRules`, `PromotionTransparency`,
  `PromotionRewrite`, `PromotionMemory`). The ordered set with binary search is exactly "some prefix is
  safe"; the check that uses it decides a reference definition; the three walks over the argument list
  agree in position; together, a promoted load yields what the caller has loaded.
- **Bit tricks** (`PopCount`, `Idioms`, `MaskChains`, `FunnelShift`). Each recognised pattern is refined
  by its replacement at every width, and the patterns the comments describe are recognised.

`Collections` and `Bits` hold what several parts share. Refinement is the usual order: undefined
behaviour may become anything, poison anything defined, an integer only itself.

Five properties one might expect turn out false of the code. Each has an example and an exact condition.

- Under the async alignment cap the struct need not reproduce the assigned offsets
  (`CoroutineFrame.CappedSpillMisplaced`). It does exactly when it is packed or every assigned offset
  suits its type's natural alignment (`FrameTypeBuilder.Finish`).
- Zero-sized storage is sent to field 0 even in a frame without fields
  (`CoroutineFrame.OnlyEmptyAlloca`). Every id handed out names a field exactly when nothing is of size
  zero or something has a size (`BuildFrame`).
- The check that no store precedes a load shares its visited blocks between loads from different
  locations and so misses stores (`PromotionTransparency.SecondLocationMissed`). It is safe exactly when
  every block is first looked at for a load from the same location as each load it precedes
  (`AcceptanceIsSafeIff`).
- The truncation pass asks for known bits at the trunc and uses them for divisions that may run without
  it (`TruncContext.ContextIsNotEnough`). A reduction is safe whatever the analyses say exactly when, in
  each run that neither traps nor reaches the trunc, every executed division of the dag has a divisor
  which at the new width is a number other than zero (`TruncImplements.ContextSufficesIff`). A whole run
  of the pass is safe when each division stands with the casts computed from it
  (`TruncInstCombiner.Run`).
- A parameter marked as being the result need not be the result after dead argument elimination, which
  keeps the mark and the result but not what the result is computed from
  (`DeadReturned.MarkBecomesFalse`). It is exactly when no run of the original, with the dropped values
  undefined, returns anything else (`PassKeepsMarkIff`).

`dafny verify dfyconfig.toml` checks the project.

## Model

| member | source | states |
|---|---|---|
| `TruncInstCombine.TruncInstCombiner.Run` | llvm_lib/AggressiveInstCombine/TruncInstCombine.cpp:487-518 | The whole pass: the final program implements the original, that is, in every run, whatever places it reaches, it traps only if the original does, has exactly the same opaque instructions, and feeds them refinements of what the original fed them, given analyses that are right wherever an operand is used; analyses right only where their trunc is reached suffice if every division stands with the casts computed from it. The loop terminates because (total width of all instructions, worklist length) decreases; something changed exactly when some trunc of the original program was improvable, and then the total width dropped. Trunc by trunc: no trunc has two turns, the turns lead from the original program to the final one, and at its turn a trunc is reduced exactly if there is a width for it; every trunc given, and every one in the final program that is new, has had its turn, or was rebuilt in another one's dag, or is the cut that ended a reduction |
| `TruncInstCombine.TruncInstCombiner.ReduceExpressionDag` | llvm_lib/AggressiveInstCombine/TruncInstCombine.cpp:370-485 | One reduction implements the program before it under analyses right at the uses, and under all analyses right at the trunc exactly if in every trap-free run that does not reach the trunc each executed division of the dag has a divisor which at the new width is a number other than zero; it removes the trunc, keeps exactly the old dag nodes that something outside the dag uses, lowers the total width, and leaves a worklist of truncs that exist, each once |
| `TruncInstCombine.TruncInstCombiner.GetBestTruncatedType` | llvm_lib/AggressiveInstCombine/TruncInstCombine.cpp:256-344 | Returns a width exactly when there is one to reduce to, said of the program itself: everything that goes into the trunc through arithmetic is supported; the oracle's bounds allow some width from the trunc's on, and the least one, moved to a legal width if it is not the trunc's own, is the answer; whatever has users elsewhere is an extension from it. The width meets every node's side conditions and pays off |
| `TruncInstCombine.TruncInstCombiner.AgreeOnWidth` | llvm_lib/AggressiveInstCombine/TruncInstCombine.cpp:264-284 | When it passes, all nodes used outside the dag are extensions from the one width it reports; when it fails, no width can be chosen for any listing of the dag |
| `TruncInstCombine.TruncInstCombiner.CheckUsers` | llvm_lib/AggressiveInstCombine/TruncInstCombine.cpp:269-283 | Over all users of a node, fails exactly when one is outside the dag and the node is no extension or extends from another width than agreed so far |
| `TruncInstCombine.TruncInstCombiner.SetRequirements` | llvm_lib/AggressiveInstCombine/TruncInstCombine.cpp:286-331 | Enters every node's least width in the table, each below the original width; when it fails, the bounds allow no width |
| `TruncBest.RequirementSuffices` | llvm_lib/AggressiveInstCombine/TruncInstCombine.cpp:297-330 | The least widths computed from known bits and sign bits are exact: at a width below the original, the requirement is met if and only if the conditions hold under which the narrow operation is right |
| `TruncBest.RequirementIff` | llvm_lib/AggressiveInstCombine/TruncInstCombine.cpp:297-330 | A node's requirement is the least width that the oracle's bounds allow: shift amounts below it, what a right shift brings down and what is divided within it; and 0 for every other operation |
| `TruncChoice.NeedIsLeast` | llvm_lib/AggressiveInstCombine/TruncInstCombine.cpp:225-228 | The largest requirement is the least width, from the trunc's on, that all bounds allow |
| `TruncChoice.ChosenIff` | llvm_lib/AggressiveInstCombine/TruncInstCombine.cpp:230-343 | The width chosen through the tables is the one that the text of the program, the bounds and the list of legal widths determine, and there is none in the tables exactly if there is none at all |
| `TruncBest.SingleUseIsInside` | llvm_lib/AggressiveInstCombine/TruncInstCombine.cpp:267-268 | Skipping nodes with one use is justified: the only user of such a node is the trunc or a node of the dag |
| `TruncChoice.OnlyWidth` | llvm_lib/AggressiveInstCombine/TruncInstCombine.cpp:333-343 | The width does not depend on the order in which the dag is listed: any choice, for any listing, is the one that follows from the largest requirement |
| `TruncChoice.ChoiceIsGood` | llvm_lib/AggressiveInstCombine/TruncInstCombine.cpp:230-254 | The legal width chosen above the largest requirement satisfies every node, and a root that needs a remaining trunc is never a cast |
| `TruncInstCombine.TruncInstCombiner.BuildTruncExpressionDag` | llvm_lib/AggressiveInstCombine/TruncInstCombine.cpp:86-163 | Succeeds exactly when everything reachable from the trunc through relevant operands is of a supported kind; the table then holds exactly those instructions, once each, operands before users |
| `TruncDag.BuildIsExact` | llvm_lib/AggressiveInstCombine/TruncInstCombine.cpp:93-162 | When the explicit-stack walk empties its worklist, the recorded sequence is the dag: exactly the reachable instructions, distinct, operands first |
| `TruncDag.PushOperands` | llvm_lib/AggressiveInstCombine/TruncInstCombine.cpp:125-160 | Pushing a node's operands keeps the walk's invariant: stack frames embedded in the worklist, ranks descending along the stack, every operand handled or still pending |
| `TruncInstCombine.TruncInstCombiner.GetMinBitWidth` | llvm_lib/AggressiveInstCombine/TruncInstCombine.cpp:165-254 | The root's entry ends as the maximum of the trunc width and every dag node's initial requirement, and the result is the width chosen for it |
| `MinWidthWalk.MinIsExact` | llvm_lib/AggressiveInstCombine/TruncInstCombine.cpp:178-230 | The walk's invariant at an empty worklist gives the exact maximum at the root, although shared nodes may have been finished before their operands |
| `MinWidthWalk.FinishNode` | llvm_lib/AggressiveInstCombine/TruncInstCombine.cpp:188-202 | Finishing a node with the maximum of its operands keeps the invariant that every requirement seen is carried by the root, a node on the stack, or a node still to be finished |
| `Narrowing.NarrowBin` | llvm_lib/AggressiveInstCombine/TruncInstCombine.cpp:414-433 | Each of the eleven binary operations evaluated on operands cut to m bits gives the original result cut to m bits, with only the exact flag kept, under the side conditions of the pass; poison and undefined behaviour included |
| `Narrowing.NarrowCast` | llvm_lib/AggressiveInstCombine/TruncInstCombine.cpp:382-413 | Recasting the source of a trunc, zext or sext straight to the new width gives the old result cut to that width, also when the direction of the cast changes |
| `Narrowing.NarrowRoot` | llvm_lib/AggressiveInstCombine/TruncInstCombine.cpp:463-470 | Truncating the rebuilt root, or using it as it is, gives the value of the original trunc |
| `TruncRewrite.NodeReduces` | llvm_lib/AggressiveInstCombine/TruncInstCombine.cpp:372-461 | In every pair of executions of the old and new program, the new one on the same or refined inputs, each rebuilt node holds the old node's value cut to the new width |
| `TruncRewrite.RootRefines` | llvm_lib/AggressiveInstCombine/TruncInstCombine.cpp:463-471 | What replaces the trunc refines the trunc |
| `TruncRewrite.SurvivorRefines` | llvm_lib/AggressiveInstCombine/TruncInstCombine.cpp:471-485 | Every instruction that stays refines itself, wherever it stands in the program |
| `TruncImplements.ReductionImplements` | llvm_lib/AggressiveInstCombine/TruncInstCombine.cpp:370-485 | A reduction yields a program that implements the old one: in every run, also when what opaque instructions yield has been refined in turn, no new undefined behaviour, no new or lost opaque instruction, every computed operand of one refined |
| `TruncImplements.ContextSufficesIff` | llvm_lib/AggressiveInstCombine/AggressiveInstCombineInternal.h:111-121 | Known bits asked for at the trunc make a reduction safe, whatever the analyses say, exactly if in every run of the old program that does not trap and does not reach the trunc, each executed division of the dag, unless it is folded, has a divisor which computed at the new width is a number other than zero |
| `TruncImplements.NodeEvaluates` | llvm_lib/AggressiveInstCombine/TruncInstCombine.cpp:378-460 | In a run that does not reach the trunc a rebuilt node holds the value that the dag, read off the old program, has at the new width, and is folded exactly if only constants go into it |
| `TruncImplements.TrapsIfNotOk` | llvm_lib/AggressiveInstCombine/TruncInstCombine.cpp:414-433 | If the new program does not trap, the divisors of the executed divisions were fine at the new width |
| `TruncImplements.NoNewUB` | llvm_lib/AggressiveInstCombine/TruncInstCombine.cpp:414-471 | If the old program runs without executing undefined behaviour, so does the new one, the rebuilt nodes and the final trunc included |
| `TruncRewrite.DominatedAfter` | llvm_lib/AggressiveInstCombine/TruncInstCombine.cpp:378-471 | Everything inserted stands where its node stood, so whatever is executed still has its operands executed |
| `TruncImplements.UncheckedNotUB` | llvm_lib/AggressiveInstCombine/TruncInstCombine.cpp:414-433 | In a run that does not reach the trunc a rebuilt node may hold a wrong value but does not trap if the divisors are fine at the new width |
| `TruncContext.ContextIsNotEnough` | llvm_lib/AggressiveInstCombine/AggressiveInstCombineInternal.h:111-121 | Known bits are asked for at the trunc. For a concrete function and an analysis that is right in every run reaching the trunc, the pass chooses a width, and the resulting program divides by zero in a run that never gets to the trunc; the exact condition is violated |
| `TruncPlaces.PlacesKept` | llvm_lib/AggressiveInstCombine/TruncInstCombine.cpp:372-485 | If every division stands with the casts computed from it, a reduction keeps it so: paths of computation in the new program come from paths in the old one |
| `TruncPlaces.PathKept` | llvm_lib/AggressiveInstCombine/TruncInstCombine.cpp:372-485 | Whatever an instruction is computed from in the new program, what it stands for was computed from in the old one |
| `TruncPlaces.DividesThere` | llvm_lib/AggressiveInstCombine/TruncInstCombine.cpp:86-163 | Where divisions stand with the casts computed from them, those of a dag stand with its trunc |
| `TruncImplements.ImplementsTransitive` | llvm_lib/AggressiveInstCombine/TruncInstCombine.cpp:507-517 | Successive reductions compose: the implementation relation is transitive through a run of the middle program |
| `TruncImplements.CluelessIsSound` | llvm_lib/AggressiveInstCombine/TruncInstCombine.cpp:297-331 | The demands on the analyses can be met: an oracle that knows nothing is sound in every run, at uses and in context |
| `Ir.ModelExists` | llvm_lib/AggressiveInstCombine/TruncInstCombine.cpp:86-163 | Every acyclic program has an execution on every input, so refinement between executions is never empty talk |
| `TruncInstCombine.TruncInstCombiner.UpdateWorklist` | llvm_lib/AggressiveInstCombine/TruncInstCombine.cpp:399-411 | A rebuilt cast replaces, leaves or joins the worklist so that no erased instruction stays on it and every new trunc is on it |
| `TruncInstCombine.TruncInstCombiner.ReduceNode` | llvm_lib/AggressiveInstCombine/TruncInstCombine.cpp:372-461 | Rebuilding the next node keeps the invariant of the half-rebuilt program and accounts for the width it adds |
| `TruncInstCombine.TruncInstCombiner.EraseOldDag` | llvm_lib/AggressiveInstCombine/TruncInstCombine.cpp:473-484 | Erasing backwards removes exactly the old nodes without outside users; the program stays well-formed throughout |
| `TruncErase.StillUsed` | llvm_lib/AggressiveInstCombine/TruncInstCombine.cpp:479-483 | When a node's turn comes and it still has a use, that use is from outside the old dag |
| `TruncInstCombine.WidthDrops` | llvm_lib/AggressiveInstCombine/TruncInstCombine.cpp:370-518 | The nodes created are narrower in total than the nodes and the trunc erased: the measure behind termination |
| `Idioms.PopCountRefines` | llvm_lib/AggressiveInstCombine/AggressiveInstCombine.cpp:310-364 | At every width the guard accepts, the matched mask, shift and multiply expression is refined by the population count of its root, flags and poison included |
| `PopCount.IdiomCounts` | llvm_lib/AggressiveInstCombine/AggressiveInstCombine.cpp:299-309 | For every whole number of bytes below 32 and every input of that width, the four stages compute the number of set bits |
| `PopCount.PairStep` | llvm_lib/AggressiveInstCombine/AggressiveInstCombine.cpp:346-350 | Subtracting half of the odd bits leaves in every pair of bits the number of bits set there, no borrow crossing a pair |
| `PopCount.ByteStep` | llvm_lib/AggressiveInstCombine/AggressiveInstCombine.cpp:335-339 | Adding nibble counts and masking leaves every byte's own count, no carry crossing a byte |
| `PopCount.TopByte` | llvm_lib/AggressiveInstCombine/AggressiveInstCombine.cpp:332-334 | After the multiplication the top byte is the sum of all bytes, which stays below 256 |
| `Idioms.IdiomIsRecognised` | llvm_lib/AggressiveInstCombine/AggressiveInstCombine.cpp:318-358 | The idiom, with either order of its two sums and whatever flags and other uses its instructions have, is recognised with the right root exactly at the widths of the guard |
| `Idioms.RecognisedIsIdiom` | llvm_lib/AggressiveInstCombine/AggressiveInstCombine.cpp:318-358 | Nothing but the idiom is recognised |
| `MaskChains.FoldAnyOrAllBitsSet` | llvm_lib/AggressiveInstCombine/AggressiveInstCombine.cpp:266-297 | Folds exactly the chains over one source that are cut to their lowest bit, with exactly the bits of the chain as mask, and the masked compare refines the original at every width |
| `MaskChains.MatchAndOrChain` | llvm_lib/AggressiveInstCombine/AggressiveInstCombine.cpp:220-256 | Succeeds exactly on chains whose links all take a bit below the width from one source; root, mask and the and-one flag are then those of the chain on top of what the record held |
| `MaskChains.ChainMeans` | llvm_lib/AggressiveInstCombine/AggressiveInstCombine.cpp:220-256 | The lowest bit of an accepted chain is the conjunction or disjunction of the bits it takes, and a chain with an and-one is 0 or 1 |
| `MaskChains.MaskedBits` | llvm_lib/AggressiveInstCombine/AggressiveInstCombine.cpp:283-294 | Masking with the mask built from a set of bits gives the mask itself exactly if all those bits are set, and zero exactly if none is |
| `MaskChains.AndChainFolds` | llvm_lib/AggressiveInstCombine/AggressiveInstCombine.cpp:266-275 | An and-chain of any shape, in both orders of its operands, is folded exactly if one operand is an and with no other use, it is cut to its lowest bit somewhere, and all its bits are below the width |
| `MaskChains.CutAndChainFolds` | llvm_lib/AggressiveInstCombine/AggressiveInstCombine.cpp:266-275 | The same of an and-chain that is cut on top |
| `MaskChains.OrChainFolds` | llvm_lib/AggressiveInstCombine/AggressiveInstCombine.cpp:266-275 | An or-chain that is cut on top is folded exactly if it has no other use and all its bits are below the width |
| `FunnelShift.FoldRefines` | llvm_lib/AggressiveInstCombine/AggressiveInstCombine.cpp:77-196 | Whichever edge enters the phi, for every operand, every amount (zero, and at or above the width) and every outcome of the freeze, the intrinsic call refines the phi |
| `FunnelShift.FunnelPathRefines` | llvm_lib/AggressiveInstCombine/AggressiveInstCombine.cpp:93-121 | The or of two opposite shifts, in any operand order, is refined by the funnel shift in the matched direction |
| `FunnelShift.GuardPathRefines` | llvm_lib/AggressiveInstCombine/AggressiveInstCombine.cpp:163-173 | Where the guard has found the amount zero, the funnel shift returns its source provided the other operand is frozen, not poison, or the same |
| `FunnelShift.LeftHalves` | llvm_lib/AggressiveInstCombine/AggressiveInstCombine.cpp:99-108 | For amounts between zero and the width the or of the two shifted halves is the high word of the shifted double word |
| `FunnelShift.RightHalves` | llvm_lib/AggressiveInstCombine/AggressiveInstCombine.cpp:110-118 | The same for the right shift and the low word |
| `FunnelShift.GuardedShiftFolds` | llvm_lib/AggressiveInstCombine/AggressiveInstCombine.cpp:123-173 | The guarded shift, of any operands, is folded to the right call in both positions of the phi, with exactly one operand frozen when the guard hid its poison, if and only if the width is a power of two and both operands are available at the guard |
| `FunnelShift.FoldedIsGuarded` | llvm_lib/AggressiveInstCombine/AggressiveInstCombine.cpp:93-153 | Nothing but a guarded shift is folded |
| `FunnelShift.PowerOf2Iff` | llvm_lib/AggressiveInstCombine/AggressiveInstCombine.cpp:83-84 | The width test holds exactly of the powers of two |
| `DeadArgElimination.EliminateDeadArguments` | llvm_lib/IPO/DeadArgumentElimination.cpp:1087-1123 | Survey and rewriting together: live is least among the sets closed under the uses in the program's text; a parameter is kept exactly if it is live, and a component of a result exactly if it is live or a live parameter is marked as the result; for every function, arguments, primitives and fuel, outcome, output and live results agree with the original; functions with fixed signatures behave identically; a change is reported exactly if some function loses something |
| `DeadArgSurvey.DeadArgSurveyor.Survey` | llvm_lib/IPO/DeadArgumentElimination.cpp:1106-1107 | In whatever order the functions are surveyed, the live set at the end is the least one closed under fixed signatures and the uses in the program's text, and no postponed decision is keyed by a live value |
| `DeadArgSurvey.DrainedIsLeast` | llvm_lib/IPO/DeadArgumentElimination.cpp:640-731 | A drained state whose live values are all forced and whose other values have all their uses recorded is the least solution |
| `LiveUses.FactsAreUses` | llvm_lib/IPO/DeadArgumentElimination.cpp:380-607 | The uses that are surveyed are those of the text: a value has a live use exactly if some statement prints it, computes or branches with it, passes it as a live or variadic argument, or returns it as a live component, a whole result counting for each of its components and an extracted component for itself alone |
| `LiveUses.LiveIsUsed` | llvm_lib/IPO/DeadArgumentElimination.cpp:380-607 | In the least live set a value is live exactly if its function's signature is fixed or some statement uses it where it matters |
| `Liveness.LeastIsUnique` | llvm_lib/IPO/DeadArgumentElimination.cpp:1106-1107 | The least live set is unique, so the order of the survey does not matter |
| `DeadArgSurvey.DeadArgSurveyor.SurveyFunction` | llvm_lib/IPO/DeadArgumentElimination.cpp:488-650 | After a function's survey each of its arguments and results is settled: live because it must be, or not live with every use recorded as something that could make it so |
| `DeadArgSurvey.DeadArgSurveyor.SurveyCallers` | llvm_lib/IPO/DeadArgumentElimination.cpp:547-607 | The result liveness gathered over all call sites, with the shortcut once all are live, is right for every component: forced to be live, or with all demands noted |
| `DeadArgSurvey.DeadArgSurveyor.SurveyAggregateUse` | llvm_lib/IPO/DeadArgumentElimination.cpp:589-605 | A use of a whole result is charged to every component that is not yet live |
| `DeadArgSurvey.DeadArgSurveyor.SurveyUses` | llvm_lib/IPO/DeadArgumentElimination.cpp:467-480 | Stopping at the first live use loses nothing: the answer is live only if forced, and otherwise every demand is noted |
| `DeadArgSurvey.DeadArgSurveyor.SurveyUse` | llvm_lib/IPO/DeadArgumentElimination.cpp:380-458 | Live exactly if the use is live now; otherwise exactly the values it depends on are noted |
| `DeadArgSurvey.DeadArgSurveyor.MarkValue` | llvm_lib/IPO/DeadArgumentElimination.cpp:657-678 | A value surveyed as not live is not live yet (the source's own assertion); it becomes live at once if a noted value is live, else is filed under each of them |
| `DeadArgSurvey.DeadArgSurveyor.MarkFunctionLive` | llvm_lib/IPO/DeadArgumentElimination.cpp:684-695 | Pinning a function makes all its values live and drains the decisions waiting for them |
| `DeadArgSurvey.DeadArgSurveyor.MarkLive` | llvm_lib/IPO/DeadArgumentElimination.cpp:700-709 | Recursive marking terminates, keeps the invariant of the multimap, and leaves alone the entries that are being drained further up |
| `DeadArgSurvey.DeadArgSurveyor.PropagateLiveness` | llvm_lib/IPO/DeadArgumentElimination.cpp:717-731 | After draining, every value waiting for this one is live and the entries are gone |
| `DeadValues.Simulates` | llvm_lib/IPO/DeadArgumentElimination.cpp:736-1086 | Every body run in the rewritten program follows the original: same outcome and output, the same live results under their new numbers, for every fuel |
| `DeadValues.RunsAgree` | llvm_lib/IPO/DeadArgumentElimination.cpp:736-1086 | Any function called with its live arguments only does what it did with all of them |
| `DeadValues.PinnedRunsEqual` | llvm_lib/IPO/DeadArgumentElimination.cpp:736-740 | A function that may not be modified cannot be told from the original |
| `DeadValues.ArgumentsAgree` | llvm_lib/IPO/DeadArgumentElimination.cpp:896-926 | At a rewritten call site each live parameter receives, under its new number, the value it received before |
| `DeadValues.ReturnedAgrees` | llvm_lib/IPO/DeadArgumentElimination.cpp:1034-1074 | A returned whole result is either passed on or rebuilt from its live components, with the same live values |
| `DeadReturned.RunMasked` | llvm_lib/IPO/DeadArgumentElimination.cpp:736-1086 | Whatever is dropped, live or not, the rewritten program does what the original does with the dropped arguments and results undefined |
| `DeadReturned.PassKeepsMarkIff` | llvm_lib/IPO/DeadArgumentElimination.cpp:780-786 | A live parameter marked as the result is still the result in every run exactly if it is in every run of the original with the dropped values undefined; it certainly is if it was before and the result is live too |
| `DeadReturned.MarkStaysIff` | llvm_lib/IPO/DeadArgumentElimination.cpp:780-786 | The same for any choice of what is dropped that keeps the parameter and the result |
| `DeadReturned.LiveResultStays` | llvm_lib/IPO/DeadArgumentElimination.cpp:765-786 | The mark stays true if the result belongs to a closed set of values that are all kept |
| `DeadReturned.MarkBecomesFalse` | llvm_lib/IPO/DeadArgumentElimination.cpp:765-786 | A program whose marks are all true: one parameter is live, so its function's result is kept, but what the result comes from is dropped, and the marked function returns an undefined value |
| `SignatureRewrite.MappedProgramOk` | llvm_lib/IPO/DeadArgumentElimination.cpp:889-1075 | Parameters, call operands and result numbering stay aligned: the rewritten program is well-formed |
| `RewriteSteps.ProgramComposes` | llvm_lib/IPO/DeadArgumentElimination.cpp:1109-1113 | Rewriting function after function, each step touching all call sites, is rewriting all of them at once |
| `DeadArgElimination.DeadArgEliminator.RemoveDeadStuffFromFunction` | llvm_lib/IPO/DeadArgumentElimination.cpp:736-1086 | One step rewrites exactly this function's signature, body and call sites to its plan, reports a change exactly if something is dropped, and forgets only this function's liveness |
| `DeadArgElimination.DeadArgEliminator.PlanArguments` | llvm_lib/IPO/DeadArgumentElimination.cpp:745-777 | The loop finds the live arguments, their new places, and whether a live one is marked as being the result |
| `DeadArgElimination.DeadArgEliminator.PlanResults` | llvm_lib/IPO/DeadArgumentElimination.cpp:780-817 | NewRetIdxs numbers the live components in order and holds -1 for the others |
| `DeadArgElimination.KeepLiveOperands` | llvm_lib/IPO/DeadArgumentElimination.cpp:896-926 | The operands passed at a call site: the live ones in order, then the variadic ones |
| `DeadArgElimination.KeepLiveResults` | llvm_lib/IPO/DeadArgumentElimination.cpp:1049-1067 | The new result takes the components with a new number, in order |
| `DeadArgElimination.RewriteBody` | llvm_lib/IPO/DeadArgumentElimination.cpp:885-1075 | Walking a body with the tables gives the body the plan describes: operands, call sites and returns |
| `Keep.FilterAt` | llvm_lib/IPO/DeadArgumentElimination.cpp:806-817 | The new number of a kept position finds the same element in the compacted sequence |
| `Keep.NewIndexOrdered` | llvm_lib/IPO/DeadArgumentElimination.cpp:806-817 | Compacting keeps the order of what is kept |
| `SuspendCrossing.SuspendCrossingInfo.constructor` | llvm_lib/Coroutines/CoroFrame.cpp:199-300 | On exit, for every graph: Consumes[u] holds d exactly if d reaches u, and Kills[u] holds d exactly if some path from d to u meets a suspend or save block and afterwards no plain coro.end and no re-entry of d |
| `SuspendCrossing.SuspendCrossingInfo.Iterate` | llvm_lib/Coroutines/CoroFrame.cpp:234-297 | The do-while loop terminates although bits are reset, and ends in a state where no edge changes anything |
| `SuspendCrossing.SuspendCrossingInfo.PropagateEdge` | llvm_lib/Coroutines/CoroFrame.cpp:250-282 | One edge computes the new sets, reports a change exactly if they differ, and shrinks what is missing if so |
| `SuspendCrossing.EdgeGrows` | llvm_lib/Coroutines/CoroFrame.cpp:256-279 | The reset calls never take away a bit that was there before the edge was processed |
| `SuspendCrossing.EdgeKeepsInv` | llvm_lib/Coroutines/CoroFrame.cpp:256-279 | Every bit set along an edge is witnessed by a path |
| `SuspendCrossing.StableIsExact` | llvm_lib/Coroutines/CoroFrame.cpp:234-297 | A state that is witnessed by paths and stable under every edge is exact in both directions |
| `SuspendCrossing.SuspendCrossingInfo.HasPathCrossingSuspendPoint` | llvm_lib/Coroutines/CoroFrame.cpp:116-124 | The query answers whether a crossing path exists |
| `SlotSharing.SortBySize` | llvm_lib/Coroutines/CoroFrame.cpp:646-651 | Puts the allocas in an order that lists each once, sizes falling |
| `SlotSharing.ShareSlots` | llvm_lib/Coroutines/CoroFrame.cpp:573-684 | For allocas in any order: the slots partition them; in a slot no two interfere and the first member is large and aligned enough for all; with reuse on, sizes fall along the order used, and every slot before an alloca's own could not take it, for alignment or because of a member placed before; with reuse off every slot holds one |
| `SlotSharing.RenumberedPartition` | llvm_lib/Coroutines/CoroFrame.cpp:649-684 | Sorting first loses and doubles no alloca |
| `FrameLayout.FrameTypeBuilder.AddField` | llvm_lib/Coroutines/CoroFrame.cpp:490-533 | Header fields get the first aligned offset past the struct so far; zero-sized storage gets no field; spills alone have their type alignment capped |
| `FrameLayout.FrameTypeBuilder.AddFieldForAllocas` | llvm_lib/Coroutines/CoroFrame.cpp:573-704 | Each slot owns exactly one field, with the type and alignment of its first member, and every member is sent to it; a slot of zero-sized allocas adds no field and its members get id 0 |
| `FrameLayout.FrameTypeBuilder.Finish` | llvm_lib/Coroutines/CoroFrame.cpp:706-776 | Given any valid layout, the struct's own layout reproduces every assigned offset exactly when the struct is packed or no offset falls short of a type's natural alignment; without an alignment cap that is always |
| `CoroutineFrame.CappedSpillMisplaced` | llvm_lib/Coroutines/CoroFrame.cpp:509-513 | Through the builder itself: an alloca of 4 bytes aligned to 8 and an 8-byte spill capped to 4, laid out at 0 and 4; the struct stays unpacked and its own layout puts the spill at 8 |
| `StructLayout.FieldLands` | llvm_lib/Coroutines/CoroFrame.cpp:742-762 | Appending padding and a field puts the field at its offset exactly when the struct is packed or the offset suits the type's natural alignment |
| `FrameLayout.FrameIsSafe` | llvm_lib/Coroutines/CoroFrame.cpp:573-704 | Two interfering allocas never overlap in the frame, and each is aligned as it asks |
| `CoroutineFrame.EveryFieldPlaced` | llvm_lib/Coroutines/CoroFrame.cpp:709-719 | A valid layout leaves no field out |
| `CoroutineFrame.BuildFrame` | llvm_lib/Coroutines/CoroFrame.cpp:1095-1167 | The whole frame, for allocas in any order: leading fields, slots and spills have storage of their own, shared only by the members of a slot; each has the alignment asked for or that of its type, spills capped if there is a cap; header fields come in the order given, each at the first aligned offset past the one before, from 0; the struct is packed exactly if some offset does not suit its type's alignment; without a cap, or packed, or if the spills happen to suit, the struct's own layout has every leading field's and spill's type at its place; every id handed out names a field exactly if nothing is of size zero or something has a size |
| `CoroutineFrame.AddLeading` | llvm_lib/Coroutines/CoroFrame.cpp:1113-1137 | Every leading field of nonzero size has a field of its own with its type, alignment and place in the header, and there is no other field; header fields are packed in order |
| `CoroutineFrame.SuitsIff` | llvm_lib/Coroutines/CoroFrame.cpp:725-733 | All fields suit their types' alignment exactly if the leading fields, the first members of the slots and the spills do |
| `StructLayout.PaddingIsNeeded` | llvm_lib/Coroutines/CoroFrame.cpp:744-755 | Padding is put in exactly where the field would otherwise miss its offset |
| `CoroutineFrame.OnlyEmptyAlloca` | llvm_lib/Coroutines/CoroFrame.cpp:498-502 | A frame of one zero-sized alloca hands out field 0 and has no field, which updateLayoutIndex would then read |
| `CoroutineFrame.AllocaFields` | llvm_lib/Coroutines/CoroFrame.cpp:573-704 | The allocas bring a field exactly if one of them has a size, and every id they get is 0 or names a field |
| `PrefixSet.SafePaths.PrefixIn` | llvm_lib/IPO/ArgumentPromotion.cpp:508-520 | The binary search answers exactly whether some element of the set is a prefix of the path, the empty set and the all-greater case included |
| `PrefixSet.SafePaths.MarkIndicesSafe` | llvm_lib/IPO/ArgumentPromotion.cpp:527-556 | The set stays sorted and prefix-free; afterwards it covers exactly what it covered plus all extensions of the path; its members are exactly the old ones not extending the path, and the path |
| `PrefixSet.LessMeans` | llvm_lib/IPO/ArgumentPromotion.cpp:508-520 | Paths are ordered as in a dictionary |
| `PrefixSet.Between` | llvm_lib/IPO/ArgumentPromotion.cpp:549-555 | Extensions of a path are contiguous in lexicographic order |
| `PrefixSet.OnlyLowMatters` | llvm_lib/IPO/ArgumentPromotion.cpp:510-519 | In a prefix-free sorted set only the last element not above the path can be its prefix |
| `PrefixSet.MarkedCovers` | llvm_lib/IPO/ArgumentPromotion.cpp:545-555 | Inserting a path and erasing the run of its extensions changes the covered paths by exactly its extensions |
| `PromotionSafety.PromotionCheck.IsSafeToPromote` | llvm_lib/IPO/ArgumentPromotion.cpp:563-724 | Decides the reference definition of the uses, and lists all the loads they lead to, in order |
| `PromotionSafety.PromotionCheck.SurveyEntry` | llvm_lib/IPO/ArgumentPromotion.cpp:615-652 | The entry block leaves the set covering exactly the paths safe in every caller, or rejects |
| `PromotionSafety.PromotionCheck.CheckUses` | llvm_lib/IPO/ArgumentPromotion.cpp:654-724 | The scan over all uses, which learns the base type on the way, decides the reference definition and collects every load, direct or behind a GEP, once and in order |
| `PromotionRules.AcceptedIff` | llvm_lib/IPO/ArgumentPromotion.cpp:563-724 | The reference definition accepts exactly the arguments whose accesses, GEPs that nothing uses aside, are all plain loads at constant indices and of one type, each safe in every caller because the pointer is always valid or the entry block loads from a part of the path, and not too many different ones; a direct load is one behind the index 0 |
| `PromotionSafety.LoadsOfLists` | llvm_lib/IPO/ArgumentPromotion.cpp:654-694 | The loads collected are all the loads at the uses, each from one spot, in the order of the uses and of their users |
| `PromotionSafety.AllLoadsIsUnique` | llvm_lib/IPO/ArgumentPromotion.cpp:654-694 | There is only one such list |
| `PromotionRewrite.WalksAgree` | llvm_lib/IPO/ArgumentPromotion.cpp:370-472 | Whatever memory holds, a rewired use in the callee reads the parameter into which the caller loaded from the use's own path of the same actual argument |
| `PromotionRewrite.KeptAgree` | llvm_lib/IPO/ArgumentPromotion.cpp:253-278 | An unchanged argument is passed as it was; of a byval struct, parameter i carries what memory holds at field i |
| `PromotionRewrite.NewParams` | llvm_lib/IPO/ArgumentPromotion.cpp:137-211 | The first walk lists the new parameters and leaves for each promoted argument the ordered table of its accesses |
| `PromotionRewrite.NewOperands` | llvm_lib/IPO/ArgumentPromotion.cpp:253-327 | The second walk passes, position by position, what the new parameters call for, then the variadic operands |
| `PromotionRewrite.RewireAll` | llvm_lib/IPO/ArgumentPromotion.cpp:368-472 | The third walk sends every live use of every promoted argument, whatever dead GEPs it has beside them, to a parameter for its own path, and unchanged and byval arguments to their own parameters |
| `PromotionRewrite.AcceptedIsOneType` | llvm_lib/IPO/ArgumentPromotion.cpp:597-676 | An argument the safety check accepts is accessed at one type, dead GEPs aside, which is what the rewiring relies on |
| `PromotionTransparency.InverseWalk` | llvm_lib/IPO/ArgumentPromotion.cpp:750-753 | The depth-first walk against the edges succeeds exactly if no block newly reached modifies the location, and then has visited exactly what comes before the start |
| `PromotionTransparency.CheckLoads` | llvm_lib/IPO/ArgumentPromotion.cpp:733-759 | The check over all loads accepts exactly if each load's own block is clear and so is every block before it that no earlier load led to |
| `PromotionTransparency.AcceptanceIsSafeIff` | llvm_lib/IPO/ArgumentPromotion.cpp:733-759 | Acceptance rules out every store before every load, whatever the blocks modify, exactly when each block was first looked at for a load from the same location as every load it precedes |
| `PromotionTransparency.SecondLocationMissed` | llvm_lib/IPO/ArgumentPromotion.cpp:733-759 | Two loads from different locations in the block after the entry: a store in the entry block to the second location is not noticed |
| `PromotionTransparency.OneLocationIsSafe` | llvm_lib/IPO/ArgumentPromotion.cpp:733-759 | With loads from a single location the shared set of visited blocks hides nothing |
| `PromotionTransparency.IsSafeToPromoteArgument` | llvm_lib/IPO/ArgumentPromotion.cpp:563-760 | Both phases together decide whether the uses allow promotion, as the comments put it, and the acceptance of the loads, direct or behind GEPs, that stand at these uses |
| `PromotionMemory.ClearIff` | llvm_lib/IPO/ArgumentPromotion.cpp:733-759 | No store comes before any load exactly if in every execution of the blocks every load yields what its location held when the function was entered |
| `PromotionMemory.AcceptedYieldIff` | llvm_lib/IPO/ArgumentPromotion.cpp:733-759 | Acceptance makes every load yield what was there on entry, whatever the blocks modify, exactly when each block was first looked at for the location of every load it precedes |
| `PromotionMemory.PromotedLoadsAgree` | llvm_lib/IPO/ArgumentPromotion.cpp:563-760 | Check and rewriting together: each load that stands at a use of an accepted argument, directly or behind a GEP, is rewired to a parameter, and in every run of the callee that gets to the load, the value the caller loaded before the call and passed there is what the load yields |
| `PromotionRewrite.Rewire` | llvm_lib/IPO/ArgumentPromotion.cpp:444-452 | The search for an access path in the table, which ignores the type, always ends at the use's own entry |

## Left out

- Vector types, insertelement and extractelement in TruncInstCombine: they add cases without adding depth.
- Undef values (as opposed to poison), poison-generating flags on casts and constant expressions: an instruction's value is undefined behaviour, poison or one integer.
- Known-bits and sign-bit analysis: an oracle on program, context instruction and value, required to be right either wherever an operand is used or wherever the context instruction is reached.
- TruncInstCombine.TruncInstCombiner.Run: for facts that hold only in context, the exact condition is stated for one reduction (TruncImplements.ContextSufficesIff); for a whole run only the sufficient one that each division stands with the casts computed from it, because the exact one of a later reduction speaks of a program that only the earlier ones make. As in the source, the trunc that cuts a reduced dag down to the old trunc's width gets no turn, and one that had its turn may become improvable later.
- Control flow in the truncation pass: instructions are a map in which a definition ranks before its uses; every name has a place, and a run is a set of places reached together with the values of phis, loads, calls and arguments, which are opaque.
- The constant folding of the instruction builder beyond operations whose operands are all constants.
- TruncInstCombine.TruncInstCombiner.CheckUsers: enumerates the users of a node by name order instead of use-list order; the answer does not depend on it.
- The truncation pass's iteration order over InstInfoMap is insertion order, as in the source; name transfer and statistics are not modelled.
- Values matched in the bit tricks are compared as trees, the source compares them as pointers; the model therefore matches at least as much, and refinement is proved for all of it.
- Idioms.TryToRecognizePopCount: splat vector types are not covered, only integers.
- FunnelShift.FoldGuardedFunnelShift: dominance and "never poison" are parameters; the branch condition's operands are taken to be available where the branch is.
- Deleting dead varargs (DeadArgumentElimination.cpp:124) and passing undef for unused arguments of visible functions (line 258): separate passes over the module that do not touch the liveness solution.
- DeadReturned.PassKeepsMarkIff: the condition speaks of runs with undefined values; the one that can be read off the live set, that the result is live, is sufficient only.
- The reasons for which a function is pinned or keeps its arguments (linkage, address taken, inalloca, naked, musttail, variadic) are two flags of a function; attributes, metadata, invokes and operand bundles are not modelled.
- insertvalue chains in dead argument elimination: an aggregate is built in one step from its parts, which gives the same use positions; chains through other instructions are not modelled.
- A struct with a single component and that component itself are one thing in the call language; the pass unwraps such a struct.
- The call language has integers, an undefined value, output, branches and recursion; memory and exceptions are left out, and primitives are arbitrary pure functions of their operands. Runs are compared at equal fuel, which bounds the depth of calls.
- DeadArgSurvey.DeadArgSurveyor.SurveyCallers: visits the uses of all call sites in one loop; the source nests a loop over call sites and leaves the inner one once all results are live.
- The wrappers of the suspend-crossing query (isDefinitionAcrossSuspend): they only choose the block to ask about.
- StackLifetime and performOptimizedStructLayout: the first is a symmetric interference relation, the second any function meeting the contract of a valid layout.
- The order among allocas of equal size: the sort of the source does not fix it, the model's keeps the given one.
- FrameLayout.FrameTypeBuilder.Finish: under the async alignment cap an unpacked struct may place a field elsewhere than assigned; the exact condition is stated instead.
- CoroutineFrame.BuildFrame: the suspend index field and the promise are leading fields among others; the ABI-specific rounding of the frame size is left out.
- PromotionTransparency.CheckLoads: alias analysis is a parameter that says which block may modify which location, and whether a load's own block does so before it.
- Byval promotion decisions (dense packing, padding), recursion over the call graph, debug information and alignment in ArgumentPromotion.
- Ranges of GEP indices: a path is a sequence of unbounded integers.
- Attributor, FunctionAttrs, FunctionImport, the other passes and the firmware under src/.
