# Attic shogi engine: verified models

A shogi engine keeps fast structures that must agree exactly with a simple definition,
runs a worker-thread protocol, and has search loops that must end for any evaluation.
This project models those parts in Dafny and proves what they promise. `dafny verify
dfyconfig.toml` checks all of it.

**Incremental evaluation** (`Shogi`, `Features`, `MoveDelta`, `FeatureSpace`,
`FeatureMeaning`, `Symmetry`, `Transformer`, `IndexDiff`, `Finny`, `Accumulator`, `TreeWalk`). The slow definition of an
accumulator half is the bias vector plus, in wrapping 16-bit arithmetic, the weight column
of each active feature. The fast form patches the parent's half by the few columns a move
changes, or, when that side's king moved, patches a cache entry some other position left
behind. The result: over any script of moves, take-backs and passed turns, with the cache in
any state, the live slot is what a refresh from scratch would give, lane by lane. It rests on
piece conservation, on the move's columns being exactly the multiset difference of the two
full scans, and on column sums depending on multisets only.

**Move picker** (`MoveSort`, `SortFacts`, `TwinPicker`, `PickerSteps`, `PickerPhases`,
`MovePicker`, `PickerFacts`, `PickerRuns`, `PickerOrder`). The staged picker works in place on one buffer.
The multi-list twin that the source keeps for comparison is the specification. Each call on
the buffer yields what the twin yields, whatever the scores are at that call and whenever
quiets are skipped; what comes out over whole schedules, and in which order, is then written
down without the twin.

**Worker pool** (`WorkerPool`, `PoolInvariant`, `PoolRuns`, `PoolHolding`, `PoolTeardown`). Driver,
coordinator and any number of helpers are threads of atomic steps with explicit locks, waits,
notifications and handles on the transposition table. Safety, the life of a slot, the absence
of lost wakeups and deadlocks, and a bound on every command hold in all interleavings; a reply
that is held back waits for the driver, and once let go it comes.

**Search skeleton** (`SearchCore`, `SearchRoot`, `Search`, `SearchFacts`, `StoppedCapture`,
`TiedLine`). Evaluations, the table, pruning decisions that come from tuned constants, the clock and the stop
flag are left open; windows, depths, plies, stack cells, table stores and the order of the calls
are the source's. For any table the mutual recursion ends on the measure (remaining plies, depth),
every unaborted principal-variation node returns a proper value and holds a line of legal moves
through all re-entries on its stack cell, and the aspiration loop ends. Score and line belong
together: a score inside its window that is no mate is the static value of the position at the
end of the line, negated once per move, up to the move handed out. As long as no entry beyond
the mate bounds has been read, every value is within the bounds its ply and window allow (but for
the mark of a stopped node in check), and what is stored before a stop is within the mate bounds,
so that what is read at any other ply is an answer there again.

**Smaller cores** (`History`, `BookPick`, `Leb128`, `NetworkFile`, `NetworkRoundTrip`,
`NumaPlacement`, `NumaText`, `NumaConfig`, `NumaBundle`). Gravity updates under racing threads,
the unbiased one-pass book choice, signed LEB128 (section 7.6 of DWARF Version 5) and the framing
of the network file, greedy thread placement, and the text form of a CPU layout.

Objects the source updates in place are classes here, loops are loops, and each method is
proved against a specification function whose own properties are lemmas.

## Where the code does not meet a stated promise

- `crates/attic-protocol/src/driver.rs:1737-1741` says that every teardown joins the
  coordinator first. The command loop returns early when reading a command or writing a reply
  fails (lines 314-343), and then the pool is dropped without that join (lines 1946-1950).
  `PoolTeardown.HangsExactly` says exactly when this can hang: if and only if a job is still to be
  handed out or to be finished. `PoolTeardown.AbandonMayHang` gives a reachable instance.
- The entry assertion of `search` on alpha (`crates/attic-search/src/qsearch.rs:2338`) does not
  hold for every singular re-entry: `SearchFacts.SingularWindowDepth` gives the exact depth up to
  which it does. The proofs of the search therefore admit the lower windows; in a release
  build, where the assertion is not compiled, nothing else depends on it.
- ProbCut stores a value without asking whether the search has been stopped
  (`crates/attic-search/src/qsearch.rs:2761-2772`); the move loops do ask (lines 1344-1347 and
  3140-3145), and no other store of the search puts a searched value into the table after a stop
  (`Search.Worker.Store` asks for that). A quiescence node in check that is stopped before its
  first evasion has been weighed returns -INF. `StoppedCapture.MarkMayReturn` says exactly for
  which captures some stop brings this mark to ProbCut: the confirming depth is 0 or less, and the
  capture gives a check that can be evaded, below the maximal ply, in a node that is neither drawn
  nor answered by the table. `StoppedCapture.MarkStored` is such a capture; a later probe reads a
  mate nobody found (`SearchFacts.AbortedMarkReads`), also in the next search, since the table is
  only cleared for a new game. At greater depth a stop leaves other bounds nobody searched, such
  as the score of a draw (`StoppedCapture.DrawStored`).
- A quiescence node that fails low may return and store an upper bound beyond mate
  (`StoppedCapture.UpperBoundBeyondMate`), even the number that marks no value
  (`StoppedCapture.UpperBoundIsNone`). It never matches a window it could harm
  (`SearchCore.StoredAnswers`, `SearchCore.TableRoundTrip`).
- Score and line part company when a move of equal value takes over, which the node count allows
  now and then (`crates/attic-search/src/qsearch.rs:3203-3213`): such a move has only been searched
  far enough to see that it is no better, and `TiedLine.TieLosesLine` shows one whose line ends
  in a position with quite another value. `Search.Worker.RunWorker` promises that the two belong
  together on all searches in which this does not happen.
- A captured king would be encoded at a hand plane whose base is the largest 64-bit number. With
  the wrapping addition of a release build this is the padding index, which is what the exact
  difference needs (`MoveDelta.KingSlotIsPadding`); a debug build would stop on the overflow.
- `Hand::increment` stops at a cap, so undoing a capture is exact only while the slot has room
  (`Shogi.UndoExact`); with one set of pieces it always has (`Shogi.UndoRestores`).
- Mirroring the files changes a perspective's features when its king stands on the centre file,
  unless the position is its own mirror image (`Symmetry.MirrorPreservesFeatures`).

## Model

| member | source | states |
|---|---|---|
| `Shogi.MoveConserves` | crates/attic-state/src/position.rs:386-535 | For every kind, board plus both hands hold as many pieces after a move as before; only a captured king leaves the game |
| `Shogi.MoveConservesPieces` | crates/attic-state/src/position.rs:386-535 | The number of pieces in the game drops by one exactly when a king is captured |
| `Shogi.SoundAfterMove` | crates/attic-state/src/position.rs:386-535 | A position with at most one full set of pieces stays one under every move |
| `Shogi.RoomForVictim` | crates/attic-state/src/hand.rs:22-37 | In such a position the capped hand slot always has room for the captured piece |
| `Shogi.AtMostForty` | crates/attic-eval/src/features.rs:240-287 | Such a position holds at most forty pieces |
| `Shogi.UndoExact` | crates/attic-state/src/position.rs:565-610 | Undoing a move restores board, hands and turn if and only if the touched hand slot did not run into its cap |
| `Shogi.UndoRestores` | crates/attic-state/src/position.rs:565-610 | Undo is exact in every sound position |
| `Shogi.KingStays` | crates/attic-state/src/position.rs:386-535 | A king that neither moves nor is captured keeps its square |
| `Shogi.KingSurvives` | crates/attic-state/src/position.rs:386-535 | A side keeps a king under every move that does not capture it |
| `Features.PushHand` | crates/attic-eval/src/features.rs:269-280 | The hand loop appends exactly the slots 1 to count of each kind, in plane order |
| `Features.ActiveFeaturesInto` | crates/attic-eval/src/features.rs:240-287 | The 81-square scan, both hands and the padding loop produce the specified list, in order |
| `MoveDelta.RemovedWereThere` | crates/attic-eval/src/features.rs:475-565 | A column the delta removes is one the position before the move has |
| `MoveDelta.KingSlotIsPadding` | crates/attic-eval/src/features.rs:175-181 | A king in hand would be encoded at the padding index: the plane base wraps round to zero |
| `MoveDelta.MoveChanges` | crates/attic-eval/src/features.rs:475-565 | Index by index, features after plus removed equals features before plus added; a captured king accounts for one padding index |
| `MoveDelta.DeltaIsExact` | crates/attic-eval/src/features.rs:475-565 | For any fixed view and any move, before minus removed plus added is after, as multisets of forty, padding included |
| `MoveDelta.HalfIsExact` | crates/attic-eval/src/features.rs:305-312 | For a perspective whose king neither moves nor is captured, the incremental half is exact; drops, promotions, captures of promoted pieces and of the enemy king included |
| `MoveDelta.ComputeDelta` | crates/attic-eval/src/features.rs:475-565 | The code that fills the two halves yields the specified delta |
| `MoveDelta.EncodeHalf` | crates/attic-eval/src/features.rs:540-560 | One perspective of it, or the request for a full refresh when its own king moves |
| `MoveDelta.TimesActive` | crates/attic-eval/src/features.rs:282-287 | How often each index occurs among the forty, the padding counted by the missing pieces |
| `FeatureSpace.SquareCodeInjective` | crates/attic-eval/src/features.rs:97-124 | Perspective and mirror map the squares one to one |
| `FeatureSpace.PieceIndexInjective` | crates/attic-eval/src/features.rs:163-187 | Equal board indices mean the same square and the same plane |
| `FeatureSpace.HandIndexInjective` | crates/attic-eval/src/features.rs:175-187 | Equal hand indices mean the same owner, kind and slot |
| `FeatureSpace.PieceIsNotHand` | crates/attic-eval/src/features.rs:135-187 | Board and hand indices never coincide |
| `FeatureSpace.RealMember` | crates/attic-eval/src/features.rs:240-287 | An index is reported if and only if some piece on board or in hand has it |
| `FeatureSpace.RealDistinct` | crates/attic-eval/src/features.rs:240-287 | No piece index occurs twice |
| `FeatureSpace.ActiveFeaturesShape` | crates/attic-eval/src/features.rs:240-287 | Exactly forty indices, all below 73305, only the padding repeated, as often as pieces are missing |
| `FeatureMeaning.CodesSeen` | crates/attic-eval/src/features.rs:97-124 | The code of a square: rotated for White, then mirrored when that side sees its king on the sixth file or beyond; file times nine plus rank |
| `FeatureMeaning.BoardMeaning` | crates/attic-eval/src/features.rs:163-172 | What a board index means: 1629 times the king code, plus 90, plus 81 times twice the place of the piece in pawn, lance, knight, silver, gold, bishop, horse, rook, dragon (promoted minors being gold), one more for an enemy piece, plus the square code; both kings share the last plane |
| `FeatureMeaning.HandMeaning` | crates/attic-eval/src/features.rs:175-187 | What a hand index means: the slots of all kinds before, each kind taking its population and one for either side, plus the count |
| `FeatureMeaning.PaddingMeaning` | crates/attic-eval/src/features.rs:282-287 | The padding index is the first of the king's block, where a pawn counted zero times would be |
| `FeatureMeaning.ReportedExactly` | crates/attic-eval/src/features.rs:240-287 | An index is among the forty if and only if it has one of these meanings on the position |
| `Symmetry.RotateTwice` | crates/attic-search/src/book.rs:510-536 | Turning the board round twice gives the position back |
| `Symmetry.RotationSwapsPerspectives` | crates/attic-search/src/book.rs:506-536 | Turning the board round with colours swapped exchanges the two perspectives' feature multisets |
| `Symmetry.FlippedPosition` | crates/attic-search/src/book.rs:510-536 | The book's loops over squares and hands build exactly the turned position |
| `Symmetry.MirrorPreservesFeatures` | crates/attic-eval/src/features.rs:105-124 | Mirroring the files keeps a perspective's features if and only if its king is off the centre file or the position is its own mirror image on the planes |
| `Symmetry.SameFeaturesPlaneSymmetric` | crates/attic-eval/src/features.rs:105-124 | With the king on the centre file, equal features force the position to be its own mirror image |
| `Transformer.Rows` | crates/attic-eval/src/transformer.rs:246-258 | The weights of one feature stand together, lane by lane |
| `Transformer.SumOfBag` | crates/attic-eval/src/transformer.rs:246-258 | The column sum depends only on how often each column occurs |
| `Transformer.SumExchange` | crates/attic-eval/src/transformer.rs:262-282 | Exchanging columns exchanges their contributions |
| `Transformer.AddFeatures` | crates/attic-eval/src/simd/scalar.rs:10-19 | The kernel adds every listed column to every lane, wrapping in 16 bits |
| `Transformer.SubFeatures` | crates/attic-eval/src/simd/scalar.rs:21-30 | The kernel subtracts every listed column, wrapping likewise |
| `Transformer.FusedAddSub` | crates/attic-eval/src/simd/scalar.rs:32-70 | The fused one-pass kernels agree with adding and subtracting in turn |
| `Transformer.ApplyDiff` | crates/attic-eval/src/transformer.rs:262-282 | Whichever kernel the list lengths select, each lane changes by added minus removed, wrapped once |
| `Transformer.RefreshPerspective` | crates/attic-eval/src/transformer.rs:246-258 | Biases plus the columns of the list, from whatever was in the buffer |
| `Transformer.PatchedIsFresh` | crates/attic-eval/src/transformer.rs:192-226 | A from-scratch half patched by an exact delta is the from-scratch half of the new list, bit for bit |
| `IndexDiff.SortUnstable` | crates/attic-eval/src/features.rs:358-359 | A sorted permutation of the list |
| `IndexDiff.ChangedIndices` | crates/attic-eval/src/features.rs:343-384 | Sorting and merging yields both multiset differences |
| `Finny.FinnyCache.constructor` | crates/attic-eval/src/finny.rs:107-120 | A cold cache: every bucket has its own entry and buffer, none initialised |
| `Finny.FinnyCache.Invalidate` | crates/attic-eval/src/finny.rs:122-130 | After a network change no entry counts as initialised |
| `Finny.RebuildEntry` | crates/attic-eval/src/finny.rs:138-192 | A warm entry is patched and a cold one rebuilt, with the same result |
| `Finny.FinnyCache.RefreshInto` | crates/attic-eval/src/finny.rs:138-192 | Whatever unrelated position or other network left the bucket, the copied half is the from-scratch half of this position, and the cache stays valid |
| `Accumulators.EvaluableAfter` | crates/attic-search/src/qsearch.rs:1006-1033 | A position with both kings and at most one set of pieces stays one after a move that takes no king |
| `Accumulators.NullMoveKeepsHalves` | crates/attic-state/src/position.rs:616-676 | Passing the turn changes neither half |
| `Accumulators.Accumulator.Refresh` | crates/attic-eval/src/transformer.rs:74-94 | Both halves from scratch |
| `Accumulators.DeriveHalf` | crates/attic-eval/src/transformer.rs:201-226 | One half of the child, patched or rebuilt through the cache, is the from-scratch half |
| `Accumulators.DeriveIntoCached` | crates/attic-eval/src/transformer.rs:201-226 | Both halves of the child are, and the parent is not written |
| `Accumulators.AccumulatorStack.constructor` | crates/attic-search/src/qsearch.rs:625-700 | Separate slots and a cold cache |
| `Accumulators.AccumulatorStack.Seed` | crates/attic-search/src/qsearch.rs:995-1004 | A refresh of slot zero makes the stack valid for the new root, also under another network with the old cache |
| `Accumulators.AccumulatorStack.Push` | crates/attic-search/src/qsearch.rs:1006-1031 | The child's slot becomes live and every slot below still stands for its position |
| `Accumulators.AccumulatorStack.Pop` | crates/attic-search/src/qsearch.rs:1033-1036 | The parent's slot is live again without recomputation |
| `Accumulators.AccumulatorStack.NullMove` | crates/attic-search/src/qsearch.rs:2646-2672 | The slot in place already stands for the position with the turn passed, both ways |
| `TreeWalk.Step` | crates/attic-search/src/qsearch.rs:1006-1036 | One play, take-back, pass or unpass on the real board, with undo records only, follows the walk on positions |
| `TreeWalk.WalkOn` | crates/attic-search/src/qsearch.rs:995-1036 | Any script of plays, take-backs, passes and unpasses ends with the live slot equal to the from-scratch refresh of the position reached |
| `TreeWalk.Walk` | crates/attic-search/src/qsearch.rs:995-1036 | The same from a new root with the cache cold, warm from other walks, or left by another network |
| `MoveSort.InsertInPlace` | crates/attic-search/src/movepick.rs:128-136 | Shifting smaller elements up and filling the gap inserts stably, leaving the rest of the array alone |
| `MoveSort.Promote` | crates/attic-search/src/movepick.rs:128-136 | A promotion swaps the first element passed over to the end |
| `MoveSort.PartialInsertionSort` | crates/attic-search/src/movepick.rs:121-139 | The in-place sort of a segment is the specified partial sort; the rest of the buffer is untouched |
| `SortFacts.SortDescSorts` | crates/attic-search/src/movepick.rs:117-120 | The stable sort is a descending permutation |
| `SortFacts.SortIsStable` | crates/attic-search/src/movepick.rs:117-120 | Elements of one value keep their input order |
| `SortFacts.PartialSortOrders` | crates/attic-search/src/movepick.rs:117-139 | The partial sort permutes, and the elements that reach the limit come first, exactly those, in stable descending order |
| `SortFacts.FullSortIsStableSort` | crates/attic-search/src/movepick.rs:49-55 | With a limit no element misses, it is the whole stable sort |
| `SortFacts.SortCommutesWithFilter` | crates/attic-search/src/movepick.rs:49-55 | Dropping illegal captures before the full sort gives the same order as after |
| `PickerSteps.WalkIsNext` | crates/attic-search/src/movepick.rs:436-453 | A walk to the first passing element takes the next one of the filtered list |
| `PickerSteps.WalkIsScan` | crates/attic-search/src/movepick.rs:436-453 | With illegal moves and the table move still in the buffer it is the twin's scan of its list |
| `PickerSteps.CompactWinner` | crates/attic-search/src/movepick.rs:515-530 | Passing a winning capture keeps the losers met so far in front, in order |
| `PickerSteps.CompactLoser` | crates/attic-search/src/movepick.rs:515-530 | Swapping a loser to the front extends that region and keeps the rest |
| `MovePickers.ScoreInPlace` | crates/attic-search/src/movepick.rs:456-478 | Scoring a segment sets each value from its move and nothing else |
| `MovePickers.Retain` | crates/attic-search/src/movepick.rs:388-390 | The in-place filter leaves the legal moves but the table move, in order |
| `MovePickers.MovePicker.constructor` | crates/attic-search/src/movepick.rs:306-430 | A new picker matches a new twin; nothing is generated yet |
| `MovePickers.MovePicker.GenerateCaptureList` | crates/attic-search/src/movepick.rs:379-398 | The buffer starts with the filtered capture or evasion list |
| `MovePickers.MovePicker.Select` | crates/attic-search/src/movepick.rs:436-453 | The first move of the segment that passes the test and is not the table move, or none |
| `MovePickers.MovePicker.SelectGoodCapture` | crates/attic-search/src/movepick.rs:515-530 | The same while compacting the losers in place |
| `MovePickers.MovePicker.LoadCaptures` | crates/attic-search/src/movepick.rs:502-508 | Generation, scoring and full sort leave the stable order of the filtered list |
| `MovePickers.MovePicker.LoadQuiets` | crates/attic-search/src/movepick.rs:534-564 | The raw quiets are scored and partially sorted behind the captures, which stay |
| `MovePickers.MovePicker.SkipQuietMoves` | crates/attic-search/src/movepick.rs:655-657 | Setting the flag between any two calls keeps picker and twin together |
| `MovePickers.MovePicker.Step` | crates/attic-search/src/movepick.rs:482-651 | One turn of the stage loop is one step of the twin, and the stages run out |
| `MovePickers.MovePicker.NextMove` | crates/attic-search/src/movepick.rs:482-651 | The single buffer yields what the multi-list twin yields, for every kind, table move, depth, scores, exchange and legality predicate; the order itself is `PickerOrder.WholeRun` |
| `PickerFacts.NextAccounts` | crates/attic-search/src/movepick.rs:910-979 | One call takes exactly one move from those due, or finds none due |
| `PickerRuns.PlayAccounts` | crates/attic-search/src/movepick.rs:910-979 | Over any schedule of calls and skips, what was due is what came out, what was skipped and what is still due |
| `PickerRuns.PlayEnds` | crates/attic-search/src/movepick.rs:910-979 | More calls than moves due reach the end |
| `PickerRuns.DoneStays` | crates/attic-search/src/movepick.rs:910-979 | An exhausted picker stays exhausted under every schedule |
| `PickerRuns.NextKeepsLine` | crates/attic-search/src/movepick.rs:910-979 | A call takes the first capture in line or leaves the line alone |
| `PickerRuns.CapturesInOrder` | crates/attic-search/src/movepick.rs:515-606 | Whenever quiets are skipped, every capture still comes, in the same order |
| `PickerRuns.CaptureOrder` | crates/attic-search/src/movepick.rs:502-530 | That order is the winners, then the losers, each in the order of the stable sort |
| `PickerRuns.NoQuietAfterSkip` | crates/attic-search/src/movepick.rs:655-657 | After a skip no schedule brings out another quiet |
| `PickerRuns.TableMoveFirst` | crates/attic-search/src/movepick.rs:306-378 | An accepted table move comes first |
| `PickerRuns.OwedAtStart` | crates/attic-search/src/movepick.rs:306-430 | What a new picker of each kind owes: the table move once, any other move as often as it is generated, if it is legal and, in ProbCut, passes the exchange threshold |
| `PickerRuns.EveryMoveOnce` | crates/attic-search/src/movepick.rs:482-651 | For each of the four kinds of picker, without skips the table move and every legal generated move (above the exchange threshold in ProbCut) come out exactly once, and nothing else |
| `PickerRuns.OnlyLegalMoves` | crates/attic-search/src/movepick.rs:44-46 | Whatever the kind of picker and the schedule, everything that comes out is legal |
| `PickerRuns.Drive` | crates/attic-search/src/movepick.rs:482-657 | Over every schedule the one-buffer picker gives the twin's answers |
| `PickerOrder.Bar` | crates/attic-search/src/movepick.rs:515-518 | The exchange a capture has to win: the negated value over 18, rounded towards zero |
| `PickerOrder.NextTakes` | crates/attic-search/src/movepick.rs:482-651 | In every stage a call takes the first move of what is left, the quiets being scored at the call that needs them |
| `PickerOrder.SkipLeaves` | crates/attic-search/src/movepick.rs:655-657 | A request to skip takes the quiets away from what is left and nothing else |
| `PickerOrder.WholeRun` | crates/attic-search/src/movepick.rs:482-657 | The whole emission of all four kinds over every schedule, in order: table move, winners, quiets above -14000, losers, the other quiets, with the scores of the calls that read them, every comparison written out; from the first skip on the same without the quiets; then none |
| `PickerOrder.DriveNew` | crates/attic-search/src/movepick.rs:306-657 | The one-buffer picker, from its construction, answers exactly that |
| `PoolInvariant.StepKeeps` | crates/attic-protocol/src/driver.rs:1742-1860 | Every step of driver, coordinator or helper keeps the protocol invariant |
| `PoolInvariant.SoleOwner` | crates/attic-protocol/src/driver.rs:379-407 | After the join the driver holds the only handle on the transposition table |
| `PoolRuns.InvAlways` | crates/attic-protocol/src/driver.rs:1742-1935 | The invariant holds along every interleaving |
| `PoolRuns.NeverPanics` | crates/attic-protocol/src/driver.rs:1790-1822 | In every reachable state no `unreachable!` arm and no failed sole-ownership check has been hit |
| `PoolRuns.SlotLife` | crates/attic-protocol/src/driver.rs:1737-1753 | A slot only moves on to its next state; a job and the order to exit only overwrite a parked slot |
| `PoolRuns.ReplacedWhenDead` | crates/attic-protocol/src/driver.rs:1903-1935 | The pool is replaced only when every helper thread has ended |
| `PoolRuns.EachResultOnce` | crates/attic-protocol/src/driver.rs:2424-2434 | The collected results are one from each worker, of this search, in order |
| `PoolRuns.NoLostWakeup` | crates/attic-protocol/src/driver.rs:1773-1812 | Nobody sleeps on a condition that holds unless the notification is still to come |
| `PoolRuns.NoDeadlock` | crates/attic-protocol/src/driver.rs:379-407 | While a command is incomplete some thread can take a step, without relying on a spurious wakeup |
| `PoolRuns.ThreadsProgress` | crates/attic-protocol/src/driver.rs:1798-1860 | Every step of a helper or the coordinator leaves less to do |
| `PoolRuns.StepProgresses` | crates/attic-protocol/src/driver.rs:1798-1935 | While a command is under way every step brings its end nearer |
| `PoolRuns.CommandsComplete` | crates/attic-protocol/src/driver.rs:379-407 | Under every scheduling a command completes within a bounded number of steps; what `stop` does to a reply held back is `PoolHolding.StopBringsReply` |
| `PoolHolding.StopReleases` | crates/attic-protocol/src/driver.rs:1295-1301 | `stop` lets a held reply go and changes nothing else |
| `PoolHolding.PonderHitReleases` | crates/attic-protocol/src/driver.rs:1314-1330 | `ponderhit` lets it go if and only if the search is not infinite as well; without a ponder signal it is a `stop` |
| `PoolHolding.ReleasedThroughout` | crates/attic-protocol/src/driver.rs:2418-2428 | Once let go it stays so on every run until the next search starts |
| `PoolHolding.ThreadsRunOut` | crates/attic-protocol/src/driver.rs:1798-1860 | Under every scheduling helpers and coordinator take only so many steps on their own |
| `PoolHolding.ReplyComes` | crates/attic-protocol/src/driver.rs:2418-2434 | A reply that is not held back comes, with no more help from the driver: some thread can take a step until the search has ended, and only so many steps are left |
| `PoolHolding.StopBringsReply` | crates/attic-protocol/src/driver.rs:1295-1301 | So after every `stop`, in every reachable state with a search |
| `PoolHolding.PonderHitBringsReply` | crates/attic-protocol/src/driver.rs:1314-1330 | And after every `ponderhit` that ends the hold |
| `PoolHolding.HeldBack` | crates/attic-protocol/src/driver.rs:2418-2426 | As long as the driver neither stops nor reports a ponder hit, a coordinator holding its reply stays where it is, whatever the others do |
| `PoolHolding.HeldFromStart` | crates/attic-protocol/src/driver.rs:1645-1680 | A search started to ponder or without an end holds its reply on every run until the driver has spoken; any other is free to reply |
| `PoolHolding.NeverEarly` | crates/attic-protocol/src/driver.rs:2418-2434 | In every reachable state no searched reply has passed its hold while it is held, and whoever waits for workers has told them to stop |
| `PoolTeardown.LostDooms` | crates/attic-protocol/src/driver.rs:1924-1936 | Once an order to exit has been overwritten, no continuation lets the pool's shutdown finish |
| `PoolTeardown.HangsExactly` | crates/attic-protocol/src/driver.rs:1946-1950 | Dropping the pool without joining first can hang if and only if a job is not yet handed out or not yet finished; after a join it cannot |
| `PoolTeardown.AbandonMayHang` | crates/attic-protocol/src/driver.rs:314-343 | A reachable state in which the early return of the command loop on an I/O error can hang |
| `SearchCore.PlayedReady` | crates/attic-search/src/qsearch.rs:1006-1031 | A legal move keeps one accumulator slot per ply at most, the live one standing for the board |
| `SearchCore.PlayedBack` | crates/attic-search/src/qsearch.rs:3136-3138 | Undoing it restores the board and the line |
| `SearchCore.MeanBetween` | crates/attic-search/src/qsearch.rs:3239-3241 | The softened fail-high value, truncating division included, lies between beta and the value |
| `SearchCore.AnswerStorable` | crates/attic-search/src/qsearch.rs:1242-1252 | A value inside the bounds of its ply and window goes into the table as a bound that does not claim more than a mate on the spot |
| `SearchCore.StoredAnswers` | crates/attic-search/src/qsearch.rs:2450-2456 | An entry within the mate bounds, from whatever ply, passes a null-window cutoff at any other ply only with a value strictly between -INF and INF that claims no mate faster than the ply allows |
| `SearchCore.CutsExactly` | crates/attic-search/src/qsearch.rs:1168-1174 | When a table value ends a quiescence node outside the principal variation: any depth from 0 on, and a bound that vouches for the side of beta it lies on |
| `SearchCore.TableRoundTrip` | crates/attic-search/src/qsearch.rs:117-140 | Storing and reading at one ply gives the value back unless it has turned into the mark for no value, which no lower or exact bound does |
| `SearchCore.NarrowedAnswer` | crates/attic-search/src/qsearch.rs:2391-2397 | An answer under the window narrowed by mate distance is one under the caller's window |
| `SearchRoot.AimAspires` | crates/attic-search/src/qsearch.rs:1624-1630 | The first aspiration window is well formed for all statistics a root move can have, after searches of any table: with an average below all values the margin is wide |
| `SearchRoot.AimSurrounds` | crates/attic-search/src/qsearch.rs:1624-1630 | It surrounds the average, each side at the margin unless the full window ends before; the margin is 5 and the mean square over 9000 |
| `SearchRoot.AverageHalves` | crates/attic-search/src/qsearch.rs:3152-3166 | An average moves to the middle between itself and the value, rounded towards zero |
| `SearchRoot.WidenProgresses` | crates/attic-search/src/qsearch.rs:1676-1691 | The next window takes in the failed value, strictly on the failing side: after a fail low beta is the old alpha, after a fail high alpha stays inside the old window; the margin stays within 282805, and every fail brings the full window nearer |
| `SearchRoot.StatisticsStay` | crates/attic-search/src/qsearch.rs:3152-3166 | Averaging in any 16-bit value below INF, both marks of an empty average included, keeps the mean square below a line over the average |
| `SearchRoot.FreshMoveOk` | crates/attic-search/src/root.rs:70-86 | A root move not yet searched has a legal line, and marks that count as statistics |
| `SearchRoot.SortRootSorts` | crates/attic-search/src/qsearch.rs:147-153 | The sort of the root list: by falling score, then by falling previous score, a permutation, and stable |
| `SearchRoot.SortPartFirst` | crates/attic-search/src/qsearch.rs:1661 | Sorting one part brings its best score to its front and leaves the rest |
| `SearchRoot.RootScoresNext` | crates/attic-search/src/qsearch.rs:3147-3201 | After each move of the root alpha is the best value so far or where it started, no searched move has a higher score, and one has it if alpha was raised |
| `SearchRoot.RootScoresEnd` | crates/attic-search/src/qsearch.rs:3147-3201 | When every move has been searched and alpha was raised, the best score of the open part is that value |
| `Search.Worker.Make` | crates/attic-search/src/qsearch.rs:1006-1031 | Move and push extend the walk by one ply |
| `Search.Worker.Unmake` | crates/attic-search/src/qsearch.rs:1033-1036 | Undo and pop restore it exactly |
| `Search.Worker.UpdatePv` | crates/attic-search/src/qsearch.rs:1401-1411 | The move before the child's line is a legal line; shallower cells are untouched |
| `Search.Worker.TracedAbove` | crates/attic-search/src/qsearch.rs:1401-1411 | If the value of a child is the static value at the end of its line, the negated value is that at the end of the longer line |
| `Search.Worker.StoreValue` | crates/attic-search/src/qsearch.rs:117-126 | A searched value is stored as a lower bound exactly if it reached beta, as an exact one only in a PV node, mates counted from the node |
| `Search.Worker.QSearch` | crates/attic-search/src/qsearch.rs:1102-1397 | For any scores and any table: ends, restores the board and slot, spares the lines above, and unaborted in a PV node returns a proper value and leaves a legal line; a value inside the window that is no mate is the static value of the position at the end of that line, negated once per move. Unless an entry beyond the mate bounds has been read, the value claims no mate faster than the ply allows; -INF comes back exactly from a stop before the first evasion is weighed |
| `Search.Worker.QMoves` | crates/attic-search/src/qsearch.rs:1263-1397 | The same of its move loop, which ends because no move is taken twice |
| `Search.Worker.StandPat` | crates/attic-search/src/qsearch.rs:1195-1255 | The static value is the evaluation, or the table value if its bound lies on the right side of it; mate in one and standing pat answer within the bounds of the ply, half way to beta; otherwise it stays below beta and is not decisive |
| `Search.Worker.QVisit` | crates/attic-search/src/qsearch.rs:1275-1366 | A move passed over or searched keeps the window open and, unless an entry beyond the mate bounds has been read, the best value within the bounds of the ply |
| `Search.Worker.QFinal` | crates/attic-search/src/qsearch.rs:1369-1396 | After the loop: a value within the bounds of ply and window, with a stopped loop in check the one exception, and nothing beyond the mate bounds stored; both unless such an entry has been read |
| `Search.Worker.QOne` | crates/attic-search/src/qsearch.rs:1324-1366 | A move made, searched, taken back and weighed; nothing is weighed after a stop |
| `Search.Worker.QAccept` | crates/attic-search/src/qsearch.rs:1350-1366 | What one value does: best is the maximum, alpha rises exactly inside the window, a value of beta or more ends the loop, and the line is replaced exactly when alpha is beaten |
| `Search.Worker.Search` | crates/attic-search/src/qsearch.rs:2313-3363 | For any scores and any table: ends, keeps board, slot, verification ply, marks of excluded moves and shallower lines, and in an unaborted PV node returns a proper value and below the root leaves a legal line; if no move of equal value took over, a value inside the window that is no mate is the static value of the position at the end of that line, negated once per move. Until an entry beyond the mate bounds is read, values are within the bounds of ply and window, and until a stop no such entry is stored |
| `Search.Worker.SearchNode` | crates/attic-search/src/qsearch.rs:2403-3363 | The same past the draw checks |
| `Search.Worker.Settle` | crates/attic-search/src/qsearch.rs:2447-2516 | A table cutoff exactly when depth, bound and expectation allow it, and else a mate in one or a declared win: a small number always, and a value within the bounds of the ply unless an entry beyond the mate bounds has been read |
| `Search.Worker.Prune` | crates/attic-search/src/qsearch.rs:2517-2780 | The pruning steps in order: the depth stays from 1 to 246, no line changes, and what they return is within the bounds of the ply as in a search; conditions on tuned numbers are open choices |
| `Search.Worker.Hindsight` | crates/attic-search/src/qsearch.rs:2599-2608 | One ply more after a reduction of 3 or more unless things got worse, one less after 2 or more when both sides stand well; at least 1 |
| `Search.Worker.NullMove` | crates/attic-search/src/qsearch.rs:2634-2706 | Null move and the same-ply verification search: taken only in a cut node with no move excluded, from the verification ply on; at depth 16 and more only if the verification reaches beta; no line changes and the verification ply is restored |
| `Search.Worker.TryNull` | crates/attic-search/src/qsearch.rs:2646-2672 | Passing, searching and unpassing restore everything, and the value is the negated answer of the reply |
| `Search.Worker.ProbCut` | crates/attic-search/src/qsearch.rs:2708-2780 | Tried only from depth 3 on, without a decisive beta and with no table value below the raised beta; what it returns is from beta up and no win, and no line changes |
| `Search.Worker.ProbCutMoves` | crates/attic-search/src/qsearch.rs:2718-2779 | The capture loop ends, returns a value from beta up that is no win, and changes no line, although it clears the PV flag |
| `Search.Worker.TryCapture` | crates/attic-search/src/qsearch.rs:2735-2760 | Under every stop schedule INF comes back only if the confirming search is off and the capture gives a check that can be evaded, in a node neither drawn, too deep nor answered by the table; and then it does if the second check stops. A stop at the first check brings the score of a draw |
| `Search.Worker.CaptureAndStore` | crates/attic-search/src/qsearch.rs:2761-2772 | After a stop a capture that beats the raised beta is stored all the same; under those conditions with an entry beyond the mate bounds |
| `StoppedCapture.MarkMayReturn` | crates/attic-search/src/qsearch.rs:2735-2760 | In any place of any game some stop brings the mark INF back for a capture if and only if a condition on the position after it, its ply and depth and its table entry holds, known before it is tried |
| `StoppedCapture.MarkStored` | crates/attic-search/src/qsearch.rs:2761-2772 | A rook taking a pawn beside the king, at depth 3 under beta 0, stopped at the first evasion: INF is stored as a lower bound |
| `StoppedCapture.DrawStored` | crates/attic-search/src/qsearch.rs:2761-2772 | The same capture under beta -300, at any depth from 3 on, stopped at its own check: the score of a draw is stored as a lower bound of a position nobody searched |
| `StoppedCapture.TwoMovesPlay` | crates/attic-search/src/qsearch.rs:2718-2760 | There are rules under which the position of these two examples plays as told |
| `Search.Worker.Store` | crates/attic-search/src/qsearch.rs:3140-3145 | Every other store in the search is of a value that was not searched, or comes before any stop |
| `StoppedCapture.FutileBeyondMate` | crates/attic-search/src/qsearch.rs:1293-1316 | The futility step lifts the best value beyond the mate at its ply exactly when both alpha and the futility base are |
| `StoppedCapture.UpperBoundBeyondMate` | crates/attic-search/src/qsearch.rs:1293-1396 | A quiescence node that fails low with 31980 at ply 24 and stores 32004 as an upper bound, its window inherited from mate distance at ply 18 |
| `StoppedCapture.UpperBoundIsNone` | crates/attic-search/src/qsearch.rs:1293-1396 | Another one, whose stored number is the mark of no value |
| `Search.Worker.SearchMoves` | crates/attic-search/src/qsearch.rs:2797-3363 | The move loop: ends, restores everything, keeps root lines and, unaborted, the PV line legal, with values as in a search |
| `Search.Worker.SearchNext` | crates/attic-search/src/qsearch.rs:2818-3232 | One turn: a further legal move, not taken before, is searched, or the loop ends; below the root, with no move excluded, it ends without a counted move only if there is no legal one |
| `Search.Worker.Finish` | crates/attic-search/src/qsearch.rs:3234-3345 | A finished loop gives a value within the bounds of ply and window and stores nothing beyond the mate bounds, both unless such an entry has been read |
| `Search.Worker.SearchOne` | crates/attic-search/src/qsearch.rs:2818-3232 | One move of it |
| `Search.Worker.SearchCounted` | crates/attic-search/src/qsearch.rs:2918-3232 | One move that is not skipped, extended or not |
| `Search.Worker.Singular` | crates/attic-search/src/qsearch.rs:2918-2996 | The re-entry on the same stack cell takes the excluded mark back and changes no line; its value extends the table move and the node below the singular bound, answers for the node from beta up, and else may shorten the move |
| `Search.Worker.SearchIt` | crates/attic-search/src/qsearch.rs:2998-3232 | Make, search, undo, root statistics and acceptance |
| `Search.Worker.Decide` | crates/attic-search/src/qsearch.rs:3203-3223 | A move becomes the best one exactly if it beats best value and alpha, or equals the best value when the node count allows; then best is its value, beta or more ends the loop, and else alpha is raised to it and two plies go below depth 14 |
| `Search.Worker.Accept` | crates/attic-search/src/qsearch.rs:3203-3232 | What one value does: best is the maximum, beta or more ends the loop, alpha rises inside the window and two plies go below depth 14, the line becomes the move before the child line when alpha is beaten, and then, or when a move of equal value takes over, is legal |
| `TiedLine.TieLosesLine` | crates/attic-search/src/qsearch.rs:3203-3223 | A move of equal value that takes over brings a line whose end has nothing to do with the value |
| `SearchRoot.RootAfterOk` | crates/attic-search/src/qsearch.rs:3147-3201 | Every root move keeps a legal line from the root, a proper score and statistics that aim at a window |
| `Search.Worker.SearchChild` | crates/attic-search/src/qsearch.rs:3045-3134 | Late-move reduction, re-search and full window: in a PV node the child's line is legal, and a value inside the window that is no mate is the static value at its end |
| `Search.Worker.Reduced` | crates/attic-search/src/qsearch.rs:3045-3090 | The reduced searches leave every line alone |
| `Search.Worker.FullWindow` | crates/attic-search/src/qsearch.rs:3112-3134 | The full-window search starts from a cleared line and leaves a legal one with the same property |
| `Search.Worker.FinalValue` | crates/attic-search/src/qsearch.rs:3237-3250 | The value of a finished loop: the best one below beta, softened but not below beta above it, alpha or mate without a counted move; mated below the root only without a legal move |
| `Search.Worker.SearchLine` | crates/attic-search/src/qsearch.rs:1624-1692 | From any table the aspiration loop ends, and unaborted only with alpha < value < beta; the first move of the open part then has that value as its score, with the line it comes from, unless a win can be declared at the root |
| `Search.Worker.SearchWindow` | crates/attic-search/src/qsearch.rs:1639-1661 | One root search and the stable sort: every root move's line stays legal and none of the open part has a higher score than its first; if the value fell inside the window, it is that move's score and the static value at the end of its line, unless a win can be declared at the root |
| `Search.Worker.SearchLines` | crates/attic-search/src/qsearch.rs:1617-1720 | All lines of one iteration: unaborted, the first move of the list has the highest score; with one line it has the value of the iteration, with its line |
| `Search.Worker.RunWorker` | crates/attic-search/src/qsearch.rs:1494-1876 | From any table iterative deepening ends for any scores and clock; the move handed out leads a legal line and has the highest score of the last completed iteration; with one line that is its value, and, mates and moves of equal value aside, the static value of the position at the end of the line handed out, negated once per move. No bound beyond mate is stored unless one was read or the search was stopped; time management is an open choice |
| `SearchFacts.ScriptReachesBoard` | crates/attic-search/src/qsearch.rs:1006-1036 | The pushes, pops and passes a search has made so far are a tree walk that ends on its board |
| `SearchFacts.FollowScript` | crates/attic-search/src/qsearch.rs:972-1000 | An accumulator stack that makes these pushes and pops holds the from-scratch halves at every evaluation |
| `SearchFacts.SingularWindowDepth` | crates/attic-search/src/qsearch.rs:2338-2339 | The singular re-entry meets the entry assertion on alpha for all table values if and only if the depth is at most 227, or 108 with the wide margin |
| `SearchFacts.AbortedMarkReads` | crates/attic-search/src/qsearch.rs:2761-2772 | The mark INF stored by ProbCut is beyond the mate bounds: at any ply it reads as a win nobody found or as no value, and at or above its own ply as INF or more |
| `History.GravityWithin` | crates/attic-search/src/history.rs:59-67 | The gravity update keeps an entry within [-D, D], truncating division and both signs included |
| `History.GravityMoves` | crates/attic-search/src/history.rs:59-67 | A bonus never lowers an entry, a malus never raises one |
| `History.GravityPulls` | crates/attic-search/src/history.rs:59-67 | The update meets that law, the sign of the rounding included |
| `History.PulledUnique` | crates/attic-search/src/history.rs:59-67 | The law leaves only one value |
| `History.GravityCorners` | crates/attic-search/src/history.rs:59-67 | From 0 an entry takes the bonus; at the limit it takes no more of the same sign; a bonus of the limit or more fills it |
| `History.UndisturbedUpdate` | crates/attic-search/src/history.rs:293-305 | A load and a store of one thread with nothing between make one such update |
| `History.RacesStayBounded` | crates/attic-search/src/history.rs:293-305 | Under every interleaving of separate loads and stores, lost updates included, every entry stays within [-D, D] |
| `History.MaskIsRemainder` | crates/attic-search/src/history.rs:392-395 | Masking with a power of two less one takes the remainder |
| `History.PowersMultiply` | crates/attic-search/src/history.rs:340-347 | A power-of-two thread count gives power-of-two table sizes |
| `History.SharedHistories.constructor` | crates/attic-search/src/history.rs:340-359 | The tables have the promised sizes and start at 0, the pawn table at -1238 |
| `History.SharedHistories.CorrectionCells` | crates/attic-search/src/history.rs:392-395 | Every key, colour and channel has a cell in range, shared exactly when slot, colour and channel agree |
| `History.SharedHistories.PawnCells` | crates/attic-search/src/history.rs:415-418 | The same of plane, piece and square |
| `History.SharedHistories.CorrectionUpdate` | crates/attic-search/src/history.rs:405-411 | One cell changes, pulled by the bonus: the new value times D is the old one times D minus the magnitude of the clamped bonus, plus the clamped bonus times D, up to less than D, rounded towards zero; all others stay |
| `History.SharedHistories.PawnUpdate` | crates/attic-search/src/history.rs:427-433 | The same for the pawn table |
| `BookPick.WeightedPick` | crates/attic-search/src/book.rs:328-342 | The one-pass loop picks the last candidate whose draw fell inside its weight |
| `BookPick.DrawsAreAll` | crates/attic-search/src/book.rs:331-342 | The counted list holds exactly the possible draws of a pass |
| `BookPick.DrawsDistinct` | crates/attic-search/src/book.rs:331-342 | Each of them once |
| `BookPick.Unbiased` | crates/attic-search/src/book.rs:331-342 | Draws that end on candidate i, times the total weight, equal its weight times all draws |
| `BookPick.ChoiceFollowsCounts` | crates/attic-search/src/book.rs:331-342 | A candidate without a count is never chosen beside one with a count; with no counts at all the pick is uniform |
| `Leb128.ReadSignedLeb128` | crates/attic-eval/src/loader.rs:177-202 | The decoding loop in 64-bit arithmetic is the specified reader, errors included |
| `Leb128.RoundTrip` | crates/attic-eval/src/loader.rs:177-202 | Decoding the code of any 64-bit value, up to ten bytes, returns it and stops right behind it, whatever stands around it |
| `Leb128.ThreeBytes` | crates/attic-eval/src/loader.rs:124-126 | A 16-bit value takes at most three bytes |
| `Leb128.TakeStable` | crates/attic-eval/src/loader.rs:177-202 | What follows a value does not change how it is read |
| `Leb128.ReadsAs` | crates/attic-eval/src/loader.rs:177-202 | What every sequence of bytes is read as, shortest code or not: the sum of its digits, less the next power if the seventh bit of the last byte is set and the word has room, in 64 bits; exactly which inputs are truncated and which exceed 64 bits |
| `NetworkFile.ValuesRoundTrip` | crates/attic-eval/src/loader.rs:505-530 | A sequence of encoded values is read back exactly |
| `NetworkFile.BlockRoundTrip` | crates/attic-eval/src/loader.rs:505-515 | An encoded block is read back exactly, consumed exactly and within the size bound, anywhere in a file |
| `NetworkFile.LeRoundTrip` | crates/attic-eval/src/loader.rs:268-271 | Little-endian words are read back exactly |
| `NetworkFile.AcceptedFilesArePrefixFree` | crates/attic-eval/src/loader.rs:50-75 | No proper extension, hence no proper prefix, of an accepted file is accepted |
| `NetworkRoundTrip.FileRoundTrip` | crates/attic-eval/src/loader.rs:505-560 | A whole file written from a network of the right dimensions is accepted and read back as that network, whatever its hashes |
| `NetworkRoundTrip.AcceptedExactly` | crates/attic-eval/src/loader.rs:50-110 | Exactly which files are accepted and as which network: version word, hash, name, hash, two framed payloads that carry the halved values, and the layer stacks, with nothing left over; so an accepted file starts with the bytes of the version |
| `NetworkFile.ByteReader.ReadSlice` | crates/attic-eval/src/loader.rs:250-266 | A slice advances the position, a short read leaves it |
| `NetworkFile.ByteReader.ReadU32` | crates/attic-eval/src/loader.rs:268-271 | A little-endian word likewise |
| `NetworkFile.ByteReader.ReadBlockInto` | crates/attic-eval/src/loader.rs:114-159 | Reading a block into the output array does what the block specification says, each error included |
| `NetworkFile.DecodeInto` | crates/attic-eval/src/loader.rs:142-151 | The slot loop writes the values in order or stops at the first error |
| `NumaPlacement.LeastFull` | crates/attic-numa/src/lib.rs:327-335 | The scan finds the node least full with one more thread, the lowest index among equals, fills being exact fractions |
| `NumaPlacement.PlaceOne` | crates/attic-numa/src/lib.rs:325-340 | One thread more, on that node, keeps the fills balanced |
| `NumaPlacement.Distribute` | crates/attic-numa/src/lib.rs:314-341 | Every thread is placed by the greedy rule; no used node is fuller than any other with one more, fills being exact fractions |
| `NumaPlacement.BalancedIsOptimal` | crates/attic-numa/src/lib.rs:310-314 | No placement of as many threads has a lower maximum fill |
| `NumaText.SplitJoin` | crates/attic-numa/src/lib.rs:441-478 | Splitting what was joined gives the pieces back |
| `NumaText.EntryRoundTrip` | crates/attic-numa/src/lib.rs:506-538 | A printed number or range is read back as the same indices |
| `NumaText.ExpandCompress` | crates/attic-numa/src/lib.rs:441-478 | Compressing into ranges and expanding again is the identity |
| `NumaText.NodeRoundTrip` | crates/attic-numa/src/lib.rs:441-538 | A printed node is read back as the same list |
| `NumaText.ParseSizeExactly` | crates/attic-numa/src/lib.rs:494-502 | Exactly which texts are read as which number: white space, then digits, then anything that does not begin with a digit, below two to the 64 |
| `NumaText.TextRoundTrip` | crates/attic-numa/src/lib.rs:441-538 | A printed layout is read back as the same groups |
| `NumaConfigs.NumaConfig.AddCpuToNode` | crates/attic-numa/src/lib.rs:396-413 | Refused without change exactly when the CPU has a node; the reverse map stays the exact inverse |
| `NumaConfigs.NumaConfig.AddGroup` | crates/attic-numa/src/lib.rs:133-140 | A group is added whole or stops at the first CPU that has a node already, and names it |
| `NumaConfigs.NumaConfig.FromString` | crates/attic-numa/src/lib.rs:127-145 | Parsing fails exactly when a CPU repeats, with the first that does; otherwise each node holds its group and the reverse map is the inverse |
| `NumaConfigs.NumaConfig.Display` | crates/attic-numa/src/lib.rs:441-478 | The loops print the specified text |
| `NumaConfigs.DisplayNode` | crates/attic-numa/src/lib.rs:450-472 | One node, as ranges at the ends of its runs |
| `NumaConfigs.AscendingUnique` | crates/attic-numa/src/lib.rs:88-95 | An ordered set is determined by its elements |
| `NumaConfigs.PrintThenRead` | crates/attic-numa/src/lib.rs:441-444 | Reading the printed form of any layout gives the same nodes in the same order |
| `NumaBundle.Bundle` | crates/attic-numa/src/lib.rs:666-685 | The result is what the passes of the specification make of the list: from the left a pair that fits is merged and not looked at again, until a pass changes nothing; every CPU and its order stay, the size is exceeded only by an unmerged domain, and no two neighbours fit |
| `NumaBundle.BundlePass` | crates/attic-numa/src/lib.rs:667-680 | One in-place pass is that pass of the specification |
| `NumaBundle.NothingFits` | crates/attic-numa/src/lib.rs:681-683 | A pass that changes nothing has found no two neighbours that fit |
| `NumaBundle.FewBundles` | crates/attic-numa/src/lib.rs:653-655 | So there are fewer than twice as many bundles as the CPUs could fill, and one |

## Left out

- Move generation, exchange evaluation, 1-ply mate, repetition and declaration: their answers are parameters or left open. The picker takes any lists and predicates; the search assumes that legal moves are playable, never take a king and number at most 593.
- The transposition table: each node meets any 16-bit value with any bound, depth and move, whoever stored it; which entry is replaced is not modelled.
- Search.Worker.CheckTime: does not model the countdown of up to 512 calls between two looks at the stop flag, because under a node limit below 2048 every check looks; any check may stop the search.
- The evaluation's own value: any function of the position and the number of checks so far, in the clamped range. That the slot read is the one for the board is proved.
- Search.Worker.Search: does not model the values of margins, reductions, extensions' margins and history updates, so nothing is claimed of playing strength; the conditions that only combine such numbers are open choices.
- Search.Worker.Shallow: skipping a move and the futility value are open choices, because they are tuned constants.
- Search.Worker.Prune: does not model the tuned conditions under which a node is pruned, because they are numbers to be measured; they are open choices.
- Search.Worker.RunWorker: does not model time management, iteration output, pondering budgets and the early stop on a mate distance, which are one open choice at the end of an iteration.
- Search.Worker.Pick: the search takes any legal move it has not had, and until quiets may be skipped gives up only when it has had them all; order and completeness are the picker's and are proved there, with `legal` the legal moves the generators give.
- Search.Worker.RunWorker: ties score and line together with one line asked for and no win to be declared at the root, because further lines and a declared win leave older scores in the list; the root list is any list of distinct legal moves.
- Search.Worker.Accept: when a move of equal value takes over is left open, because it is read from the node count and the depth of the iteration.
- Search.Worker.Settle: whether a win can be declared is any predicate of the position.
- Worker voting, `bestmove` output and the ponder move.
- FinnyCache: equal tokens are taken to mean equal weights, as the source does.
- SIMD kernels, alignment and arenas: a kernel is its scalar form, one wrapping operation per lane and column. The lane count is a parameter; the index arithmetic has its real constants.
- `derive_into` and `update_after_move`: the variants without a cache add no other case.
- The packed encodings of squares, pieces and moves, bitboards, hash keys and check information.
- The growth of the picker's buffer: it is allocated at its largest.
- Weak memory: atomics are sequentially consistent, with load and store as separate steps.
- A thread that panics, and the poisoning of a mutex by it.
- NumaPlacement.LeastFull: compares fills as exact fractions; rounding of the 32-bit quotients is not modelled.
- NumaPlacement.Distribute: likewise compares exact fractions.
- Grouping cache domains by system node, the sysfs reads before it, affinity calls and first-touch placement: effects of the operating system.
- NetworkFile: the layer arrays are kept as bytes; converting them to numbers is a fixed reinterpretation. Reads beyond 64-bit offsets do not occur.
- The filters on book candidates, book files and their records: the weighted choice takes what they leave.
- USI input and output, options, keep-alive, SHA-256 and Zobrist tables.
