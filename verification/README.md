# A verified model of PhoenixGo's board, search tree and pause protocol

PhoenixGo plays Go with a tree search over an incremental board. This project models the three
places where it is easiest to be wrong, and proves them correct in Dafny:

1. **The incremental board.** `GoState` never recomputes a group. It keeps each group as a linked
   list, as a union-find tree, as three bit sets and as counters, in records taken from a recycled
   pool, and it keeps a hash, a ko point and a map of legal points beside them. `GoBoard.GoState`
   is that object, with the same arrays, updated in place; `GoBoard.GoState.Move` is proved to
   refine the plain rule of Go (`GoGame.Step`): put the stone down, take off the opponent groups
   left without liberties.
2. **The shared search tree.** Any number of threads walk down one tree, claim leaves by
   compare-and-swap, publish children and back values up. `SearchRun` is a transition system with
   one step for each access to a shared field. In every state of every run the edges are legal
   moves, virtual losses are exact, and nodes are expanded once; when no simulation is in flight the
   counters add up. `TreeHeap` proves the same object's pointer work: backing up, re-rooting and
   deleting.
3. **The protocols around it.** `Conductor` proves that when `Join` returns no thread is inside the
   search, without deadlock; `EvalQueue` that no evaluation task is lost or answered twice, and
   exactly how far timeouts can take the queue above its capacity.

Groups, captures and ko are proved for any finite symmetric neighbour relation without isolated
points (`GoRules.ValidGraph`). `Grid.GridIsValid` shows that the square board of every size from
two up is one, so everything holds on 19 by 19.

## Files

| file | contents |
|---|---|
| Rules.dfy, Placement.dfy, Position.dfy | the plain game: groups, captures, ko, legal moves, one step |
| RuleFacts.dfy | the rules restated point by point and over whole games |
| Zobrist.dfy | hashes and how single updates change them |
| Bits.dfy, Blocks.dfy | 64-bit words as point sets, block records |
| Chains.dfy, Merging.dfy, Moving.dfy, Allocator.dfy | lists and forest, merging, capturing, the pool, on values |
| GoState.dfy | the board object and its methods |
| Scoring.dfy, Grid.dfy, LibertyWalk.dfy | area scoring, the grid and its tables, the lowest-bit walk |
| SearchTree.dfy, Flow.dfy, TreeTotals.dfy | tree shape and legality, the law of the counters, its consequences |
| SearchRun.dfy, SearchSteps.dfy, SearchSafety.dfy | the transition system, the invariant, the theorems about runs |
| Expansion.dfy | the children of a node, from the board's legal map |
| SearchGame.dfy | the engine's board, its moves and stored evaluations in every run |
| TreeHeap.dfy, HeapModel.dfy | tree nodes on the heap, and how they agree with the search model |
| EngineRun.dfy | search and pause protocol together |
| Conductor.dfy, EvalQueue.dfy, EarlyStop.dfy, FeatureBits.dfy | pause protocol, task queue, early stop, feature bits |

## How the model relates to the code

- The ghost field `groups` lists the stones of each live block from head to tail. `Valid` ties every
  other representation to it and to the board; `Abs` is the position the board stands for.
- `Move` and its helpers follow the order of the source. Loop bodies are methods of their own
  because each is proved by itself.
- The legal map of a position was computed before the position's own hash was recorded, so a
  `Position` has two hash sets: `seen` for the map, `history` for what has been recorded since.
- In `SearchRun` the sequences `ownVisits`, `ownTotals`, `ownLosses` and `ownSizes` and the fields
  `depth` and `pos` are history: no step looks at them to decide what to do with a program field.
- The root is expanded by `InitRoot` with a backup that no `Select` went before, so the root's
  virtual loss is one less for each such backup. The claims on virtual loss are about the other nodes.
- `SearchRun.Alone` says that the controller changes the tree only while every thread is idle. The
  program never tests this. `EngineRun` runs the pause protocol and the search together, with
  the tests of the program only (`SearchRun.Guard`), and proves that each of its runs is a run of
  the search model.
- The documentation says of `early_stop` that the result would not change any more (README.md:223).
  For the choice by visit counts this is proved for every run of at most the estimated number of
  simulations; the estimate itself can be too low.

`dafny verify dfyconfig.toml` checks the whole project.

## Model

| member | source | states |
|---|---|---|
| `GoRules.GroupIsChain` | src/go_state.cc:141-146 | The two definitions of a group agree: a maximal connected one-coloured set is what walking from any of its stones reaches. |
| `GoRules.ChainIsGroup` | src/go_state.cc:141-146 | The stones reached by walking form a maximal connected one-coloured set, for any symmetric neighbour relation. |
| `GoRules.JoinConnected` | src/go_state.h:171-184 | Two connected sets with an edge between them are connected together: merging blocks yields one group. |
| `Placement.GroupBesideStone` | src/go_state.cc:528-539 | A group of the old board not next to the played stone is still a group after it. |
| `Placement.CapturedInAtari` | src/go_state.cc:529-536 | When all groups are alive, a move captures exactly the opponent groups whose only liberty is the played point. |
| `Placement.CapturedGroups` | src/go_state.cc:397-417 | The captured stones are whole opponent groups, and the played stone is not among them. |
| `Placement.StoneGroupAfterPlay` | src/go_state.cc:377-396 | The new stone belongs to the same group before and after the captures are taken off. |
| `Placement.EmptyNeighbourIsSafe` | src/go_state.cc:305-314 | A move with an empty neighbour is never suicide, so the shortcut of the legal map is sound. |
| `Placement.AliveAfterMove` | src/go_state.cc:397-427 | After a move that is not suicide every group on the board has a liberty. |
| `RuleFacts.PlayPointwise` | src/go_state.cc:397-431 | Each point after a move: the stone, emptied opponent stones of groups whose only liberty was the point, everything else as before. |
| `RuleFacts.StepPointwise` | src/go_state.cc:346-440 | The same for a whole step, a pass included. |
| `RuleFacts.NotSuicideIff` | src/go_state.cc:315-320 | A move is not suicide if and only if a neighbour is empty, is an own group with another liberty, or is an opponent group whose only liberty is the point. |
| `RuleFacts.KoIsReturn` | src/go_state.cc:301-303 | After a legal move the ko point is the one empty point where the reply brings the previous board back. |
| `RuleFacts.LegalAfterStep` | src/go_state.cc:295-340 | After a legal move a point may be played if and only if it is empty, not suicide, does not bring the previous board back and, in superko mode without an empty neighbour, brings no recorded position back. |
| `RuleFacts.LineState` | src/go_state.cc:351-354 | Along every legal game the side to move alternates from black, and last move and double pass are those of the moves played. |
| `RuleFacts.LineHistory` | src/go_state.cc:433-437 | Along every legal game in superko mode the recorded hashes are those of all its positions, and the legal map knows all but the last. |
| `RuleFacts.NoRepetition` | src/go_state.cc:322-339 | In superko mode a legal move at a point without an empty neighbour repeats no earlier position but possibly the last. |
| `Zobrist.StoneHashes` | src/go_state.cc:361 | A black stone adds its black table entry to the hash of a board, a white stone its white one. |
| `Zobrist.TurnHashes` | src/go_state.cc:358-359 | White to move differs from black to move by the two player entries. |
| `Zobrist.EmptyBoardHash` | src/go_state.cc:52 | The empty board with black to move hashes to zero, whatever the table. |
| `Zobrist.ColoursDiffer` | src/go_state.cc:361 | The two colours on one point hash alike if and only if their two entries are equal. |
| `Zobrist.ChangePoint` | src/go_state.cc:360-362 | Xor-ing the weights of the old and the new content of a point turns the hash of a board into the hash of the changed board. |
| `Zobrist.ChangeTurn` | src/go_state.cc:358-359 | Xor-ing both player weights turns the hash for one side to move into the hash for the other. |
| `Zobrist.RemoveStone` | src/go_state.cc:414 | Xor-ing the weight of a stone in the set to remove keeps the running hash equal to the hash of what is left. |
| `Zobrist.PlaceStone` | src/go_state.cc:356-363 | The three updates at the start of a move give the hash of the board with the stone and the other side to move. |
| `GoGame.StepIsValid` | src/go_state.cc:346-440 | A legal step keeps positions valid: stones and empty points only, every group alive, a player to move. |
| `GoGame.KoIsExact` | src/go_state.cc:398-401 | The source's ko test (one stone captured, by a one-stone group that is left with one liberty) holds at k if and only if an opponent stone at k would bring back the previous board. |
| `GoGame.NoKoAfterPass` | src/go_state.cc:354-374 | After a pass no ko point exists. |
| `GoGame.RetakeRestores` | src/go_state.cc:398-401 | If the ko test holds, retaking reproduces the board before the move. |
| `GoGame.RestoreIsRetake` | src/go_state.cc:398-401 | If a reply reproduces the previous board, then the move captured one stone with a lone stone that has one liberty, there. |
| `GoGame.ReplayStep` | src/mcts_engine.cc:121-126 | Replaying one move more of a record plays it when it is legal and skips it otherwise. |
| `Bits.SetBit` | src/go_state.h:109-119 | Or-ing the mask of a point into its word adds exactly that point to the set. |
| `Bits.ClearBit` | src/go_state.h:121-131 | And-ing with the complement removes exactly that point. |
| `Bits.MaskBits` | src/go_state.h:109-131 | 1ULL << i, or-ed in or masked out, changes bit i of a word and no other. |
| `Bits.OpBits` | src/go_state.h:171-184 | Word operations act bit by bit, so they are set operations. |
| `Bits.CountBits` | src/go_state.h:153-160 | The sum of the words' population counts is the number of points in the set. |
| `Blocks.GoBlock.CountLiberty` | src/go_state.h:153-160 | Stores in the block the number of its liberties and changes nothing else. |
| `Blocks.TryMergeBlocks` | src/go_state.h:171-184 | Word by word: stones are united, virtual liberties are united less the stones, liberties are united and cut to the virtual ones. |
| `Blocks.AddDyingStones` | src/go_state.cc:544-549 | The stones of a dying block become liberties of the trial block as far as they are next to it. |
| `Chains.CompressKeepsForest` | src/go_state.cc:141-146 | Path compression keeps every union-find path inside its block and leading to the tail. |
| `Chains.SpliceKeepsForest` | src/go_state.h:187-195 | Linking one list behind another, and its root under the other's tail, gives the forest of the joined lists. |
| `Chains.BlockIsGroup` | src/go_state.h:55-67 | The stone list of a live block is the plain group of each of its stones. |
| `Chains.BlocksAlive` | src/go_state.cc:315-320 | Every live block has a liberty if and only if every group of the board has one. |
| `Chains.BlocksCountGroups` | src/go_state.cc:195-205 | There are as many live blocks as groups on the board. |
| `Chains.OwnersOfNeighbours` | src/go_state.cc:179-192 | The blocks met among the neighbours of a point are exactly the blocks whose border contains it. |
| `Chains.SortUnique` | src/go_state.cc:190-191 | Sorting and removing repetitions keeps the set of ids and leaves it strictly increasing. |
| `Merging.JoinedIsGroup` | src/go_state.cc:524-539 | The played point and the own blocks around it are together the plain group of the new stone. |
| `Merging.DyingAreCaptured` | src/go_state.cc:529-534 | The opponent blocks in atari around the point hold exactly the stones the plain rule captures. |
| `Merging.LibertiesAfterCapture` | src/go_state.cc:543-551 | After the captures the liberties of the new group are its liberties before and the captured points next to it. |
| `Merging.MergeStep` | src/go_state.cc:535-537 | Merging one more own block keeps the trial record exact for the points joined so far. |
| `Merging.DyingComplete` | src/go_state.cc:526-534 | With all neighbours visited the dying list is complete and the returned count is the number of captured stones. |
| `Moving.MergedMid` | src/go_state.cc:383-396 | After placing the stone and merging, every block is exact for the board with the stone, before any capture. |
| `Moving.CountedAfter` | src/go_state.cc:419-428 | Refreshing only blocks stamped by this move leaves the cached liberty count of every point exact. |
| `Moving.KoScanIsExact` | src/go_state.cc:397-401 | The ko point left by the loop over dying blocks is the point where the opponent could take back, or unset when there is none. |
| `GoBoard.GoState.constructor` | src/go_state.cc:20-53 | A new board satisfies the invariant and stands for the initial position. |
| `GoBoard.GoState.CopyFrom` | src/go_state.cc:135-138 | The copy satisfies the invariant, stands for the same position, and the original is as it was. |
| `GoBoard.GoState.RepresentationIsExact` | src/go_state.h:55-67 | Blocks in use are exactly the groups of the board, each with its stones, liberties, border, size, head and tail; cached liberty counts are exact, 0 on empty points. |
| `GoBoard.GoState.FindCoord` | src/go_state.cc:141-146 | Terminates at the tail of the stone's list and compresses the path without changing any list. |
| `GoBoard.GoState.GetBlockIdByCoord` | src/go_state.cc:166-171 | Returns the live block that owns the stone, or unset on an empty point. |
| `GoBoard.GoState.GetNeighbourBlocks` | src/go_state.cc:179-192 | Gives the single stone's border and liberties and the sorted, duplicate-free ids of the blocks around it. |
| `GoBoard.GoState.GetNewBlock` | src/go_state.cc:195-205 | Never returns a live id; the ids in use grow only to one more than the blocks alive and checked out. |
| `GoBoard.GoState.RecycleBlock` | src/go_state.cc:448-451 | Puts the id on the stack, clears in_use, and keeps the partition of ids. |
| `GoBoard.GoState.TryMove` | src/go_state.cc:515-554 | Yields the plain group and liberties of the stone after captures, the dying blocks, and the number of stones they hold; never fails on a legal point. |
| `GoBoard.GoState.CheckPoint` | src/go_state.cc:295-340 | Computes the legality of one point as the rules define it, superko included, without changing the position. |
| `GoBoard.GoState.GetSensibleMove` | src/go_state.cc:292-342 | The legal map is exact at every point, and the trial block is returned to the pool. |
| `GoBoard.GoState.PlaceAndMerge` | src/go_state.cc:383-396 | Turns the trial block into the live block of the new stone's group and relinks the stones of all merged blocks. |
| `GoBoard.GoState.TakeDying` | src/go_state.cc:397-417 | Takes exactly the captured stones off board, lists, hash and liberty sets, and sets the ko point. |
| `GoBoard.GoState.UpdateLibertyCounts` | src/go_state.cc:419-428 | Every cached liberty count is exact afterwards. |
| `GoBoard.GoState.Move` | src/go_state.cc:346-440 | Refines the plain rule: 0 and the rule's next position when legal, -1 and nothing changed otherwise, -2 never; invariant kept; ids in use stay within one of the largest number of groups; no point allowed afterwards brings the board before the move back. |
| `GoBoard.GoState.MapIsAfter` | src/go_state.cc:292-342 | After a legal move the map allows exactly the empty points with a neighbour that saves the stone, where the previous board does not come back and superko is kept. |
| `GoBoard.GoState.GetNewHashValue` | src/go_state.cc:556-589 | Returns the hash the legal move would produce and leaves the position as it is. |
| `GoBoard.GoState.LiveBlocksBound` | src/go_state.cc:195-205 | There are never more live blocks than points. |
| `GoBoard.GoState.Replay` | src/mcts_engine.cc:121-126 | Replaying a record on the incremental board gives what the plain game gives, invariant included. |
| `Scoring.AreasAreDisjoint` | src/go_state.cc:95-101 | The areas of the two players share no point, so the empty count is never negative. |
| `Scoring.AreaIsReach` | src/go_state.cc:104-119 | A point counts for a player if and only if over empty points it reaches that colour and not the other, as in the Tromp-Taylor rules. |
| `Scoring.FillComplete` | src/go_state.cc:75-89 | When the stack is empty, the visited points are the whole empty region. |
| `Scoring.CalcRegionScore` | src/go_state.cc:65-92 | Visits exactly the empty region, each point once, and returns its size if it borders that colour and no other, else 0. |
| `Scoring.CalcScoreWithColor` | src/go_state.cc:104-119 | Counts the player's stones and the empty points of regions that only this player borders. |
| `Scoring.CalcScore` | src/go_state.cc:95-101 | Black, white and neutral counts are those of the three disjoint parts of the board and add up to it. |
| `Scoring.GetWinner` | src/go_state.cc:122-126 | Black wins if and only if ahead by at least eight points, white otherwise. |
| `Grid.CoordRoundTrip` | src/go_comm.cc:59-83 | CoordToId undoes IdToCoord on the board, for pass and for resign; everything else becomes unset. |
| `Grid.IdRoundTrip` | src/go_comm.cc:59-83 | IdToCoord undoes CoordToId in the same cases. |
| `Grid.GridAdjacency` | src/go_comm.cc:157-182 | The neighbours in the table are exactly the points one step away, across or down. |
| `Grid.GridIsValid` | src/go_comm.cc:157-182 | The grid of every border size from two up is a symmetric, irreflexive neighbour relation without isolated points. |
| `Grid.CreateNeighbourCache` | src/go_comm.cc:157-182 | Every row of the table lists the point's neighbours and ends with the unset id; the sizes agree. |
| `Grid.ForNeighbours` | src/go_comm.h:118-119 | Walking a row up to the unset id visits exactly the neighbours of the point in the graph. |
| `LibertyWalk.ResiduesDiffer` | src/go_comm.cc:184-193 | The powers of two below 2^64 have pairwise different remainders modulo 67. |
| `LibertyWalk.CreateQuickLog2Table` | src/go_comm.cc:184-193 | The table maps 2^k mod 67 back to k for every k below 64. |
| `LibertyWalk.LowbitIsLowest` | src/go_state.h:18-21 | x & -x is the mask of the lowest set bit. |
| `LibertyWalk.HasLowest` | src/go_state.h:18-21 | A word that is not zero has a lowest set bit. |
| `LibertyWalk.OnesFromBits` | src/go_state.h:87 | uint64_t(-1) << c has exactly the bits from c up. |
| `LibertyWalk.LibBegin` | src/go_state.h:71-79 | Returns the least member of the set, or the end value when there is none. |
| `LibertyWalk.LibNext` | src/go_state.h:83-98 | Returns the least member after the given one, or the end value. |
| `LibertyWalk.ForBlockLiberties` | src/go_state.h:36-37 | The walk yields exactly the members of the set, strictly increasing. |
| `SearchTree.PathIsLegal` | src/mcts_engine.cc:453-468 | The moves on the path from the root to a node are legal one after the other on the engine's board and lead to the node's position. |
| `SearchTree.EveryEdgeIsLegal` | src/mcts_engine.cc:526-568 | Every edge is a legal move on the board reached by its path. |
| `SearchTree.GrowKeepsTree` | src/mcts_engine.cc:553-564 | Publishing an array of children with distinct legal moves keeps the tree well formed. |
| `SearchTree.RerootKeepsTree` | src/mcts_engine.cc:873-904 | Re-rooting at a node leaves a well-formed tree whose parent pointers stay inside it. |
| `SearchTree.GrownSubtree` | src/mcts_engine.cc:553-564 | Publishing children adds them to the subtrees of the node and of the nodes above it and leaves every other subtree as it was. |
| `Flow.FlowUp` | src/mcts_engine.cc:570-587 | Adding a carried amount at a node and taking it on to the parent keeps the accounting law at every node, with or without change of sign. |
| `Flow.FlowDown` | src/mcts_engine.cc:457-459 | Moving a virtual loss from a node to a chosen child keeps the law. |
| `Flow.FlowGrow` | src/mcts_engine.cc:553-564 | New children keep the law when the expanding thread carries their sum. |
| `Flow.FlowReroot` | src/mcts_engine.cc:873-904 | Re-rooting with no simulation in flight keeps the law. |
| `TreeTotals.FlowBelow` | src/mcts_engine.cc:570-587 | What is stored at a node plus what is still carried into its subtree is the sum of the shares of the whole subtree. |
| `TreeTotals.FlowIsSize` | src/mcts_engine.cc:576-577 | At rest the size field is the number of nodes of the subtree. |
| `TreeTotals.FlowIsDebt` | src/mcts_engine.cc:589-595 | A virtual loss is exactly what the threads inside the subtree still owe. |
| `TreeTotals.TotalsBounded` | src/mcts_engine.cc:570-587 | Alternating totals of bounded leaf values are bounded by the same bound per visit. |
| `SearchSteps.DescendIsLegal` | src/mcts_engine.cc:457-464 | A thread that chooses a child finds one, and its own board accepts the move. |
| `SearchSteps.AccountsBack` | src/mcts_engine.cc:570-587 | Each of the four field updates of Backup keeps all four accounts, in any interleaving. |
| `SearchSteps.AccountsGrow` | src/mcts_engine.cc:553-564 | Publishing children keeps all four accounts. |
| `SearchSteps.ClaimKeeps` | src/mcts_engine.cc:842-844 | The compare-and-swap keeps the invariant: at most one thread becomes the holder of a node. |
| `SearchSteps.EvalFailsKeeps` | src/mcts_engine.cc:845-847 | Giving a claimed node back after a failed evaluation keeps the invariant. |
| `SearchSteps.FinishKeeps` | src/mcts_engine.cc:564 | Setting a node to expanded and starting the backup keeps the invariant. |
| `SearchSteps.UndoKeeps` | src/mcts_engine.cc:589-595 | Each step of UndoVirtualLoss keeps the invariant. |
| `SearchSafety.StepKeeps` | src/mcts_engine.cc:819-871 | Every step of any thread or of the controller keeps the tree, the claims and the accounts. |
| `SearchSafety.PlayMoveKeeps` | src/mcts_engine.cc:148-162 | An engine move, whether a child takes over or a fresh root is made, keeps the invariant. |
| `SearchSafety.InitExpandKeeps` | src/mcts_engine.cc:906-919 | Expanding the root before a search keeps the invariant; the unmatched decrement stays at the root. |
| `SearchSafety.RunIsSafe` | src/mcts_engine.cc:819-871 | The invariant holds in every state of every run, for any number of threads and any interleaving. |
| `SearchSafety.SelectNeverFails` | src/mcts_engine.cc:453-468 | No run reaches a state in which a check of Select or SelectChild fails. |
| `SearchSafety.EdgesAreLegal` | src/mcts_engine.cc:526-568 | In every reachable state each path from the root, with each edge at its end, is a legal line from the engine's board. |
| `SearchSafety.VirtualLossIsExact` | src/mcts_engine.cc:453-468 | In every reachable state the virtual loss of a node other than the root is the number of threads whose cursor is in its subtree. |
| `SearchSafety.VirtualLossIsReturned` | src/mcts_engine.cc:589-595 | With no simulation in flight every node but the root has virtual loss zero. |
| `SearchSafety.AccountsAtRest` | src/mcts_engine.cc:570-587 | With no simulation in flight: visits are 1 plus the children's for an expanded node, size is the number of nodes below, the total is the stored value less the children's totals, or the score once a visit on a scored node, within 65536 per visit. |
| `SearchSafety.ExpansionIsExclusive` | src/mcts_engine.cc:842-850 | At most one thread holds a node; a node is in the expanding state if and only if one does; an expanded node has children and an unexpanded one has none. |
| `SearchSafety.ExpandedForGood` | src/mcts_engine.cc:553-564 | Once expanded, a node stays expanded with the same children as long as it is in the tree. |
| `SearchSafety.ChildrenAreTheLegalMoves` | src/mcts_engine.cc:526-564 | The children of an expanded node are all legal moves of its position, each once, or as many of them as the configured limit allows. |
| `Expansion.CollectMoves` | src/mcts_engine.cc:535-544 | Collects exactly the points the legal map allows, and pass, without repetition. |
| `Expansion.ChildrenOf` | src/mcts_engine.cc:534-551 | Keeps all of them, or, when there are more, exactly the limit of them, none with a smaller policy than one dropped. |
| `Expansion.ExactMapGivesOffer` | src/mcts_engine.cc:534-551 | From an exact legal map the children are what the search model demands of an expansion. |
| `SearchGame.BoardIsReplay` | src/mcts_engine.cc:109-162 | In every state of every run the engine's board is the replay of the last Reset's moves and those played since. |
| `SearchGame.PlayMoveExact` | src/mcts_engine.cc:148-162 | The board moves on, and the child with that move becomes the root with its children and counters; only without one a fresh root is made. |
| `SearchGame.DescendExact` | src/mcts_engine.cc:456-464 | A thread goes to the child it chose, with the board that follows, and charges that child alone. |
| `SearchGame.ScoredValueByArea` | src/mcts_engine.cc:372-379 | The score of a finished game is -65536 exactly when the side to move has won by area with komi, else 65536. |
| `SearchGame.ValuesAreAnswers` | src/mcts_engine.cc:846-850 | In every run each expanded node stores the evaluation of its own position, through re-rooting too. |
| `SearchGame.LoneClaimSucceeds` | src/mcts_engine.cc:842-844 | With a single search thread every compare-and-swap succeeds. |
| `TreeHeap.TreeNode.constructor` | src/mcts_engine.cc:342-356 | A new node has size 1, no children and all counters zero. |
| `TreeHeap.Engine.BackupFrom` | src/mcts_engine.cc:570-587 | From any node of the engine's tree, along its fa pointers to the root: sizes, visits and virtual losses change as stated, totals by 65536 times the value without its fraction, with the opposite sign at each parent; every other node, all pointers and both sets of trees stay. |
| `TreeHeap.Engine.UndoFrom` | src/mcts_engine.cc:589-595 | Takes one virtual loss off every node from a node of the tree up to the root and changes nothing else on the heap. |
| `TreeHeap.ClimbingPath` | src/mcts_engine.cc:576-587 | From every node of a tree the fa pointers lead to its root without repetition. |
| `TreeHeap.FixedExact` | src/mcts_engine.cc:574 | The fixed-point form is 65536 times the value without its fraction, towards zero. |
| `TreeHeap.FixedRange` | src/mcts_engine.cc:574 | The fixed-point form of a value in [-1, 1] is within 65536 and changes sign with the value. |
| `HeapModel.ClimbIsBackup` | src/mcts_engine.cc:576-587 | Four steps of one thread for each node of the path raise size and visits, take one virtual loss off and add the value with alternating sign, and change no other node. |
| `HeapModel.ClimbIsHeapBackup` | src/mcts_engine.cc:570-587 | That climb leaves at every node of the path the counters that the backup on the heap leaves. |
| `HeapModel.NewNodesAgree` | src/mcts_engine.cc:342-356 | New children and fresh roots of the search model have the counters of InitNode. |
| `HeapModel.NewRootAgrees` | src/mcts_engine.cc:873-904 | The new root of the search model has every field that ChangeRoot copies. |
| `HeapModel.FourStepsAreOneRound` | src/mcts_engine.cc:576-587 | Four steps of one thread in the search model do to a node what one round of the loop does on the heap. |
| `TreeHeap.Engine.ChangeRoot` | src/mcts_engine.cc:873-904 | The new root has the node's counters, value, move and children; old and new tree share no node and together are the old heap and the new root; every other field is as before. |
| `TreeHeap.Engine.DeleteTree` | src/mcts_engine.cc:960-970 | Frees every node below the root exactly once, none before its children, and returns their number. |
| `TreeHeap.Engine.DeleteNext` | src/mcts_engine.cc:944-958 | Frees exactly the nodes of the next discarded tree; the current tree is untouched. |
| `TreeHeap.PrunedNodes` | src/mcts_engine.cc:889-895 | Cutting a node's children off takes exactly the nodes below it out of the tree. |
| `TreeHeap.SplitForms` | src/mcts_engine.cc:873-904 | After the pointer updates both halves of the old tree are trees, without a common node. |
| `Conductor.StepKeeps` | src/thread_conductor.cc:13-79 | Every step of the controller and of the workers keeps the debts equal to the two counters and the phases consistent. |
| `Conductor.JoinedMeansOutside` | src/thread_conductor.cc:49-52 | From the return of Join until the next Resume every worker is outside the search body and cannot enter it. |
| `Conductor.CountersNeverNegative` | src/wait_group.cc:3-16 | Neither wait group counter is ever negative, in any interleaving. |
| `Conductor.DebtorsCanStep` | src/wait_group.cc:24-33 | Whoever a wait is for can take a step, unless it waits itself for resumes still to be given. |
| `Conductor.NoDeadlock` | src/thread_conductor.cc:13-79 | No reachable state before the end is stuck, whatever the engine decides next. |
| `Conductor.JoinApproaches` | src/mcts_engine.cc:819-836 | After Pause every worker step lowers a bounded measure, so Join returns. |
| `Conductor.ThreadConductor.Resume` | src/thread_conductor.cc:21-32 | The locked part of Resume is the model's three steps, without an error. |
| `Conductor.ThreadConductor.AckPause` | src/thread_conductor.cc:44-47 | Acknowledging is the model's step and never throws. |
| `Conductor.ThreadConductor.FinishWait` | src/thread_conductor.cc:34-42 | Taking back a resume is the model's step and never throws. |
| `EngineRun.StepIsSearchStep` | src/mcts_engine.cc:805-871 | Each step of engine, conductor and threads together is no step of the search model or one that meets all its side conditions, although no step tests that threads are idle. |
| `EngineRun.RunProjects` | src/mcts_engine.cc:785-871 | Every run of engine, conductor and threads together is, seen by the search, a run of the search model. |
| `EngineRun.EngineIsAlone` | src/mcts_engine.cc:805-817 | In every such run the controller changes the tree only while every thread is idle, and no check of Select fails. |
| `EvalQueue.TaskQueue.ReturnBatch` | src/eval_routine.cc:110-117 | A batch that timed out goes back to the front in reversed order. |
| `EvalQueue.TaskQueue.TakeBatch` | src/eval_routine.cc:83-95 | A batch is a prefix of the queue: as many tasks as came in time, at least one, at most the batch size. |
| `EvalQueue.TimeoutReturnsBatch` | src/eval_routine.cc:110-117 | A batch that timed out is back at the front of the queue, last task first, with nobody answered. |
| `EvalQueue.AnswerReachesBatch` | src/eval_routine.cc:118-130 | A batch that was answered has each callback run in order, and the queue is as it was. |
| `EvalQueue.StepKeeps` | src/eval_routine.cc:77-132 | Every push, pop, timeout, push back and reply keeps each task in exactly one place. |
| `EvalQueue.TasksAreConserved` | src/eval_routine.cc:77-132 | In every reachable state each pushed task is in the queue, in one worker's hands or answered, exactly once in all. |
| `EvalQueue.OneWorkerEach` | src/eval_routine.cc:83-95 | No task is in the hands of two workers. |
| `EvalQueue.QueueBound` | src/task_queue.h:18-39 | Push never takes the queue above a positive capacity, and no state has more than the capacity and a full batch for each worker. |
| `EvalQueue.WithinCapacity` | src/task_queue.h:31-39 | A run keeps the queue within a positive capacity if and only if each PushFront finds room, the test it does not make. |
| `EvalQueue.QueueBoundIsExact` | src/task_queue.h:18-39 | All runs with n workers stay within a limit if and only if the limit is at least the capacity plus n full batches. |
| `EvalQueue.TimeoutsOverfill` | src/eval_routine.cc:110-117 | A positive capacity bounds the queue in all runs if and only if there are no workers or batches are empty. |
| `EarlyStop.MaxElement` | src/mcts_engine.cc:1001-1003 | Picks the first child with the most visits. |
| `EarlyStop.ScanTopTwo` | src/mcts_engine.cc:603-616 | The scan finds the largest count and the largest of the others, for any counts. |
| `EarlyStop.ChoiceIsSettled` | src/mcts_engine.cc:622-628 | Every run of at most n backups keeps the choice i if and only if every other child has fewer than i even with n more, or ties and comes later. |
| `EarlyStop.LeadIsKept` | src/mcts_engine.cc:622-628 | If the lead exceeds the number of backups to come, no run of them changes the choice. |
| `EarlyStop.SmallLeadCanBeLost` | src/mcts_engine.cc:622-628 | If the lead is smaller than the number of backups to come, some run of them does change it. |
| `EarlyStop.CheckEarlyStop` | src/mcts_engine.cc:597-630 | Says stop if and only if enabled, past the threshold, and with a lead above the remaining simulations; and then the choice is settled. |
| `FeatureBits.Encode` | src/dist_zero_model_client.cc:59-69 | Bit i of the bytes is feature i, padding is zero; a wrong length is refused. |
| `FeatureBits.Decode` | src/dist_zero_model_server.cc:69-80 | Decoding what was encoded gives the features back; too few bytes are refused. |
| `FeatureBits.ByteBitValue` | src/dist_zero_model_server.cc:77 | Bit k of a byte is its binary digit worth 2^k. |
| `FeatureBits.OrBit` | src/dist_zero_model_client.cc:66 | Or-ing a shifted boolean changes that bit alone. |

## Left out

- GoBoard.GoState.Move: requires, for a legal move, fewer groups than block records on the board before and after it, which is exactly when a record for the trial moves can be had (`Allocator.RoomIsExact`); nothing bounds the groups on 19 by 19 by the 256 records of the source, so the pool size is a parameter. Illegal moves need no room.
- GoBoard.GoState.Replay: requires more block records than points, which guarantees the above for any record.
- GoBoard.GoState.CheckPoint: tests superko only for points without an empty neighbour, as the source does, so full positional superko is not claimed.
- GoBoard.GoState.GetNewHashValue: is stated for legal moves; for an illegal point the source reads arrays it has not filled.
- Zobrist.ChangePoint: the weights are any table; that different positions have different hashes is not claimed. A 64-bit hash is a pair of 32-bit halves.
- Feature planes, `move_count_` and printing of the board: simple members that nothing else depends on.
- `timestamp_` is unbounded; the source's 16-bit counter would wrap after 32767 moves.
- Block and stone records are values stored in the arrays; the pointer from a block to the stone array is not modelled.
- Expansion.ChildrenOf: takes the arrangement made by `std::nth_element` as a parameter that meets the library's promise.
- EvalQueue.TaskQueue.TakeBatch: how many tasks come in time is a parameter, and a close while a batch is being filled is not modelled.
- Conductor.ThreadConductor.Pause: is the locked part; the wait before it is a step of its own in the transition system.
- SearchRun: evaluation is synchronous, the policy only decides which legal moves are kept when there are too many, and the configuration does not change during a run. UCB scores, noise, temperature and the field `prior_prob` are left out: any child may be chosen.
- SearchRun: an illegal engine move stops the program in the source, so `PlayMove` is enabled for legal moves only; resigning changes nothing.
- SearchRun: the trigger for pausing from inside a search is in `Conductor`, not here; node pool exhaustion and the simulation limit only pause.
- Deleting a tree concurrently with the search: the two share no node, which is proved; the thread itself is not modelled.
- Conductor: condition variables are guards of steps and timeouts of Join leave the state as it is; memory is sequentially consistent. The monitor thread uses the conductor differently and is left out.
- EvalQueue.TasksAreConserved: holds until the queue is closed; a worker that sees the close drops its partial batch (src/eval_routine.cc:88-91).
- EarlyStop.CheckEarlyStop: computes with exact numbers instead of floats, needs elapsed time above zero, and speaks of the choice by visit counts with pass enabled.
- LibertyWalk.LibNext: guards the load of the word past the array that the source makes just before it gives up; its value is not used.
- The network, TensorRT, gRPC, time control, the evaluation cache, symmetry transforms and address sorting: I/O, or simple members that would dilute the model.
