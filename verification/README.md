# Verified model of OpenLava's stateful cores

OpenLava is a batch scheduler. This project models six of its cores in Dafny and proves
what each promises, for every input, every run or every reachable state.

- **Dependency conditions** (`DepTerms`, `DepLife`, `DepCond`, `DepParser`, `DepGrammar`,
  `DepRuns`, `DepRefs`, `DepNodes`). A job may wait for a condition such as `done(a) && !exit(b)`. The condition
  is read by a parser with two stacks and evaluated over TRUE = 1, FALSE = 0,
  INVALID = -1, REJECT = -2. The parser merges only one stacked operator when a weaker one
  arrives, so it does not always give `!`, `&&` and `||` their usual precedence; the model
  keeps that behaviour and proves exactly which conditions are read as usual. That result
  is about trees: a condition that is read otherwise can still have the usual value, as
  `!!!a || b` always has (`DepGrammar.NegatedOrValue`).
- **User groups** (`Groups`, `GroupIndex`). Recursive walks over a group, and the index
  of parents, children, ancestors and descendants that a queue traversal builds.
- **The event log lock** (`ElogLock`). Master daemons exclude each other with a lock file
  that the holder touches and that waiters take over when it stops changing. The protocol
  is a state machine over the steps of any number of processes, with crashes.
- **Job history** (`EventList`, `History`, `JobRing`). Events are appended per job, the
  time between them is split over six states, and jobs are kept in a ring.
- **Checkpoint files** (`LineFile`, `CheckpointVars`, `JobFile`). A table of variables
  mirrored to a file, and the user command of a job file read and rewritten, both at the
  level of characters and `fgets` buffers.
- **Array operations** (`JobIds`, `HostSort`). Job arguments expanded to packed ids, and
  hosts sorted in place.

Results that contradict a first reading of the code:

- `a && b && c || d` is read as `a && ((b && c) || d)` (`DepGrammar.PrecedenceWitness`). A
  condition is read as usual if and only if no `&&` follows a factor with two or more `!`,
  and no `||` follows two or more operators still waiting (`DepGrammar.Agrees`).
- `freeDepCond` does not descend into a `(` that was never closed, so it reaches every leaf
  if and only if as many brackets were closed as opened (`DepRefs.FreeReachesAllLeaves`),
  and never releases what the leaves below such a bracket share (`DepRefs.FreeReleasesOnce`,
  `DepRefs.OpenBracketLeaks`).
- `!!c` differs from `c` exactly when `c` is INVALID (`DepCond.DoubleNegation`).
- Reordering the operands of a condition can change a later result, because an early return
  leaves leaves unevaluated that would have stored something (`DepRuns.OrderShows`);
  `DepRuns.PastIgnored` says when results do not depend on the past.
- Six polls without a touch are what the lock tolerates: with a rarer heartbeat two
  processes can hold it (`ElogLock.SixIsSharp`), and so they can when others act between the
  decision to take over and the opening of the file (`ElogLock.RaceWithoutOneStep`), or
  between reading the owner and probing it (`ElogLock.RaceAfterRead`). The code makes no
  single step of either.
- A zombie exit that is followed by another event is counted in two states
  (`History.DoubledIsZombie`, `History.ZombieWitness`).
- A variable appended to a file whose last line is unfinished is not read back
  (`CheckpointVars.AppendIff`, `CheckpointVars.AppendWitness`).
- A command of 511 characters is read back from a job file, but rewriting it leaves an
  extra line (`JobFile.LongestCommand`, `JobFile.LongestWitness`). The restart command is
  passed with its newline, which adds a blank line each time (`JobFile.RestartCommand`).

Conventions. Group definitions are finite trees, so cyclic groups do not exist in the
model. The states of jobs, the time windows and the members of job arrays are given by an
environment `Env`. The source has no rank for `(` in its precedence table; the model ranks
it below every operator. In the lock, every write advances the file time, a process finds another one
dead only when no live process has its identity, a new process gets an unused identity,
creating the lock file writes the owner in the same step, and so do opening the file for
reading and reading the owner make one step. Safety assumes besides that nobody else acts
from the read or poll on which a takeover rests to the opening of the file.

## Model

| member | source | states |
|---|---|---|
| DepTerms.EvalJobTerm | lsbatch/daemons/mbd.dep.c:617-676 | the loop over the jobs of a term gives the verdict of the recursive walk that the lemmas below characterise |
| DepTerms.WalkCharacterised | lsbatch/daemons/mbd.dep.c:565-676 | with an element in range, an array term is TRUE exactly when every element in range passes, and otherwise has the verdict of the first failing element in list order |
| DepTerms.WalkOutOfRange | lsbatch/daemons/mbd.dep.c:617-624 | with no element in range the value stored by the last evaluation stays |
| DepTerms.WalkFirstFailing | lsbatch/daemons/mbd.dep.c:617-676 | elements after the first failing one have no influence |
| DepTerms.WalkAllPass | lsbatch/daemons/mbd.dep.c:617-676 | elements out of range never make a term fail |
| DepTerms.TermVerdictIsTri | lsbatch/daemons/mbd.dep.c:548-720 | no leaf, of any kind, yields DP_REJECT if none was stored |
| DepLife.LifeOfAJob | lsbatch/daemons/mbd.dep.c:641-656 | what done, post_done, post_err, exit with each comparison of the exit code, ended and started answer in each phase of a job: never ran, in pre-execution, running, done before, with good and with failed post-execution, exited, requeued after success and after an exit, and ended before the dependent job last did |
| DepLife.VoidJob | lsbatch/daemons/mbd.dep.c:643-651 | a void job never answers FALSE |
| DepLife.NoSuchJob | lsbatch/daemons/mbd.dep.c:556-563 | a leaf without a job is INVALID |
| DepLife.CounterCounts | lsbatch/daemons/mbd.dep.c:1357-1384 | each counter is the number of members of the array that are pending, held, running, exited, done, started or ended |
| DepLife.CountLeaf | lsbatch/daemons/mbd.dep.c:687-720 | a counter leaf compares that number with its bound, or with the size of the array for a star; without an array it is INVALID |
| DepLife.VoidArray | lsbatch/daemons/mbd.dep.c:700-705 | on a void array it is INVALID and forgets the array |
| DepLife.InIdxListIsExpanded | lsbatch/daemons/mbd.jarray.c:361-376 | an element is in an index list exactly if its packed id is among those the commands expand the same list to |
| DepCond.EvalIsMinMax | lsbatch/daemons/mbd.dep.c:502-546 | evaluation computes minimum for `&&` and maximum for OR of the numeric codes, although it skips operands, and never stores DP_REJECT |
| DepCond.ResetIsClean | lsbatch/daemons/mbd.dep.c:784-793 | resetting keeps a tree free of DP_REJECT |
| DepCond.NeverRejects | lsbatch/daemons/mbd.dep.c:502-793 | from a tree that stores no DP_REJECT, over any sequence of evaluations in any environments and resets, no evaluation yields or stores DP_REJECT, and each is still minimum and maximum over the leaves |
| DepCond.MirrorKeepsValue | lsbatch/daemons/mbd.dep.c:929-932 | swapping the operands of every binary node, as merging does, keeps the value under every leaf valuation |
| DepCond.MirrorTwice | lsbatch/daemons/mbd.dep.c:929-932 | swapping twice gives the tree back |
| DepCond.AndChainValue | lsbatch/daemons/mbd.dep.c:525-536 | an `&&` chain of any shape has the least value among its operands |
| DepCond.OrChainValue | lsbatch/daemons/mbd.dep.c:508-523 | an OR chain of any shape has the greatest value among its operands |
| DepCond.RegroupingKeepsResult | lsbatch/daemons/mbd.dep.c:508-536 | two chains over the same set of operands, with the same stored values, give the same result at the next evaluation, however ordered, grouped or repeated |
| DepCond.DistributionKeepsResult | lsbatch/daemons/mbd.dep.c:508-536 | at the next evaluation && distributes over OR and the other way round, and absorption holds, for all three values |
| DepCond.DeMorgan | lsbatch/daemons/mbd.dep.c:508-546 | at the next evaluation negation turns && into OR and back, INVALID included |
| DepCond.DoubleNegation | lsbatch/daemons/mbd.dep.c:538-546 | double negation is lost exactly on INVALID |
| DepCond.OnOneJob | lsbatch/daemons/mbd.dep.c:641-656 | a condition on one job that is no array has the verdict of that job |
| DepCond.EndedIsDoneOrExit | lsbatch/daemons/mbd.dep.c:1440-1486 | ended(j) equals done(j) or exit(j) for every job state; both parts are TRUE together exactly for a pending job that ended after the dependent job last did, whose last run succeeded and which also has the exit bit but not the done bit; so never for a job that is not both pending and finished |
| DepCond.DoneAndExitWitness | lsbatch/daemons/mbd.dep.c:1440-1486 | a status with the pending and the exit bit, which the setters of the daemon do not store, makes done(j) and exit(j) both TRUE |
| DepParser.RunAppend | lsbatch/daemons/mbd.dep.c:134-169 | parsing a concatenation is parsing the second part from the stacks the first part left |
| DepParser.SeveralJobsMinimum | lsbatch/daemons/mbd.dep.c:1280-1309 | a name that matches several jobs evaluates to the minimum over them |
| DepParser.ParsedNeverRejects | lsbatch/daemons/mbd.dep.c:134-793 | the tree of every accepted token list, grammatical or not, is such a tree, so none of its evaluations ever yields DP_REJECT, and each is minimum and maximum over what its leaves answer at that time |
| DepParser.ParseConserves | lsbatch/daemons/mbd.dep.c:909-958 | for every accepted token list, grammatical or not, and every weighing of leaves and operators, the weight of the tree is that of the input less one opening bracket for each closing one; so each leaf and operator occurs exactly as often as read |
| DepParser.AcceptedIff | lsbatch/daemons/mbd.dep.c:134-489 | a token list is accepted exactly if it has one leaf more than binary operators and brackets left open and the parser gives up at no token: at a bad one, at a closing bracket without an opening one, or where operands are missing for a merge |
| DepParser.MergeLeftIff | lsbatch/daemons/mbd.dep.c:936-948 | a closing bracket merges exactly if there is an opening one and more operands than binary operators above it |
| DepParser.PostfixAccepted | lsbatch/daemons/mbd.dep.c:134-489 | their order is not checked: `a b &&` is no condition but is accepted, with the tree of `a && b` |
| DepParser.MergeTopWeight | lsbatch/daemons/mbd.dep.c:914-934 | one merge neither loses nor invents a leaf or operator on the stacks |
| DepParser.MergeLeftWeight | lsbatch/daemons/mbd.dep.c:936-948 | a closing bracket removes exactly one opening bracket from the stacks |
| DepParser.StepKeeps | lsbatch/daemons/mbd.dep.c:138-169 | every token allowed by the grammar is taken, and what the stacks spell grows by exactly that token |
| DepParser.GrammaticalAccepted | lsbatch/daemons/mbd.dep.c:134-489 | every grammatical condition is accepted, and reading the tree with the children of binary nodes swapped gives the leaves and operators in input order, brackets dropped |
| DepGrammar.Agrees | lsbatch/daemons/mbd.dep.c:138-169 | the tree is the mirror image of the usual reading if and only if, at every bracket level, no && follows a factor with two or more negations and no OR follows a conjunction that leaves two or more operators pending |
| DepGrammar.AgreesWhenUncrowded | lsbatch/daemons/mbd.dep.c:138-169 | the same condition on the run of the parser: at every token of the input, at most one operator above the nearest open bracket outranks the incoming one |
| DepGrammar.SafeMeansUsual | lsbatch/daemons/mbd.dep.c:138-169 | such a condition has the value of the usual reading under every leaf valuation |
| DepGrammar.PrintAccepted | lsbatch/daemons/mbd.dep.c:134-489 | every condition of the grammar, printed, is accepted |
| DepGrammar.GrammaticalIsPrinted | lsbatch/daemons/mbd.dep.c:134-489 | every grammatical token list is the print of some condition, so the results about conditions cover all grammatical inputs |
| DepGrammar.PrintInjective | lsbatch/daemons/mbd.dep.c:134-489 | and of only one, so the usual reading is well defined |
| DepGrammar.RoundTrip | lsbatch/daemons/mbd.dep.c:140-169 | printing any tree fully bracketed and parsing it gives its mirror image, which evaluates to the same value in every environment |
| DepGrammar.OrStuck | lsbatch/daemons/mbd.dep.c:145-156 | an OR that meets two or more waiting operators ends up below one of them: the root is never the OR |
| DepGrammar.ThreeFactorsThenOr | lsbatch/daemons/mbd.dep.c:145-156 | the tree of `a && b && c OR d` is that of `a && ((b && c) OR d)`, mirrored |
| DepGrammar.PrecedenceWitness | lsbatch/daemons/mbd.dep.c:145-156 | with a FALSE and d TRUE it evaluates to FALSE where the usual reading is TRUE |
| DepGrammar.NegatedOrValue | lsbatch/daemons/mbd.dep.c:145-156 | trees may differ where values agree: k negations of a, OR b, with k at least 2 is never read as usual, but has the usual value exactly when k is odd or b is not TRUE |
| DepRuns.PastIgnored | lsbatch/daemons/mbd.dep.c:502-793 | after any evaluations and resets a new condition evaluates as if for the first time, if every leaf on an array that changes has an element in range now and no counted array was void before without being void now |
| DepRuns.ParsedPastIgnored | lsbatch/daemons/mbd.dep.c:134-793 | the same of the tree of every accepted token list |
| DepRuns.ResetForgetsPast | lsbatch/daemons/mbd.dep.c:784-793 | after a reset a condition evaluates as if for the first time, but for counted arrays that were void before |
| DepRuns.LeafPast | lsbatch/daemons/mbd.dep.c:548-720 | for a single leaf the condition is exact: it answers as if for the first time after every possible past if and only if it is a window, a job or fixed list of jobs, an array with an element in range now or with no index that could be, or a counted array that is void now or missing |
| DepRuns.SettledIff | lsbatch/daemons/mbd.dep.c:617-676 | a leaf answers alike whatever it stores exactly when it has an element in range |
| DepRuns.RegroupingOverRuns | lsbatch/daemons/mbd.dep.c:502-793 | under that condition reordering, regrouping and repeating operands changes no result over whole runs |
| DepRuns.DistributionOverRuns | lsbatch/daemons/mbd.dep.c:502-793 | nor do distribution and absorption |
| DepRuns.DeMorganOverRuns | lsbatch/daemons/mbd.dep.c:502-793 | nor do De Morgan's laws |
| DepRuns.SafeOverRuns | lsbatch/daemons/mbd.dep.c:134-793 | a condition that is read as usual keeps the value of the usual reading over whole runs |
| DepRuns.OrderShows | lsbatch/daemons/mbd.dep.c:508-523 | without the condition the order shows: a window OR an array that loses its elements ends FALSE with the window first and TRUE with it last |
| DepRefs.FreeReachesAllLeaves | lsbatch/daemons/mbd.dep.c:729-781 | freeing an accepted condition visits all its leaves if and only if the brackets are balanced in number |
| DepRefs.CreateAllCounts | lsbatch/daemons/mbd.dep.c:1388-1394 | after parsing, the count of each shared index set has grown by the number of leaves read that point at it |
| DepRefs.CountingDown | lsbatch/daemons/mbd.dep.c:1397-1418 | while references are dropped one by one, never more than are counted, a set is released exactly when its last reference goes |
| DepRefs.ReleasedWithLastLeaf | lsbatch/daemons/mbd.dep.c:729-781 | at every point of freeing any tree, brackets left open or not, exactly the sets that have leaves, all of them freed, have been released, once |
| DepRefs.FreeReleasesOnce | lsbatch/daemons/mbd.dep.c:729-781 | for every accepted token list: after parsing, counts equal the leaves in the tree; freeing releases a set exactly once if it has leaves and none lies below a bracket left open, else never, and leaves the references of those stranded leaves counted; with brackets balanced in number nothing is stranded |
| DepRefs.OpenBracketLeaks | lsbatch/daemons/mbd.dep.c:729-781 | `a ( b` is accepted, freeing its tree reaches no leaf, and a set shared by both keeps its two references |
| DepRefs.FreedRefs | lsbatch/daemons/mbd.dep.c:729-781 | every leaf that points at a set is either freed or below a bracket left open |
| DepNodes.DptNode.EvalDepCond | lsbatch/daemons/mbd.dep.c:502-726 | evaluation on linked nodes stores in every node what the evaluation of the tree says, and changes no other node |
| DepNodes.DptNode.EvalAnd | lsbatch/daemons/mbd.dep.c:525-536 | the same for an `&&` node, with the operand that is skipped left as it was |
| DepNodes.DptNode.EvalOr | lsbatch/daemons/mbd.dep.c:508-523 | the same for an OR node |
| DepNodes.DptNode.EvalNot | lsbatch/daemons/mbd.dep.c:538-546 | the same for a `!` node |
| DepNodes.DptNode.EvalLeaf | lsbatch/daemons/mbd.dep.c:548-720 | the same for a leaf |
| DepNodes.DptNode.ResetDepCond | lsbatch/daemons/mbd.dep.c:784-793 | resets in place exactly the nodes the source resets |
| DepNodes.DptNode.FreeDepCond | lsbatch/daemons/mbd.dep.c:729-781 | no node is freed twice, exactly the nodes it reaches are freed, and each leaf among them drops one reference, in the order of the specification |
| DepNodes.DptNode.ReachesAllNodes | lsbatch/daemons/mbd.dep.c:729-781 | these are all nodes of the tree if and only if no bracket became a node |
| DepNodes.DepCondParser.MergeTop | lsbatch/daemons/mbd.dep.c:914-934 | the pops and pushes realise one merge; on failure the stacks are as before |
| DepNodes.DepCondParser.MergeLeft | lsbatch/daemons/mbd.dep.c:936-948 | the loop merges down to the nearest opening bracket |
| DepNodes.DepCondParser.MergeAll | lsbatch/daemons/mbd.dep.c:949-951 | the loop merges until no merge is possible |
| DepNodes.DepCondParser.CreateMoreNodes | lsbatch/daemons/mbd.dep.c:1280-1309 | the loop pushes one operand, the `&&` of all matched jobs, and counts one reference per leaf |
| DepNodes.DepCondParser.PushOperator | lsbatch/daemons/mbd.dep.c:143-159 | one merge at most before the operator is pushed |
| DepNodes.DepCondParser.ParseDepCond | lsbatch/daemons/mbd.dep.c:134-489 | the token loop returns exactly the tree, or the failure, of the parser the theorems are about, with both stacks empty and all references counted |
| Groups.MemberIsListed | lsbatch/daemons/mbd.grp.c:407-425 | gMember accepts a name exactly when the flattened list of the group has it or a group without members is reachable |
| Groups.EveryoneIsMember | lsbatch/daemons/mbd.grp.c:407-425 | every name is a member exactly when such an all-users group is reachable |
| Groups.AllUsersIff | lsbatch/daemons/mbd.grp.c:396-397 | which is a group with neither members nor subgroups, at any depth |
| Groups.ListedParts | lsbatch/daemons/mbd.grp.c:342-365 | the flattened list is a group's own members and then, subgroup by subgroup in order, what each lists |
| Groups.MembersWhenListed | lsbatch/daemons/mbd.grp.c:342-425 | without one, the names fillMembers fills are exactly those gMember accepts, some but not all names |
| Groups.GroupWalk.CountEntries | lsbatch/daemons/mbd.grp.c:429-444 | the static counter ends at the length of the flattened list |
| Groups.GroupWalk.SumMembers | lsbatch/daemons/mbd.grp.c:251-273 | recursively, 0 exactly when an all-users group is reachable, and else the same number as countEntries |
| Groups.GroupWalk.FillMembers | lsbatch/daemons/mbd.grp.c:342-365 | fills exactly that many slots with the flattened list, in order, and keeps the slots before |
| Groups.GroupWalk.ExpandGrp | lsbatch/daemons/mbd.grp.c:324-340 | a fresh array with the flattened list, or with the group's own name when there is nothing to list |
| GroupIndex.UserIndex.constructor | lsbatch/daemons/mbd.grp.c:476-518 | before any traversal the sets hold exactly all users below the all-users groups |
| GroupIndex.UserIndex.Forward | lsbatch/daemons/mbd.grp.c:642-729 | the forward pass uses exactly as many entries of the queue as the unfolding has groups, links every unfolded group to its members and subgroups and pushes ancestors down, adding nothing wrong |
| GroupIndex.UserIndex.Backward | lsbatch/daemons/mbd.grp.c:731-746 | the reverse pass merges every entry's descendants into its parent, adding nothing wrong |
| GroupIndex.UserIndex.TraverseGroupTree | lsbatch/daemons/mbd.grp.c:631-747 | if the four sets are exact for some traversed groups, they are afterwards exact for these and all groups below the new one |
| GroupIndex.UserIndex.SetuDataCreate | lsbatch/daemons/mbd.grp.c:566-577 | after the loop the sets are exact for every group it traverses; names starting with "others" are skipped |
| GroupIndex.CoveredAll | lsbatch/daemons/mbd.grp.c:571-577 | when no group is named so, that is every group |
| GroupIndex.OthersSkipped | lsbatch/daemons/mbd.grp.c:572-576 | a group whose name starts with others and that is below no other group is left out |
| GroupIndex.AncestorStep | lsbatch/daemons/mbd.grp.c:684-719 | what lies above a group lies above its members and subgroups |
| GroupIndex.CoverFrom | lsbatch/daemons/mbd.grp.c:642-729 | once the queue is worked off, every entry's subtree has its ancestors complete, groups that occur several times included |
| GroupIndex.SelfDescends | lsbatch/daemons/mbd.grp.c:731-746 | an entry whose later entries are merged has all that lies below it |
| GroupIndex.IndexIsClosure | lsbatch/daemons/mbd.grp.c:631-747 | parents and children are the direct edges, ancestors and descendants the exact transitive closure, and they are inverse to each other where no all-users group is below |
| GroupIndex.IndexIsMembership | lsbatch/daemons/mbd.grp.c:390-425 | a user is in a group's descendants exactly when the recursive gMember says so, all-users groups included |
| ElogLock.StepKeepsInv | lsbatch/daemons/elock.c:84-187 | each step, a crash included, keeps the invariant that a live holder is the one named in the file, if a poll takes over only when nobody holds the lock and a probe only while the file names the owner that was read |
| ElogLock.WaitHistory | lsbatch/daemons/elock.c:134-187 | a waiter's retry count means that many polls since the file had the time it remembers |
| ElogLock.FileUnchanged | lsbatch/daemons/elock.c:164-186 | a file with an old time was not written in between |
| ElogLock.HeldThroughout | lsbatch/daemons/elock.c:84-217 | while nobody writes, a holder at the end held the lock all along |
| ElogLock.NobodyHolds | lsbatch/daemons/elock.c:164-176 | when a waiter decides to take over, no live process holds the lock |
| ElogLock.Safety | lsbatch/daemons/elock.c:61-217 | over all runs in which reading the owner or polling, deciding and opening are one step and a holder touches the file in any six consecutive polls of a waiter, at most one live process holds the lock at any time |
| ElogLock.SixIsSharp | lsbatch/daemons/elock.c:61-217 | a heartbeat of once in n polls guarantees this if and only if n is at most MAX_RETRY + 2 |
| ElogLock.RaceWithoutOneStep | lsbatch/daemons/elock.c:84-187 | with the probe right after the read, but others acting between decision and opening, two processes can hold the lock, whatever the heartbeat |
| ElogLock.RaceAfterRead | lsbatch/daemons/elock.c:100-131 | with the opening right after the decision, but others acting between reading the owner and probing it, two processes can hold the lock as well |
| ElogLock.TakeoverAfterSix | lsbatch/daemons/elock.c:164-187 | in any run, a waiter that sees the file unchanged since its first stat polls at most six times, whatever other processes do meanwhile, and decides to take over at exactly the sixth poll |
| ElogLock.AfterRelease | lsbatch/daemons/elock.c:198-217 | after a release the file stays away until someone opens it, the first to open it holds the lock with its name in the file, and a waiter that polls before goes back to opening |
| ElogLock.Handover | lsbatch/daemons/elock.c:164-166 | so a waiter that polls and then opens, before anyone else opens, gets the lock at once |
| ElogLock.ReasonsToTakeOver | lsbatch/daemons/elock.c:100-176 | a process takes over only if the owner it read was one of its own host that is not alive, or after exactly six polls of an unchanged file |
| ElogLock.LocalTakeover | lsbatch/daemons/elock.c:116-128 | in the first case it holds the lock after probing and opening |
| ElogLock.RemoteWaits | lsbatch/daemons/elock.c:114-139 | a process of another host goes on to wait whatever the state of the owner |
| ElogLock.FileLost | lsbatch/daemons/elock.c:134-137 | a daemon that finds the file gone where it must read it gives up, a holder at its next touch included |
| History.AccountEvent | lsbatch/bhist/bhist.c:859-994 | one turn of the loop carries time stamps over, adds the interval and writes the status back as the specification says |
| History.AccountInterval | lsbatch/bhist/bhist.c:940-992 | the switch over the status adds the interval to the totals in the way the next rows describe |
| History.EachTotal | lsbatch/bhist/bhist.c:937-993 | each of the six totals is the sum of the times charged for exactly the events that belong to its state, for every list of events, in order or not |
| History.OrderedCharge | lsbatch/bhist/bhist.c:910-924 | in an ordered history that is the time to the next event |
| History.StampIsLatest | lsbatch/bhist/bhist.c:859-865 | out of order, without queue switches, it starts at the latest time so far |
| History.StatusLeft | lsbatch/bhist/bhist.c:933-935 | the status left in an event is the one it was accounted under |
| History.StayTime | lsbatch/bhist/bhist.c:886-909 | the time stayed ends at the last event for a job done or exited for no other reason, else now |
| History.StayIsSum | lsbatch/bhist/bhist.c:886-993 | for an ordinary history it is what the six totals sum up to |
| History.NextEvent | lsbatch/bhist/bhist.c:841-858 | the search for the next event skips exactly the queue switches |
| History.DisplayHist | lsbatch/bhist/bhist.c:820-994 | the loop over the event list, which rewrites the events it walks over, totals what the specification says over the events as they were |
| History.TimeConserved | lsbatch/bhist/bhist.c:820-994 | for every time-ordered history, any statuses and any search window, the six totals plus intervals counted nowhere less intervals counted twice are the time from the first event up to the present point |
| History.OrdinaryTimeConserved | lsbatch/bhist/bhist.c:820-994 | without zombie exits and post-execution statuses the totals sum to final DONE or EXIT minus submission, and to now minus submission for an unfinished job, however many switches are interleaved |
| History.LostIsUncounted | lsbatch/bhist/bhist.c:928-992 | an interval enters no total exactly for an event outside the request, a queue switch, a post-execution status, a final exit, or a job done that is last or goes on to its post-execution |
| History.DoubledIsZombie | lsbatch/bhist/bhist.c:978-984 | in an ordered history an interval goes both to pending and to unknown exactly for a zombie exit, by its own status, a carried one or the end of the search window, after which the job goes on; any other interval enters the sum at most once |
| History.ZombieWitness | lsbatch/bhist/bhist.c:978-984 | a history of 30 units of time whose totals sum to 40 |
| EventList.JobRecord.AddEvent | lsbatch/bhist/read.event.c:91-155 | the event is accepted or refused as specified, the list stays ordered in time and a refused event leaves it unchanged |
| EventList.AddedKeeps | lsbatch/bhist/read.event.c:91-155 | adding keeps the list ordered and its first event, and an accepted event becomes the last one |
| EventList.ReplaySorted | lsbatch/bhist/read.event.c:91-155 | after any sequence of calls, across the reset of the tail, the list is ordered in time, starts with the first event and holds only events passed in |
| EventList.StaleIff | lsbatch/bhist/read.event.c:131-152 | an event is refused exactly if it is older than the last one or repeats it |
| EventList.TwiceIsOnce | lsbatch/bhist/read.event.c:131-152 | the same event once more changes nothing, unless it is a migration, checkpoint or signal |
| EventList.NothingLost | lsbatch/bhist/read.event.c:91-155 | a log read once, without older or repeated events, is kept without loss |
| EventList.HeadIsForgotten | lsbatch/bhist/read.event.c:117-126 | events found while the head was searched are not counted again: reading on from a later file leaves the submission and the events of that reading |
| EventList.HeadIsNoted | lsbatch/bhist/read.event.c:157-160 | reading from the head is remembered exactly from its first accepted event that is no submission |
| EventList.LaterIsAdded | lsbatch/bhist/read.event.c:117-155 | in every other case a later event goes behind all there is |
| EventList.StatusCodes | lsbatch/lsbatch.h:106-116 | the status codes of the log are those of the interface |
| EventList.ReplayedTimeConserved | lsbatch/bhist/bhist.c:820-994 | any replayed log gives a list to which time conservation applies |
| JobRing.Ring.constructor | lsbatch/bhist/read.event.c:64-72 | an empty ring |
| JobRing.Ring.InJobList | lsbatch/bhist/read.event.c:44-50 | the record is appended, and forward and back links stay inverse all around |
| JobRing.Ring.OffJobList | lsbatch/bhist/read.event.c:53-61 | exactly that record is taken out, the others keep their order |
| JobRing.Ring.Walk | lsbatch/bhist/read.event.c:75-86 | following the links visits exactly the present records in insertion order |
| CheckpointVars.RoundTripIff | chkpnt/echkpnt.env.c:195-280 | a variable written to an empty file is read back if and only if its name starts with a letter and has no = or newline, its value has no quote or newline and the line fits the buffer |
| CheckpointVars.WriteMirrors | chkpnt/echkpnt.env.c:170-190 | one write, whether it appends, rewrites or does nothing, keeps the file an exact mirror of the table |
| CheckpointVars.WritesMirror | chkpnt/echkpnt.env.c:170-392 | after any sequence of writes, parsing the file gives exactly the table |
| CheckpointVars.ReadYourWrites | chkpnt/echkpnt.env.c:170-190 | after any sequence of writes every name has the value of its last write, and a name not written the one it had |
| CheckpointVars.ReadBackYourWrites | chkpnt/echkpnt.env.c:170-392 | and so does the file, to whoever reads it next |
| CheckpointVars.FileMeaning | chkpnt/echkpnt.env.c:195-257 | a file is read exactly if each of its lines is a variable, and then every name has the value of its last line |
| CheckpointVars.EmptyMirrored | chkpnt/echkpnt.env.c:195-246 | the empty state is mirrored |
| CheckpointVars.LoadedMirrored | chkpnt/echkpnt.env.c:195-246 | so is the state after loading any file of terminated lines |
| CheckpointVars.AppendIff | chkpnt/echkpnt.env.c:263-280 | an appended variable is read back if and only if the file ended at a line boundary of fgets |
| CheckpointVars.AppendedVanishes | chkpnt/echkpnt.env.c:195-280 | appended to a line without newline, a variable is swallowed: reading gives the file as it was |
| CheckpointVars.AppendWitness | chkpnt/echkpnt.env.c:195-280 | so it is for c="d" appended to a="b" |
| CheckpointVars.EchkpntEnv.GetEchkpntVar | chkpnt/echkpnt.env.c:150-164 | a value is found exactly for the names in the table, and it is the first one stored under that name |
| CheckpointVars.EchkpntEnv.InsertVarToTable | chkpnt/echkpnt.env.c:324-405 | the return code tells a new name, a new value and no change apart, and other entries stay as they are |
| CheckpointVars.EchkpntEnv.UpdateVarToFile | chkpnt/echkpnt.env.c:283-320 | the file becomes the rendering of the whole table |
| CheckpointVars.EchkpntEnv.WriteEchkpntVar | chkpnt/echkpnt.env.c:170-190 | the name has the new value, all other names keep theirs, and the file stays the mirror |
| CheckpointVars.EchkpntEnv.FillTable | chkpnt/echkpnt.env.c:195-257 | the loop reads the whole file into the table or, at the first bad line, empties it |
| LineFile.LinesAppend | lsf/lsf.h:80 | text appended to a file at a boundary is read as lines of its own, for lines of any length |
| LineFile.ConcatLines | lsf/lsf.h:80 | the pieces fgets delivers are the whole file |
| JobFile.IsUserCmdLineMark | chkpnt/erestart.c:571-618 | the in-place word cutting accepts exactly the lines whose words after # are LSBATCH:, User and input |
| JobFile.MatchWords | chkpnt/erestart.c:594-618 | its loop compares all words and nothing but the words |
| JobFile.GetUserCmdFromJF | chkpnt/erestart.c:516-567 | the loop with its flag computes the reading the rows below describe |
| JobFile.BuildNewJobFile | chkpnt/erestart.c:692-763 | the loop with its flag writes the file the rows below describe |
| JobFile.PutReplacesMarked | chkpnt/erestart.c:718-757 | rewriting replaces exactly the commands that a mark precedes with nothing but blank lines between, and keeps every other line |
| JobFile.GetFindsMarked | chkpnt/erestart.c:532-563 | reading gives the first such command, without the spaces before it and its newline, and nothing exactly if there is none |
| JobFile.KindsOfLines | chkpnt/erestart.c:533-560 | what a line is does not depend on the spaces before it, and is decided by its first other character |
| JobFile.PutGet | chkpnt/erestart.c:516-763 | a file with a command gives back the command written to it if and only if that is at most 511 characters on one line, not empty and not starting with a space or # |
| JobFile.PutPutIff | chkpnt/erestart.c:692-763 | a second rewriting leaves no trace of the first, whatever is written, if and only if the first command makes one complete line that is no comment and not blank |
| JobFile.RestartCommand | chkpnt/erestart.c:371-396 | a restart command, which comes with its newline, is read back without it, and the new file has one blank line more for every marked command |
| JobFile.LineCount | chkpnt/erestart.c:692-763 | rewriting gains, for every marked command, exactly the lines beyond the first that the new command takes |
| JobFile.StorableOneLine | chkpnt/erestart.c:692-763 | of the commands that are read back, exactly those of 511 characters are not one line |
| JobFile.LongestCommand | chkpnt/erestart.c:692-763 | after such a command any later rewriting leaves more lines than without it |
| JobFile.LongestWitness | chkpnt/erestart.c:516-763 | so it is for 511 times x in a file with one command |
| JobFile.PutNothing | chkpnt/erestart.c:692-763 | without a command in the file, or without one given, the new file equals the old one |
| JobIds.PackRoundTrip | lsbatch/lsbatch.h:598-607 | job id and index are recovered from a packed id, which fits 48 bits |
| JobIds.PackInjective | lsbatch/lsbatch.h:598-607 | packed ids are equal exactly for equal pairs |
| JobIds.CheckRanges | lsbatch/cmd/cmd.jobid.c:373-403 | a list passes exactly when, with open ends closed, every range is ordered and within bounds |
| JobIds.GetJobIdIndexList | lsbatch/cmd/cmd.jobid.c:268-335 | refuses exactly the arguments whose job id or one of whose ranges is out of bounds or that have no range, and passes on all ranges of any other, with the indices as given |
| JobIds.AddId | lsbatch/cmd/cmd.jobid.c:164-170 | the search loop appends an id only if it is new |
| JobIds.AddRange | lsbatch/cmd/cmd.jobid.c:153-171 | the step loop on a 32-bit counter ends and collects the ids of the whole range |
| JobIds.AddList | lsbatch/cmd/cmd.jobid.c:152-172 | likewise for a list of ranges |
| JobIds.GetSpecJobIds | lsbatch/cmd/cmd.jobid.c:88-178 | the loops realise the expansion the next row describes |
| JobIds.Expansion | lsbatch/cmd/cmd.jobid.c:116-177 | the first refused or plain 0 argument decides; otherwise the ids are exactly those of the indices that the ranges as given cover, in the order first asked for |
| JobIds.NoDuplicates | lsbatch/cmd/cmd.jobid.c:141-147 | that order leaves no duplicates |
| JobIds.EarlierArgumentFirst | lsbatch/cmd/cmd.jobid.c:116-172 | what the first arguments ask for comes before what only later ones do |
| JobIds.EarlierRangeFirst | lsbatch/cmd/cmd.jobid.c:152-172 | so do the first ranges of an argument |
| JobIds.RangeAscends | lsbatch/cmd/cmd.jobid.c:153 | within a range the indices ascend by its step |
| JobIds.RangeExact | lsbatch/cmd/cmd.jobid.c:153-154 | a range gives an id exactly for the indices between its bounds that lie on its step |
| JobIds.GetJobIdList | lsbatch/cmd/cmd.jobid.c:409-466 | the ids one argument asks for; none exactly if it is refused or a plain 0 |
| HostSort.SortHost | lsbatch/cmd/bhosts.c:458-477 | the array holds the same hosts, every earlier name not after a later one |
| HostSort.LessIff | lsbatch/cmd/bhosts.c:466 | one name is before another exactly if it ends, or has the smaller character, where they first differ |
| HostSort.GapPass | lsbatch/cmd/bhosts.c:464-474 | each pass orders all entries its gap apart |
| HostSort.Sink | lsbatch/cmd/bhosts.c:465-473 | the innermost loop extends that by one entry |
| HostSort.SwapMovesHole | lsbatch/cmd/bhosts.c:466-472 | swapping hosts that are out of order or equal moves the one possibly unordered pair one gap down |
| HostSort.LeTransitive | lsbatch/cmd/bhosts.c:466 | name order is transitive |
| HostSort.LeAntisymmetric | lsbatch/cmd/bhosts.c:466 | name order is total, and only equal names are tied |

## Left out

- The text of conditions: getToken, job-name matching and matchJobs; conditions enter as tokens with their matched jobs.
- One-to-one array dependencies, for which no matching element means the last element of the list.
- Time windows beyond open or closed.
- DepNodes.DepCondParser.ParseDepCond: works on stacks of tree values; the linking of nodes in place, the growth of the stack arrays and what is freed on an error are not modelled, and only evaluation, reset and freeing work on linked nodes.
- DepParser.GrammaticalAccepted: does not say that acceptance implies a grammatical input, which is false (DepParser.PostfixAccepted).
- The second loop of setuDataCreate, new-user observers and host groups.
- GroupIndex.UserIndex.TraverseGroupTree: requires that names identify groups, no member is named like a group and an unfolding has at most MAX_GROUPS entries; the source checks none of this, and a member named like a group is linked without what lies below that group, so that the sets depend on the order of the traversals.
- catMembers, catGnames and getGroupInfoEnt, which only format.
- Creating the lock file and writing its owner as two steps; lock files that cannot be read or parsed; the stop of a daemon that lost its lock.
- The chronological event chain across jobs, log reading, and the printing of histories.
- Files that cannot be opened, NUL characters in files, and the command files of getUserCmdFromCmdF.
- JobIds.GetJobIdIndexList: takes an argument as already split into job id and ranges; digits, brackets and 64-bit ids written as one number are not read.
- getSpecIdxs, which has the loops of getSpecJobIds without packing.
- sort_users, which is sort_host again, and repeatHost.
- Memory failure, user switching, logging, sockets, mail and XDR everywhere.
