# Watches that heal, brackets that match

A Dafny model of the two parts of this repository with state worth proving
things about.

**The ZooKeeper client and the service registry** (`xcs/`).  `ZkClient` keeps a
table watcher -> path -> (data, child) flags over one-shot watches;
`event_watcher` filters each event against it, arms the watch again, calls the
user, and reaps dropped watchers; a refresh pass signals everything.
`ServiceRegistry` caches the content of the ephemeral nodes it published and
re-creates them.  A `Sys` value (module `Registry`) holds the server tree, the
armed watches, the undelivered events, the Watcher objects, the table, the
cache, and a history of adds, re-arms, drops, closings and callbacks.  `Next` is one step
of a run: a public call, a delivery, a refresh, a lost or new session, a write by
another client, the destructor.  `ZkClientImpl` has the classes with their
fields and loops, proved against those functions, method by method; the other
modules prove what every run keeps.  The table below names the methods with loops
or branches worth reading, and for the others the lemmas about their functions.

**The structural scanners of the linter** (`tools/cpplint.py`): the multi-line
bracket matchers, the nesting stack with its checkpoints across `#if`, the
extractor of bracketed text, the in-place comment eraser, the include-order
automaton, the error statistics and the function-length check.  Lines are
strings, except for the nesting stack, whose lines are sequences of the tokens
its patterns look for.

| module | about |
|---|---|
| `ZooKeeper`, `Client`, `Registry` | the server, the client operations, the registry, callbacks, runs |
| `ZkClientImpl` | `ZkClient` and `ServiceRegistry` as classes |
| `ClientInvariants`, `DanglingWatches` | invariants of every run, and where a guard is needed |
| `RefreshPass`, `Reaping`, `Lingering` | iterating the table while callbacks change it; what events leave of a dropped watcher, and what nothing ever reaps |
| `Convergence`, `Publishing`, `NoLostUpdate` | healing after a lost session or a removal, also from the start of a run; interleaved writes |
| `Brackets`, `TextInside` | bracket matching over lines; the grammar of balanced text |
| `Nesting`, `NestingImpl` | the nesting state as functions and as mutable blocks |
| `PreprocessorErasure`, `NestingHeight`, `Definitions`, `HeadsAndAssembly` | conditionals erase; heights and balanced fragments; class and namespace definitions; heads over several lines, inline assembly |
| `Comments`, `IncludeOrder`, `ErrorCounts`, `FunctionSize`, `Powers`, `Wrappers` | the rest |

`dafny verify dfyconfig.toml` verifies the project.

Where code and documentation differ the model follows the code.
`service_registry.h` lines 44-45 promise -1 also for connection problems; the
code answers -2 there (`PublishOutcome`).  A dropped watcher that has been reaped
can be added again with Ok, though nothing is armed for it
(`DroppedWatcherIsNeverArmed`).  A dropped watcher need not ever leave the table, and
can then never be added again: its entry may have been emptied path by path before
(`EmptiedForEver`), and an entry stays whenever one of its flags can no longer be
cleared (`ReapedExactlyWhen`), as after the end of the session, after the removal of a
child-watched path, with a child watch on an ephemeral node, or when a reaped watcher is
added again.  A registry destroyed while the link is down unpublishes nothing and
stays registered (`DestroyedWithoutLinkIsCalled`).  The line `/*/` both opens and ends
a comment for the eraser, and no other line does (`OpensAndCloses`).

## Model

| member | source | states |
|---|---|---|
| ZooKeeper.WriteSignals | xcs/cczk/zookeeper_const.h:205-212 | a write uses up exactly the data watches of the path, each for a data event |
| ZooKeeper.CreationSignals | xcs/cczk/zookeeper_const.h:188-195 | a creation uses up the data watches of the path and the child watches of its parent, no other |
| ZooKeeper.RemovalSignals | xcs/cczk/zookeeper_const.h:197-203 | a removal uses up both kinds of watch on the path and the child watches of its parent, no other |
| Client.WrittenValueReadsBack | xcs/cczk/zkclient.cc:286-335 | whatever a create or set accepts, a get returns, the empty value and its null buffer included |
| Client.AddOutcome | xcs/cczk/zkclient.cc:424-480 | the return code of AddListener in every case; on success the entry and exactly the watches it adds, an existing entry kept, and that nothing else changes; on failure that nothing changes |
| Client.SetOutcome | xcs/cczk/zkclient.cc:286-307 | the return code of a set in every case, a megabyte being the limit; on success the path holds the value under its old owner, no other node changed, and otherwise nothing changed |
| Client.CreateOutcome | xcs/cczk/zkclient.cc:376-412 | when a create succeeds, exactly; then the node is the only new one, with the value, bound to the session exactly if it is ephemeral |
| Client.ReadAndDeleteOutcome | xcs/cczk/zkclient.cc:309-422 | what a read, an existence test and a delete answer in every case, and that a delete takes away that node only |
| Client.DropOutcome | xcs/cczk/zkclient.cc:482-519 | when the two drops succeed, exactly; dropping a watcher clears its flags only, dropping a path takes that path from its entry only |
| Client.ClearOutcome | xcs/cczk/zkclient.cc:92-98 | clearing closes every watcher of the table and no other |
| ClientInvariants.DeleteUndoesCreate | xcs/cczk/zkclient.cc:376-422 | a node just created can be deleted, which restores the tree |
| ClientInvariants.ArmedWatchesAreListed | xcs/cczk/zkclient.cc:187-217 | over every run with no drop of a single path and every fired watch handled before it is armed again: each armed watch has its watcher in the table, its path under it and its flag set, and each undelivered event, in whatever order they come, has its watcher and path there too |
| ClientInvariants.ReapingIsSafeExactlyWhen | xcs/cczk/zkclient.cc:196-211 | in any state, reaping for an event takes exactly the watch the event reports off the table; so all armed watches are listed afterwards if and only if all were before and that one is not armed |
| ClientInvariants.DroppingAPathIsSafeExactlyWhen | xcs/cczk/zkclient.cc:482-499 | dropping a single path keeps every armed watch listed if and only if no watch of that watcher and path is armed |
| ClientInvariants.ErasingLosesContextExactlyWhen | xcs/cczk/zkclient.cc:196-211 | also after dropped paths: handling an event of a dropped watcher keeps the watcher of every armed watch in the table if and only if the event does not take the last flag of the last entry of the watcher, or no watch of it is armed |
| DanglingWatches.RearmingBeforeHandlingDangles | xcs/cczk/zkclient.cc:196-220 | a concrete run: re-armed before its event is handled, then dropped, a watch stays armed with its watcher gone from the table |
| DanglingWatches.DroppingAPathDangles | xcs/cczk/zkclient.cc:482-499 | a concrete run: a path dropped on its own leaves a watch armed whose watcher later leaves the table |
| ClientInvariants.LivePathsCarryOwnFlags | xcs/cczk/zkclient.cc:435-450 | in every reachable state the paths of a live watcher carry exactly its flags, and every cached node is marked temporary |
| ClientInvariants.CallbacksFollowRegistration | xcs/cczk/zkclient.cc:173-229 | over every run: a callback for (w, p) starts only if the last add by a caller or drop-path of (w, p) was an add, re-arming by event_watcher not counted, and never once w was dropped or cleared |
| ClientInvariants.DropIsFinal | xcs/cczk/zkclient.cc:501-519 | after DropListener answers Ok no later step of any run starts a callback of that watcher, even if it is reaped and added again |
| ClientInvariants.ClearIsFinal | xcs/cczk/zkclient.cc:92-98 | after Clear no later step of any run starts a callback of a watcher that was in the table |
| ClientInvariants.DeadIsSilent | xcs/cczk/zkclient.cc:195-217 | from any state on, in every run, no callback of a watcher that is dead there starts |
| ClientInvariants.DroppedWatcherIsNeverArmed | xcs/cczk/zkclient.cc:424-450 | in every state after that, adding the watcher is refused exactly while it is in the table, and never arms anything |
| ClientInvariants.SessionEventsChangeNothing | xcs/cczk/zkclient.cc:173-229 | in every reachable state a session event, whose path is empty, changes nothing for any watcher |
| ClientInvariants.RunKeeps | xcs/cczk/zkclient.cc:107-519 | every step of every run, whatever calls the callbacks make, keeps all the invariants, only extends the history and only kills watchers |
| RefreshPass.PassIsSafeAndComplete | xcs/cczk/zkclient.cc:107-132 | one pass, whatever its callbacks do, for every (watcher, path, kind): with u the state in which the pass reaches it, no key leaves the table before or after u, nothing is signalled before u, and it is signalled exactly once from u on if the watcher is live there, watches the kind and has the path, and not at all otherwise; so it is for whatever the pass finds at its start unless it was dropped or closed before u |
| RefreshPass.SignalStarts | xcs/cczk/zkclient.cc:173-228 | an event of any kind handed to a live watcher starts its callback once if the path is registered, creations and removals as data changes, and starts no other callback at all, whatever the callback does |
| RefreshPass.SignalRearms | xcs/cczk/zkclient.cc:218-228 | the callback starts in a state in which the watches of its path are armed again and nothing else has changed |
| RefreshPass.RefreshSignals | xcs/cczk/zkclient.cc:81-90 | a round of the background loop, connected, signals every (watcher, path, kind) held and watched at its start exactly once, unless dropped or closed before it is reached, with no key leaving the table; without a connection it changes nothing |
| RefreshPass.ReconnectingSignals | xcs/cczk/zkclient.cc:152-171 | so does a link that comes back, and a new session |
| Reaping.ReapingIsExact | xcs/cczk/zkclient.cc:196-211 | after any sequence of events of a dropped watcher its table entry holds exactly the paths still waiting for an event, with exactly the flags no event came for; it is gone if and only if it had paths and none of them waits any more, so an entry without paths is never erased; nothing else changed |
| Lingering.ReapedExactlyWhen | xcs/cczk/zkclient.cc:196-211 | in every state of a run: other clients and its own events can take the entry of a dropped watcher off the table if and only if each of its flags can still be cleared, by a queued event or one that an armed watch can still bring, the one child watch counting for one flag only; an entry without flags needs any event at all |
| Lingering.StuckForEver | xcs/cczk/zkclient.cc:196-211 | if not each set flag of an entry of a dropped watcher can still be cleared, the entry stays over every run of any steps, unless its path is dropped on its own, and the watcher can never be added again |
| Lingering.RemovalStrands | xcs/cczk/zkclient.cc:180-211 | the removal of a path uses up the child watch of a dropped watcher but clears its data flag only: the entry is not reapable any more, before and after the event |
| Lingering.SessionLossStrands | xcs/cczk/zkclient.cc:152-158 | with the session no entry of a dropped watcher is reapable any more |
| Lingering.EphemeralStrands | xcs/cczk/zkclient.cc:196-211 | a child flag watched on an ephemeral node cannot be cleared unless its event is queued |
| Lingering.AddingAgainStrands | xcs/cczk/zkclient.cc:424-450 | a reaped watcher that is added again gets an entry without flags and watches, which nothing reaps |
| Lingering.EmptiedForEver | xcs/cczk/zkclient.cc:196-211 | a dropped watcher whose paths were all dropped on their own stays in the table over every run, whatever the steps and callbacks, and can never be added again |
| Lingering.AddingAndDroppingEmpties | xcs/cczk/zkclient.cc:482-519 | adding one path, dropping it on its own and dropping the watcher leads there |
| Convergence.ConvergesAfterExpiry | xcs/cczk/zkclient.cc:152-171 | a session is lost, a new one opened, one pass run: every published path still held exists as ephemeral of the new session with its cached content and an armed watch, and the rest of the tree is what other owners left |
| Convergence.RefreshHeals | xcs/cczk/zkclient.cc:81-90 | after a round of the background loop, or the return of the link, every published path still held is there, this session's, as cached and watched, and no other node changed |
| Publishing.EveryNewSessionConverges | xcs/cczk/zkclient.cc:152-171 | the same end to end: from the start of the process, over every run in which no one creates a published node but by publishing it as temporary and no one deletes the parent of one, deletions of published nodes included, each opening of a new session, however the old one ended and whatever came in between, converges |
| Publishing.RunKeepsOwned | xcs/service_registry.cc:48-68 | in every such run the published nodes that exist belong to the session and their parents are present and persistent |
| Convergence.RestoredExactly | xcs/service_registry.cc:73-112 | if cache and server agreed before the loss, what is still held reads on the server as before |
| Convergence.RemovalHeals | xcs/service_registry.cc:84-98 | delivering the removal of a held published path puts back exactly that node, as cached, ephemeral and watched, and changes nothing else in the tree |
| Convergence.CacheFollowsServer | xcs/service_registry.cc:78-103 | where the node is there the callback puts the cache right, for that path only, and changes nothing else |
| Convergence.CallbackIgnores | xcs/service_registry.cc:73-112 | the callback changes nothing for another kind of event, an unpublished path, a lost connection, or a node that cannot be created |
| Convergence.DeletionIsUndone | xcs/service_registry.cc:73-112 | another client deletes a watched published node, the event is queued, and its delivery restores the node in the same session |
| Convergence.DestructorUnpublishes | xcs/service_registry.cc:17-30 | without a connection the destructor does nothing; connected, a published path stays exactly if it is there and has a child at its turn, and nothing else on the server changes. If the published nodes belong to the session they are gone if and only if there is a connection or there were none; the watcher of the registry is dead if and only if it was, or there is a connection and it is in the table |
| Convergence.DestroyedRegistryIsSilent | xcs/service_registry.cc:17-30 | if the watcher is dead after the destructor, no later step of any run starts the callback that would re-create a node |
| Convergence.DestroyedWithoutLinkIsCalled | xcs/service_registry.cc:17-23 | run while the link is down, the destructor leaves the watcher live: an event on the way starts the callback of the destroyed registry |
| Convergence.PublishOutcome | xcs/service_registry.cc:32-71 | each return code exactly: -1 for an empty argument, -2 where the node cannot be created, -3 for a temporary node under a closed watcher still in the table, else 0; where it is created it is the only new node, at the path whose pieces between slashes are service, version, partition and name in this order, cached exactly if temporary, and watched if the watcher is live |
| Registry.ServicePathIs | xcs/service_registry.cc:46 | for arguments without slashes the path splits at its slashes into the four of them in order, and its parent is the path of the first three |
| Convergence.ClosingEndsSession | xcs/cczk/zkclient.cc:143-150 | closing the handle takes away exactly the nodes of the session, and all its watches and events |
| NoLostUpdate.NoUpdateIsLost | xcs/cczk/zkclient.cc:218-228 | in every interleaving of writes, deliveries, refresh signals and the arm, read and store steps of the handler: a published path cached wrongly has an event on the way or the handler at work on it |
| NoLostUpdate.WritesSettle | xcs/service_registry.cc:78-103 | once writes and refresh signals stop, for every order of deliveries and handler steps: each delivery takes one event off the queue, the steps are bounded, and wherever no further one is possible cache and server agree everywhere |
| NoLostUpdate.NothingPendingMeansAgreement | xcs/cczk/zkclient.cc:218-228 | after any interleaving at all, cache and server agree everywhere as soon as the handler is idle and no event is left for it |
| NoLostUpdate.HandlingIsOneDelivery | xcs/cczk/zkclient.cc:218-228 | undisturbed, the steps of the handler are one delivery of the event |
| NoLostUpdate.ArmingAfterReadingLosesWrites | xcs/cczk/zkclient.cc:218-228 | a handler that reads before the watch is armed and arms at the end can finish with the cache wrong and no event on the way |
| ZkClientImpl.ZkClient.CreateConnection | xcs/cczk/zkclient.cc:45-79 | ends connected or without a handle; with T the timeout in seconds it sleeps at most max(1, 4T-1) seconds, polls n times with 2^(n-2) <= T, gives up only past T, and its doubled interval stays within 32 bits |
| ZkClientImpl.TruncateIs | xcs/cczk/zkclient.cc:71 | the division truncates toward zero: its remainder is smaller than the divisor and has the sign of the dividend |
| ZkClientImpl.ZkClient.Clear | xcs/cczk/zkclient.cc:92-98 | the loop closes every watcher of the table and no other |
| ZkClientImpl.ZkClient.EventWatcher | xcs/cczk/zkclient.cc:173-229 | the dead, dropped and live branches of an event, re-arming before the callback |
| ZkClientImpl.ZkClient.SignalAll | xcs/cczk/zkclient.cc:113-129 | the inner loop over a copy of the paths, flags read afresh before each signal |
| ZkClientImpl.ZkClient.TriggerAllWatcher | xcs/cczk/zkclient.cc:107-132 | the outer loop over the live table in key order, watchers added meanwhile included; it ends |
| ZkClientImpl.ZkClient.InitWatcher | xcs/cczk/zkclient.cc:152-171 | what each session state leads to; after expiry, for any number of attempts followed: those that fail leave nothing behind, the first that connects gets the pass on its session, and none that would connect at its first poll is missed |
| ZkClientImpl.ServiceRegistry.Destroy | xcs/service_registry.cc:17-30 | the listener is dropped, then every cached path deleted |
| Brackets.FindEndOfExpressionInLine | tools/cpplint.py:1207-1228 | the first closing bracket of the line that brings the depth to 0, or the depth at its end if there is none |
| Brackets.FindStartOfExpressionInLine | tools/cpplint.py:1277-1301 | the same backward |
| Brackets.CloseExpression | tools/cpplint.py:1231-1274 | finds the matching closer in the concatenated lines if there is one, and answers (len, -1) exactly when there is none |
| Brackets.CloseAnswersByKind | tools/cpplint.py:1245-1256 | for each of ( [ { < written out, what that answer means with its closer; any other character answers (len, -1) |
| Brackets.ReverseCloseExpression | tools/cpplint.py:1304-1346 | finds the matching opener in the concatenated lines if there is one, and answers (0, -1) exactly when there is none |
| Brackets.ReverseAnswersByKind | tools/cpplint.py:1318-1331 | the same for ) ] } > and their openers |
| Brackets.ReverseUndoesClose | tools/cpplint.py:1231-1346 | closing (l, p) and reversing from the bracket found gives (l, p), across any number of lines |
| Brackets.CloseUndoesReverse | tools/cpplint.py:1231-1346 | reversing from (l, p) and closing the bracket found gives the place just past (l, p) |
| Brackets.PairFromEitherEnd | tools/cpplint.py:1207-1301 | matching read from the opener and matching read from the closer are the same |
| Brackets.CloserIsUnique | tools/cpplint.py:1221-1228 | an opener has one closer |
| Brackets.SpansNestOrAreDisjoint | tools/cpplint.py:1221-1228 | the spans of two openers of one kind are nested or disjoint |
| TextInside.GetTextInside | tools/cpplint.py:3656-3682 | returns the balanced text up to the matching closer if the text splits so, and None exactly when it does not |
| TextInside.ScanDecides | tools/cpplint.py:3666-3682 | the stack scan stops just past n if and only if a balanced text of the three-bracket grammar and the closer end at n |
| TextInside.GrammarOfPairs | tools/cpplint.py:3652-3655 | the grammar with its three pairs of brackets written out |
| TextInside.SplitsAtPair | tools/cpplint.py:3652-3655 | the text inside ends at the closer that belongs to its opener, the pairs written out |
| TextInside.SplitIsUnique | tools/cpplint.py:3666-3682 | the extracted text is determined by its opener |
| PreprocessorErasure.ConditionalsErase | tools/cpplint.py:1825-1879 | any well-nested program whose #if and #endif lines along the first branches are harmless where met leaves the stack its first branches alone leave, whatever the lines of the other branches do, and the checkpoints are back |
| PreprocessorErasure.CheckpointsComeBack | tools/cpplint.py:1825-1879 | whatever its lines do, a well-nested program leaves the stack of checkpoints as it was |
| PreprocessorErasure.StrayDirectiveIsIgnored | tools/cpplint.py:1850-1879 | outside any conditional an #else or #endif restores nothing |
| PreprocessorErasure.FilesErase | tools/cpplint.py:1825-2035 | the same after every file prefix |
| PreprocessorErasure.BareFilesErase | tools/cpplint.py:1825-2035 | so it is wherever the #if and #endif lines along the first branches carry no brackets, semicolons, bare colons or access specifiers |
| PreprocessorErasure.HarmlessExactly | tools/cpplint.py:1895-2035 | a directive line without braces or semicolons leaves the stack alone if and only if its parentheses balance, no waiting head meets a closing one, no waiting class that is not yet derived meets a bare colon, and no open class meets a specifier of another access |
| PreprocessorErasure.ParenthesisedConditionLosesHead | tools/cpplint.py:2019-2029 | a class head followed by a directive with a parenthesised condition loses the head |
| PreprocessorErasure.ConditionLosesHead | tools/cpplint.py:2019-2029 | so does every waiting head at every directive with a closing parenthesis |
| PreprocessorErasure.ColonDerivesWaitingHead | tools/cpplint.py:1970-1973 | a class head waiting for its brace is taken for a derived class at every condition with a bare colon and no parentheses |
| PreprocessorErasure.UpdateSimilar | tools/cpplint.py:1881-2035 | a line cannot tell an ended assembly block from none |
| PreprocessorErasure.RunKeepsAsm | tools/cpplint.py:1902-1916 | in every state of a run, inside inline assembly a parenthesis is open, checkpoints included |
| NestingHeight.HeightOfBraces | tools/cpplint.py:2001-2035 | on any lines of braces from the empty state the height is the net count minus the lowest prefix count |
| NestingHeight.BalancedFragmentKeepsBlocks | tools/cpplint.py:2001-2035 | a brace-balanced fragment of any number of lines, each closing as many parentheses as it opens, leaves the same blocks in the same order |
| Definitions.ItemsLeave | tools/cpplint.py:1918-2035 | any nesting of class and namespace definitions, forward declarations, access specifiers and balanced fragments leaves the blocks as they were, but for the access of the class it stands in |
| Definitions.InsideDefinition | tools/cpplint.py:1918-2035 | at the end of a body the stack is what it was before the head plus one block: the name and line of the head, for a class the access of the last specifier of its own level, private without one and public for a struct, derived exactly if a bare colon stood before the brace, no parenthesis and no assembly open |
| Definitions.ForwardIsForgotten | tools/cpplint.py:2016-2026 | a forward declaration leaves the blocks as they were |
| HeadsAndAssembly.HeadWaits | tools/cpplint.py:1918-1973 | a head without its brace is on the stack, waiting |
| HeadsAndAssembly.HeadThenBrace | tools/cpplint.py:2008-2015 | a head and its brace on two lines define the same block as on one |
| HeadsAndAssembly.NamespacesOnOneLine | tools/cpplint.py:1918-1938 | any number of namespaces on one line are all entered, in order |
| HeadsAndAssembly.ClassInParensIsIgnored | tools/cpplint.py:1961-1968 | inside open parentheses a class keyword opens nothing |
| HeadsAndAssembly.LastAccessIs | tools/cpplint.py:1976-1984 | of several specifiers on a line the last counts |
| HeadsAndAssembly.AssemblySpans | tools/cpplint.py:1897-1916 | a block is inside inline assembly exactly from a line that starts it, as long as a parenthesis is open after every line since, and has just ended on the line that closes the last one |
| HeadsAndAssembly.BraceOpensBlock | tools/cpplint.py:2014-2018 | a brace opens a block of assembly right after an assembly keyword and a plain one otherwise |
| NestingImpl.NestingState.UpdatePreprocessor | tools/cpplint.py:1825-1879 | checkpointing with deep copies, and taking over the last one without a copy, never shares a block between two stacks |
| NestingImpl.NestingState.BeginIf | tools/cpplint.py:1846-1849 | the checkpoint holds copies of the blocks |
| NestingImpl.NestingState.BeginElse | tools/cpplint.py:1850-1861 | the first #else remembers the stack; each one restores the stack before the #if |
| NestingImpl.NestingState.EndIf | tools/cpplint.py:1865-1876 | the remembered stack is current again and its blocks are its own |
| NestingImpl.NestingState.Update | tools/cpplint.py:1881-2035 | one line on mutable blocks does what it does on values, with every checkpoint unaffected |
| NestingImpl.NestingState.ProcessFile | tools/cpplint.py:4549-4552 | all lines on mutable blocks end in the state of the value run |
| Comments.RemoveMultiLineComments | tools/cpplint.py:1128-1141 | in place: exactly the lines of terminated comments become dummies; the error is the start of the comment that never ends |
| Comments.CommentsAreErased | tools/cpplint.py:1128-1141 | reading from the top, comment after comment, each from the next opening line to the first closing line from there: exactly their lines become "// dummy", and the report is the line number of the one that never ends |
| Comments.ClosesExactly | tools/cpplint.py:1111-1117 | a line ends a comment if and only if it is some text, the end mark and white space, the characters written out |
| Comments.OpensExactly | tools/cpplint.py:1100-1108 | a line starts one if and only if it is white space, the begin mark and text without an end mark |
| Comments.StripIs | tools/cpplint.py:1103-1114 | stripping gives the middle of a line between white space, with none at its ends |
| Comments.FindNextMultiLineCommentStart | tools/cpplint.py:1100-1108 | the first opening line from a position on |
| Comments.FindNextMultiLineCommentEnd | tools/cpplint.py:1111-1117 | the first closing line from a position on |
| Comments.RemoveMultiLineCommentsFromRange | tools/cpplint.py:1120-1125 | the range is overwritten, nothing else |
| Comments.NoCommentIsLeft | tools/cpplint.py:1128-1141 | without an error no line opens a comment any more |
| Comments.OnlyCommentsChange | tools/cpplint.py:1128-1141 | a changed line lies between an opening line and the first closing line from there |
| Comments.CleansingIsIdempotent | tools/cpplint.py:1128-1141 | a second pass changes nothing and reports the same, also with an unterminated comment |
| Comments.OpensAndCloses | tools/cpplint.py:1103-1114 | one stripped line is both start and end of a comment, and only that one |
| IncludeOrder.IncludeState.CheckNextIncludeOrder | tools/cpplint.py:610-661 | new section, message and last header; the section never decreases |
| IncludeOrder.IncludeState.CheckFile | tools/cpplint.py:3605-3610 | the errors of a header sequence are the headers not kept |
| IncludeOrder.OrderIsTheLanguage | tools/cpplint.py:610-661 | no header is reported if and only if the sequence is in my* c* cpp* (other or my)*, from any section on |
| IncludeOrder.MessageReads | tools/cpplint.py:545-558 | only system headers are reported, after which others and in which words |
| IncludeOrder.DeletingReportedSuffices | tools/cpplint.py:610-661 | deleting the reported headers leaves the final section and nothing more to report |
| ErrorCounts.CppLintState.ShouldPrintError | tools/cpplint.py:938-962 | an error is printed if and only if it is not suppressed, is confident enough, and the last filter that matches it is not a minus |
| ErrorCounts.FilteredExactly | tools/cpplint.py:950-962 | filtered means that the last filter whose text begins the category has a minus |
| ErrorCounts.CppLintState.IncrementErrorCount | tools/cpplint.py:724-732 | total and the count of one category go up by one |
| ErrorCounts.CountsAddUp | tools/cpplint.py:719-732 | in a style that counts by category the counts sum to the number of errors |
| ErrorCounts.TallyCounts | tools/cpplint.py:719-732 | each category is counted as often as it occurs, in full or by its top level, and not at all in the plain style |
| ErrorCounts.TopIs | tools/cpplint.py:728 | the top level is what stands before the first slash |
| ErrorCounts.TopLevelIsSumOfDetailed | tools/cpplint.py:719-732 | for one run of errors each top-level count is the sum of the detailed counts under it |
| FunctionSize.FunctionState.Check | tools/cpplint.py:813-836 | with base 400 for names that begin with TEST or Test and 250 otherwise: a report is made exactly past base times the power of two, passes the printer's verbosity test if and only if the verbosity is at most 5, and its level below 5 brackets the length between powers of two |

## Left out

- The ZooKeeper C library, sockets, logging, `UpdateAuth` and the random sleep: the library is an abstract server; its delivery order within a session is dropped, so every order is covered.
- Memory layout, shared pointers and unlocked reads: watchers are addresses of cells in a map and are never reused after being freed.  The watcher class is therefore a map of cells, iterated by address, not a Dafny class.
- Locks: a refresh pass and an event are one step each.  `init_watcher` runs its pass without the lock (xcs/cczk/zkclient.cc:167-169), so this is an assumption there.
- Syntax of path elements beyond slashes, sequential nodes, access control, versions, and data longer than the length limit written by other clients.
- The existence test at the start of `AddListener` and the arming after it are one step, so a node never disappears in between.
- `GetChildrenOfPath` and `GetDataWithStat`: reads without further state.
- NoUpdateIsLost: other watchers' callbacks and removals are not interleaved with the handler's steps, and the claim starts after arming; the window inside `PublishService` is not covered.
- ConvergesAfterExpiry: user callbacks may add, drop and clear listeners but not write nodes.
- EveryNewSessionConverges: the same for user callbacks.
- InitWatcher: the loop of attempts is followed for a number of rounds, since it need not end; the pauses between attempts are not modelled.
- `ZookeeperConfig`, `ServiceRegistryAccessor`, name tables, factories and build files: thin wrappers or constants.
- The regular expressions of the nesting state: a token stands where a pattern matches.  `class_indent`, `last_line`, `CheckEnd` and indentation messages are not modelled.
- `_PreprocessorInfo` is a record in a sequence, not an object: it is only reachable from the stack of checkpoints.
- HeightOfBraces: text of braces only.
- ItemsLeave: in the items of a definition a head, its base clause and its opening brace are on one line, and so is the closing brace with its semicolon (HeadThenBrace has the other case); every fragment line closes as many parentheses as it opens.
- `start_pattern` of the text extractor: the position it matched is a parameter.
- Unicode white space when stripping lines, and negative list indices.
- Check: the rounding of floating-point logarithms; the level is the exact whole part.
- `CleanseRawStrings`, `IsInAlphabeticalOrder`, header guards, NOLINT parsing and all style checks: pattern matching and messages, or members that would add only easy claims.
