# Verified model of cositos

A Dafny project that models the parts of cositos whose behaviour is hardest to see from the
code, and proves what the code promises about them. `dafny verify dfyconfig.toml` checks it all.

| file | what it models |
|---|---|
| `Reactive.dfy` | the reactive engine: signals, memoised computeds, effects, mark-and-pull |
| `Runs.dfy` | whole runs of the engine, node creation included, against from-scratch re-evaluation |
| `Trees.dfy` | widget states as values: what a split of the binaries leaves, and what putting them back does |
| `Graphs.dfy` | object graphs of lists and dicts, possibly cyclic: which are accepted, and the state a value denotes |
| `Buffers.dfy` | the split on the heap: the explicit-stack, copy-on-write walk, and the recursive form that always clones |
| `Frontend.dfy` | the frontend's split: recursive and copy-on-write |
| `Merging.dfy` | putting buffers back in place on the heap |
| `Base64.dfy` | the text of a buffer, section 4 of RFC 4648 |
| `Documents.dfy` | widget-state documents as values: dump, load, round trip, dumping again, references |
| `Orders.dfy` | when the buffers of a state keep their order over a round trip |
| `Serialize.dfy` | dumping and loading documents on the heap |
| `Protocol.dfy` | the protocol's messages |
| `Lifecycle.dfy` | the reducer and the shell that runs its effects, with callbacks that call back |
| `Replica.dfy` | the frontend model, the FIFO memory channel, its peer (a model or a widget's shell), and the Pluto channel |
| `Acyclic.dfy` | the three-colour cycle check |
| `ScriptEscape.dfy` | escaping JSON text for a script element |
| `Embedding.dfy` | the JSON text as it is written, and what is read back from its escaped form |
| `Controls.dfy` | the controls builder and its catalog |

How the code's own form shows in the model:

* Objects whose methods update fields are classes (`Signal`, `Computed`, `Effect`, the module-level
  lists as `Runtime`, list and dict objects as `Obj`, `WidgetShell`, `Model`, the channels, the search
  colours). Loops are loops: the stack walk, `put_buffers`, the flush, the effect loop, dump and load,
  `check_references`, the builder, `save_changes`.
* A computation function is a machine (`Fn`) that looks at the values read so far and either returns or
  names the next node to read, so what it reads, and how often, may depend on what it has read; the only
  condition (`Halts`) is that it returns in the end, whatever it reads. `Eval` is the simple thing
  the engine speeds up: it recomputes a node from scratch, with no cache, and says `Cycle` when it
  re-enters a node under evaluation. What its values are is also said without it: in a solution (`Solves`) each node
  has the value that its function returns when it is answered with the signals and with the other nodes' values. The ghost field `Runtime.st` mirrors every field of every object in one
  value; `Inv` says what every step keeps and `Stable` what holds between operations.
* `Refreshed` (used by `Signal.Set` and `Computed.Refit`) says: exactly the effects reachable from the change through
  subscriptions ran, each exactly once, no other output changed, each computed's function was called at most
  once and only if it was stale or reachable, and every value handed out was the from-scratch value after the change.
* A dict keeps its insertion order, which decides the order of `buffer_paths`; two states are equal when
  their canonical forms (`CanonOf`), where a dict is a map, are equal. Tuples are lists.
* Methods over the heap carry ghost graphs: `g` is what the input holds, `h` what was made. `Shows(g)` says the
  heap holds exactly that, so `Shows(g)` before and after says that the input was not touched.
* Errors are results, not preconditions. Callbacks of the host are scripts of further calls on the
  shell, nested to any depth, with or without a handler for errors.

Where the documentation and the code differ, the model follows the code, with an input that shows the difference and
the exact condition under which the promise is met:

* Loading what was dumped gives an equal state back (`Documents.ModelRoundTrip`), but its dicts may be in another order, so
  that dumping it again may permute a model's `buffers` (`Orders.RedumpPermutes`). They keep their order if and only if,
  in every dict of the state, no binary stands before an entry that holds a binary deeper down (`Orders.RedumpOrder`).
* A get that runs into a cycle raises, but leaves the node marked clean with an old value (`Runs.MutualRead`). The
  engine is stable after a get if and only if from-scratch evaluation of the node finds no cycle (`Reactive.Computed.Get`), and
  after a whole run if and only if the run did not raise (`Runs.RunOps`).
* The reducer takes a comm id at any time and is OPEN afterwards, also with no session open (`Lifecycle.LateId`). What it sends
  is finished sessions and at most one unfinished one, there exactly while it is OPEN, if and only if no comm id is learnt
  outside a session (`Lifecycle.ReducerLawful`). The shell never does that (`Lifecycle.WidgetShell.Run`).
* A bond in Pluto shows a state with binaries without them (`Replica.BondDiffers`); `Replica.BondExactly` says exactly when
  it shows the model's state.

## Model

| member | source | states |
|---|---|---|
| Reactive.EvalShrink | examples/benchmarks/reactive.py:114-120 | evaluation that succeeds while other nodes are being evaluated succeeds alone, with the same value |
| Reactive.CycleExactly | examples/benchmarks/reactive.py:114-116 | from-scratch evaluation of a node fails if and only if some chain of reads from it meets a node twice |
| Reactive.EvalAgree | examples/benchmarks/reactive.py:88-92 | a change that a set of settled nodes does not read changes neither their values nor what they read |
| Reactive.SolvedOnce | examples/benchmarks/reactive.py:101-112 | a settled set of computeds has exactly one solution, a value for each that its function returns when its reads are answered by the signals and the others' values; from-scratch evaluation gives it |
| Reactive.EvalExactly | examples/benchmarks/reactive.py:101-120 | from-scratch evaluation gives a node a value if and only if the node has that value in some solution whose nodes can be ranked so that each reads lower ones only |
| Reactive.SettledExactly | examples/benchmarks/reactive.py:114-116 | a node has a from-scratch value if and only if it lies in a settled set, one whose nodes have values and read within the set |
| Reactive.CachesSolve | examples/benchmarks/reactive.py:110-120 | at any time the clean caches solve the current inputs, and so does the output of each effect that is not about to run; the edges are the sources read on the way |
| Reactive.RankedNeverCycles | examples/benchmarks/reactive.py:10-14 | on an acyclic graph from-scratch evaluation always has a value, so nothing raises |
| Reactive.CachedValue | examples/benchmarks/reactive.py:112-120 | a clean cache equals the from-scratch value, also in the middle of other recomputations |
| Reactive.DirtyClosed | examples/benchmarks/reactive.py:88-92 | a dirty computed has only dirty, running or queued subscribers, so marking may stop there |
| Reactive.HandedKeeps | examples/benchmarks/reactive.py:29-37 | recording a dependency keeps the engine invariant |
| Reactive.LeftKeeps | examples/benchmarks/reactive.py:101-112 | the end of a recomputation keeps the invariant: the new value is the from-scratch one and the edges are exactly what was read |
| Reactive.InvalidatedKeeps | examples/benchmarks/reactive.py:60-66 | after any change of signals or of a function, marking what depends on it restores the invariant for the new inputs |
| Reactive.QueuedExactly | examples/benchmarks/reactive.py:133-135 | the queue after a change holds an effect if and only if it is reachable through subscriptions |
| Reactive.FlushedRefreshes | examples/benchmarks/reactive.py:40-42 | running that queue refreshes exactly the reachable effects, each once, on from-scratch values only |
| Reactive.ExtendedKeeps | examples/benchmarks/reactive.py:72-86 | new nodes keep the invariant and every cached value |
| Reactive.Signal.Init | examples/benchmarks/reactive.py:48-54 | a new signal keeps the engine stable |
| Reactive.Signal.Get | examples/benchmarks/reactive.py:56-58 | the current value, with the running node subscribed both ways |
| Reactive.Signal.Set | examples/benchmarks/reactive.py:60-66 | an equal value changes nothing; otherwise it raises if and only if some effect runs into a cycle when everything is re-evaluated from scratch, and else everything reachable is refreshed as told above |
| Reactive.Computed.CreateAll | examples/benchmarks/reactive.py:72-86 | new computeds are dirty and keep the engine stable, whatever their functions read: old nodes, each other, themselves |
| Reactive.Computed.Invalidate | examples/benchmarks/reactive.py:88-92 | terminates on every subscription graph, cyclic ones included, and marks what it should |
| Reactive.Computed.MarkStale | examples/benchmarks/reactive.py:94-99 | after the function changed: exact condition for raising, and else everything reachable is refreshed |
| Reactive.Computed.Refit | examples/benchmarks/reactive.py:94-99 | changing the function and marking stale, as one operation on a stable engine |
| Reactive.Computed.Recompute | examples/benchmarks/reactive.py:101-112 | the result is from-scratch evaluation's, and the caches then solve the current inputs; stacks are popped either way; a failure leaves the node marked clean, and the invariant is lost |
| Reactive.StaleIsLost | examples/benchmarks/reactive.py:105-112 | a computed marked clean that has no from-scratch value breaks the cache invariant |
| Reactive.Computed.Get | examples/benchmarks/reactive.py:114-120 | terminates on every graph, and returns the from-scratch value or raises exactly when from-scratch evaluation re-enters a node being evaluated; the clean caches, this one's value among them, then solve the current inputs; the cache invariant holds afterwards if and only if it returned, or refused to enter a node already being evaluated |
| Reactive.Effect.Create | examples/benchmarks/reactive.py:126-131 | a new effect runs once at once, on from-scratch values |
| Reactive.Effect.Execute | examples/benchmarks/reactive.py:137-146 | one run: counted once, rebuilt subscriptions, from-scratch values |
| Reactive.Runtime.Subscribe | examples/benchmarks/reactive.py:29-37 | source and subscriber are linked in both directions |
| Reactive.Runtime.Flush | examples/benchmarks/reactive.py:40-42 | each queued effect runs once, in order; raises exactly when one of them reaches a cycle |
| Runs.StableIsConsistent | examples/benchmarks/reactive.py:29-42 | between operations every clean cache and every effect's last output are from-scratch values and solve the current inputs, the edges are exactly what was read, in both directions, and only dirty computeds subscribe to dirty ones |
| Runs.ReachesDependents | examples/benchmarks/reactive.py:10-17 | on a stable engine a change reaches an effect through subscriptions if and only if the effect reads what changed, itself or through computeds, when everything is evaluated from scratch |
| Runs.RunOps | examples/benchmarks/reactive.py:45-146 | over any new signals, computeds and effects, sets, gets and changes of functions in any order, the engine returns the values and raises the errors of a run that keeps no cache and re-evaluates everything from scratch; it ends stable if and only if it did not raise, and then each effect has run again exactly once for each change of something it depends on |
| Runs.AcyclicNeverRaises | examples/benchmarks/reactive.py:1-18 | while the graph is acyclic after each operation, no run raises; an edge may be reversed on the way |
| Runs.MutualRead | examples/benchmarks/reactive_selftest.py:38-51 | two computeds created to read each other: a get raises and leaves the first one marked clean without a from-scratch value |
| Trees.BufsExact | src/cositos/buffers.py:125-130 | a pair is split out if and only if its path leads to that binary: one pair per binary leaf and no other |
| Trees.BufsApart | src/cositos/buffers.py:125-148 | the paths are pairwise distinct and none is a prefix of another |
| Trees.StripExactly | src/cositos/buffers.py:111-123 | path by path: a binary in a list gives way to None, a binary in a dict is gone, and everything else stays |
| Trees.CStripNoBinary | src/cositos/buffers.py:61-66 | nothing in the stripped state is a binary |
| Trees.StripNothing | src/cositos/buffers.py:111-123 | a state that holds no binary is left as it is |
| Trees.CanonStrip | src/cositos/buffers.py:69-82 | what a split leaves depends on the state only up to dict order |
| Trees.PutExactly | src/cositos/buffers.py:173-176 | a store succeeds if and only if the path leads to a container, which if a list has the last key; then the buffer is at its path and everything off the path is as before |
| Trees.PutAllExactly | src/cositos/buffers.py:172-176 | putting back succeeds if and only if each pair can be stored after those before it, and gives what the last store gives |
| Trees.PutSwap | src/cositos/buffers.py:172-176 | two stores at independent paths commute, failures included |
| Trees.PutPermuted | src/cositos/buffers.py:165-176 | the pairs of a split can be put back in any order, with the same result |
| Trees.RoundTrip | src/cositos/buffers.py:165-176 | putting back what was split out gives the original state, binaries in lists and nested dicts included |
| Trees.CanonPutAll | src/cositos/buffers.py:172-176 | storing into ordered dicts is storing into maps |
| Trees.RoundTripT | src/cositos/buffers.py:153-176 | the round trip on ordered states: equal to the original up to dict order |
| Graphs.RejectedExactly | src/cositos/buffers.py:94-98 | a graph is rejected if and only if some container path from the root repeats a container or is longer than 501; shared subtrees never are |
| Graphs.AcceptedDepth | src/cositos/buffers.py:131-136 | whether a container is accepted can be read off its state |
| Graphs.AcceptedState | src/cositos/buffers.py:100-104 | an accepted container denotes one finite state |
| Graphs.DenotesOnce | src/cositos/buffers.py:50-54 | a value denotes at most one state, so what a split returns is fixed |
| Buffers.Separate | src/cositos/buffers.py:69-150 | the walk terminates on every finite graph, raises exactly on rejected ones, changes nothing that existed, and returns the stripped state, the paths and the buffers in order; in every slot of the result, what holds no binary is the very value that stood there |
| Buffers.Visit | src/cositos/buffers.py:107-148 | one look at an item keeps the walk's invariant and has less work left |
| Buffers.Turn | src/cositos/buffers.py:107-148 | so does each turn of the loop, a finished frame included |
| Buffers.Pop | src/cositos/buffers.py:110-123 | a finished frame's result is written into the clone of its parent only if it changed; an unchanged child stays the same object in its slot |
| Buffers.RemoveBuffers | src/cositos/buffers.py:153-162 | the split of any value, a non-container included, copy on write in every slot |
| Buffers.DividedDenotes | src/cositos/buffers.py:111-123 | read off the heap, the result is the stripped state, and it is the input object if and only if there is no binary |
| Buffers.SparedExactly | src/cositos/buffers.py:79-81 | a path to a container of the input leads to a container of the result: to the same object if and only if that holds no binary, and else to a new one |
| Buffers.SeparateClone | csharp/Core.cs:311-359 | the plain recursive form that always clones gives the same stripped state, paths and buffers and rejects the same inputs |
| Frontend.Separate | front/src/buffers.js:36-52 | the recursive copy-on-write form gives the same stripped state, paths and buffers, and keeps the same values in place, at any depth |
| Frontend.RemoveBuffers | front/src/buffers.js:18-22 | every state, however deep it nests, is split as the kernel's specification says, which fixes the result |
| Merging.PutOne | src/cositos/buffers.py:173-176 | on any heap, one store, or none when the path breaks off |
| Merging.PutBuffers | src/cositos/buffers.py:165-176 | all stores in order up to the first failure; lists of different lengths raise after the stores before that |
| Merging.WriteTree | src/cositos/buffers.py:173-176 | a store into a clone on the heap is the store into its tree |
| Merging.BinariesOwned | src/cositos/buffers.py:119-128 | the container of every binary is a clone that the split made |
| Merging.WriteAllBuilt | src/cositos/buffers.py:172-176 | independent stores all succeed one after the other, and change clones only |
| Merging.SplitThenPut | src/cositos/buffers.py:153-176 | putting the buffers of a split back gives an equal state and leaves every container of the original graph as it was, shared subtrees included |
| Merging.SplitAndPut | src/cositos/buffers.py:153-176 | on the heap: splitting and then putting back succeeds whenever the split does, gives an equal state and touches nothing that existed |
| Base64.EncodeBits | src/cositos/serialize.py:73-75 | the text of a buffer has its bits, six at a time, as characters of the RFC 4648 alphabet, padded to a multiple of four |
| Base64.DecodeEncode | src/cositos/serialize.py:73-81 | the text of a buffer decodes to its bytes |
| Documents.EncodedExactly | src/cositos/serialize.py:48-57 | one record per pair in order: its path, the encoding base64, and that text |
| Documents.DecodeEncodeBuffers | src/cositos/serialize.py:48-70 | decoding the encoded records gives the paths and buffers back, in order |
| Documents.DumpExactly | src/cositos/serialize.py:133-154 | a dump fails if and only if an id is empty or repeated, or a state is no dict or nests too deep; else a document of version 2.0 with one record per entry, in order |
| Documents.LoadExactly | src/cositos/serialize.py:157-181 | a document loads if and only if it has models, is of major version 2 and every record loads; a missing mapping, another version and a state that is no mapping are told apart, in that order |
| Documents.LoadModelExactly | src/cositos/serialize.py:119-130 | a record loads if and only if each of its buffers is base64 and can be stored at its path after those before it; that gives its state |
| Documents.LoadModelsExactly | src/cositos/serialize.py:181-181 | loading succeeds if and only if every record loads, and keeps the order |
| Documents.ModelRoundTrip | src/cositos/serialize.py:95-130 | loading a dumped model gives its id and an equal state |
| Documents.DocumentRoundTrip | src/cositos/serialize.py:133-181 | loading a dumped document gives the entries back in order, binaries included |
| Documents.RecordIdentity | src/cositos/serialize.py:108-111 | the identity of a record is the state's own where it has one, else the default |
| Documents.RecordBuffers | src/cositos/serialize.py:100-116 | a record has buffers if and only if its state holds a binary, then one for each in the order of the split; its state is the stripped one |
| Documents.SameBuffers | src/cositos/serialize.py:106-107 | equal states give the same paths and buffers, in some order |
| Documents.Redump | src/cositos/serialize.py:95-181 | dumping what was loaded gives an equal document, except that a model's buffers may be permuted |
| Orders.PutSettled | src/cositos/serialize.py:127-129 | what a round trip gives exactly: in every dict the binaries move behind the other entries, in their order |
| Orders.OrderExactly | src/cositos/buffers.py:165-176 | splitting that again gives the buffers in the original order if and only if no dict has a binary before an entry with a binary deeper down |
| Orders.RedumpOrder | src/cositos/serialize.py:100-130 | dumping a loaded document again gives a model's buffers in the same order under exactly that condition on its state |
| Orders.RedumpPermutes | src/cositos/serialize.py:100-130 | a state whose two buffers change places: a binary, then a dict with a binary |
| Documents.RefsExact | src/cositos/serialize.py:184-199 | an id is found in a state if and only if some string in it, at any depth, in a list or a dict, is the prefix and that id, a line, with or without a line break after it |
| Documents.RefsByPath | src/cositos/serialize.py:184-199 | the same for paths of keys, so that the order of dict entries plays no part |
| Documents.StripRefs | src/cositos/serialize.py:188-199 | a split keeps the references of a state, in order |
| Documents.CheckReferences | src/cositos/serialize.py:202-227 | an id is reported under a model if and only if a string in that model's state names it and no model has it; the report is empty if and only if there is no such id |
| Documents.DumpedClosed | src/cositos/serialize.py:133-227 | a dumped document passes that check if and only if every id that a string in an entry's state names is an entry's |
| Serialize.DumpModel | src/cositos/serialize.py:95-116 | on the heap: the record, or the error; the model's state is not touched |
| Serialize.DumpDocument | src/cositos/serialize.py:133-154 | on the heap: the dumped document, or the first error in order |
| Serialize.DeepCopy | src/cositos/serialize.py:127-127 | an equal value made of new containers only |
| Serialize.WriteAllOwned | src/cositos/serialize.py:129-129 | merging into the copy is merging into its tree, failures included |
| Serialize.LoadModel | src/cositos/serialize.py:119-130 | the loaded model, or the error; the record is not touched |
| Serialize.LoadDocument | src/cositos/serialize.py:157-181 | the loaded entries, or the first error in order; the document is not touched |
| Protocol.MergeCanon | src/cositos/protocol.py:62-62 | host state wins over the identity fields |
| Protocol.FilterCanon | src/cositos/lifecycle.py:230-233 | an update of some keys has exactly those of them that the state has |
| Protocol.RefusedExactly | src/cositos/buffers.py:92-98 | a comm_open and an update are refused if and only if some container path in the state repeats a container or is longer than 501 |
| Protocol.IdentityFields | src/cositos/protocol.py:29-51 | the seven identity fields, name by name |
| Protocol.AssembleExactly | src/cositos/lifecycle.py:268-272 | what an inbound update gives: nothing unless its state is a dict, there are as many paths as buffers and each buffer can be stored after those before it |
| Protocol.Assembled | src/cositos/lifecycle.py:268-272 | whoever gets a split state assembles the state that was sent |
| Protocol.OpenTellsState | src/cositos/protocol.py:54-66 | a comm_open is of protocol version 2.1.0 and tells the whole state over the identity fields, binaries included |
| Lifecycle.SendTells | src/cositos/lifecycle.py:222-236 | whoever gets an update assembles the whole state over the identity fields, or exactly the requested keys, binaries included |
| Lifecycle.SendRefused | src/cositos/lifecycle.py:228-235 | an update is refused if and only if a value among those to send nests deeper than 500 containers |
| Lifecycle.ReduceFits | src/cositos/lifecycle.py:161-287 | every result of the reducer is one of five shapes, each with the phases it may connect; learning the comm id gives OPEN and no effect |
| Lifecycle.ReducerLawful | src/cositos/lifecycle.py:161-287 | over any events in any order, what the reducer alone has sent is finished sessions and at most one unfinished one, there exactly while its phase is OPEN, if and only if no comm id was learnt outside a session |
| Lifecycle.LateId | src/cositos/lifecycle.py:196-197 | a comm id learnt before any session gives OPEN with no session |
| Lifecycle.ScanLanguage | src/cositos/lifecycle.py:202-287 | what an accepted log sent is (comm_open comm_msg* comm_close)* and at most one unfinished session |
| Lifecycle.LanguageScans | src/cositos/lifecycle.py:202-287 | and back: messages in that language are accepted, with the same answer to whether a session is open |
| Lifecycle.CallbacksWhileOpen | src/cositos/lifecycle.py:257-281 | in an accepted log the host is called only inside a session |
| Lifecycle.WidgetShell.Open | src/cositos/lifecycle.py:352-360 | idempotent; one comm_open, the handler at most once ever, the transport's id adopted; a state that nests too deep raises and changes nothing |
| Lifecycle.WidgetShell.ReprMimebundle | src/cositos/lifecycle.py:394-398 | display opens the comm if it is not open and gives the model id |
| Lifecycle.WidgetShell.SendState | src/cositos/lifecycle.py:362-369 | outside a session it raises, sends nothing and keeps the phase; inside, one update of the requested keys |
| Lifecycle.WidgetShell.SendCustom | src/cositos/lifecycle.py:371-383 | exact conditions for rejection; a rejected call sends nothing and keeps the phase |
| Lifecycle.WidgetShell.Close | src/cositos/lifecycle.py:385-387 | one comm_close if open, else nothing |
| Lifecycle.WidgetShell.HandleInbound | src/cositos/lifecycle.py:441-456 | dropped outside a session; inside, exactly the callback or answer asked for by the method that the message names (update, request_state, custom; nothing for any other), whatever the callback then does; unless it closes the session or takes another message, the host is given that state and no other |
| Lifecycle.WidgetShell.Execute | src/cositos/lifecycle.py:404-409 | the effects in order, and the invariant of the shell after any nested callbacks |
| Lifecycle.WidgetShell.RunScript | src/cositos/lifecycle.py:432-437 | a callback that makes any calls on the shell, errors handled or not, keeps the shell's invariant |
| Lifecycle.WidgetShell.Run | src/cositos/lifecycle.py:352-456 | over every run: the wire language, OPEN iff a session is unfinished, at most one handler registered, host callbacks only while open |
| Replica.UpdateTells | front/src/model.js:95-102 | an update tells exactly the entries it was made of, binaries included |
| Replica.SyncedSave | front/src/model.js:95-102 | saving keeps the agreement of every key that is not dirty, and leaves none dirty |
| Replica.SyncedDeliver | front/src/channels.js:55-68 | so does delivering the oldest message |
| Replica.Drained | front/src/model.js:80-125 | nothing in flight and nothing dirty means equal states |
| Replica.Model.Set | front/src/model.js:80-84 | the key is set and dirty, nothing else changes |
| Replica.Model.SaveChanges | front/src/model.js:95-102 | one update of exactly the dirty keys with their current values, or none |
| Replica.Model.Receive | front/src/model.js:114-125 | the state takes over exactly what the update carries |
| Replica.MemoryChannel.Deliver | front/src/channels.js:55-68 | the oldest message reaches the peer first |
| Replica.Pair.Perform | front/src/model.js:80-125 | every step of two ends of which one is written keeps their agreement |
| Replica.Pair.Run | front/src/channels.js:41-69 | in every reachable state each key that is not dirty equals the peer's after what is in flight; drained and clean means equal |
| Replica.ToldIsApplied | src/cositos/lifecycle.py:257-272 | a host that merges what its shell tells it applies the packet, whatever the packet is |
| Replica.ShellPair.Deliver | src/cositos/lifecycle.py:441-456 | the oldest message reaches the shell, whose callbacks call back, and model and host still agree; a custom message gives the host its content and buffers, a request is answered once with the identity fields and the state |
| Replica.ShellPair.Run | front/src/model.js:80-125 | over every run of a frontend model and the kernel's shell with the session open: each key that is not dirty equals the host's store after what is in flight, the store being what the host was given, merged in order; drained and clean means equal |
| Replica.PublishedExactly | front/src/channels.js:187-206 | a saved value reaches the bond unchanged if and only if it holds no binary, or is a binary already shown |
| Replica.BondExactly | front/src/channels.js:187-206 | after a save the bond shows the model's state if and only if that holds for every saved value and it showed the rest before |
| Replica.BondDiffers | front/src/channels.js:187-206 | a list that holds a binary: after the save the bond shows something else |
| Replica.RunBond | front/src/channels.js:167-207 | for values without binaries, the bond shows every key that is not dirty after any run |
| Acyclic.Search.Visit | examples/benchmarks/benchlib.py:133-141 | the search from a node terminates, and finds a cycle or ranks everything it reached |
| Acyclic.WalkDescends | examples/benchmarks/benchlib.py:124-143 | a rank that falls along every edge rules out any walk that comes back |
| Acyclic.IsAcyclic | examples/benchmarks/benchlib.py:124-143 | true if and only if the graph has no cycle, self-loops included, for every edge list |
| ScriptEscape.EscapeHead | src/cositos/embed.py:30-34 | character by character: a less-than sign is escaped if and only if it starts a script tag or a comment opener, and nothing else changes |
| ScriptEscape.NothingBreaks | src/cositos/embed.py:28-34 | at no place in the escaped text does `<script`, `</script` or `<!--` stand, in any letter case |
| ScriptEscape.SameTokens | src/cositos/embed.py:77-83 | JSON text and its escaped form have the same tokens |
| ScriptEscape.SameValue | src/cositos/embed.py:77-83 | JSON text and its escaped form parse to the same value |
| ScriptEscape.ElementEnds | src/cositos/embed.py:77-85 | inside its element, the first sequence the HTML parser reacts to is the element's own end tag |
| Embedding.EmbeddedReads | src/cositos/embed.py:77-83 | whatever value is written as indented ASCII JSON, escaped and embedded is the value that is read back |
| Controls.Build | src/cositos/contrib/controls.py:88-122 | the widget's entry first, then its companions under fresh ids |
| Controls.WidgetStateCanon | src/cositos/contrib/controls.py:104-121 | in a widget's state the caller's values win over the companion references, and those over the catalog's defaults and identity |
| Controls.IndexOf | src/cositos/contrib/controls.py:143-145 | the first position of the value among the labels, if it is there |
| Controls.SliderShown | src/cositos/contrib/controls.py:88-127 | a slider's three entries: the given value, min and max, its model and view, and references to the style and the layout that follow |
| Controls.DropdownShown | src/cositos/contrib/controls.py:130-146 | a dropdown's three entries: the labels in order, the index given or else the first place of the chosen label or none, and its references |
| Controls.BoxShown | src/cositos/contrib/controls.py:149-173 | a box: VBoxModel or HBoxModel, references to its children in order, and one to its layout |
| Controls.BoxBelow | src/cositos/contrib/controls.py:149-153 | after it and its layout come its children's entries, in order |
| Controls.OwnSound | src/cositos/contrib/controls.py:94-122 | one widget's entries have distinct ids minted from its root, can be dumped and refer to known ids only |
| Controls.EntriesGood | src/cositos/contrib/controls.py:149-173 | so do the entries of any tree of boxes and widgets |
| Controls.BuilderClosed | src/cositos/contrib/controls.py:125-173 | whatever is composed from the builders, each widget used once, can be dumped, and no string in the document names an id that is not there |

## Left out

- Effects or computed functions that write signals, create nodes or raise errors of their own, and computed functions that never return: outside the engine's stated guarantees.
- After a cycle error no operation is modelled, because the code leaves a stale value behind: every operation asks for an engine that is stable, which it is exactly until something raises.
- Runs.RunOps: computeds whose functions mention each other are created in one step; the code creates them one after the other and nothing reads them in between.
- The `_edges` debug lists, names and the shared counter of the reactive engine: each effect has its own run count.
- Recursion limits of Python and JavaScript: recursion here ends when the data does. The frontend's split of a cyclic state, which checks for nothing and recurses until its call stack is used up.
- Replica.Model.Receive: asks for an update whose buffers have a place, because JavaScript's assignments for other paths (array holes, strings) are not modelled.
- Negative list indices in buffer paths, and a put into a string or bytes object in the middle of a path.
- Replica.ShellPair.Run: what the shell sends to the model is not delivered, as that makes a second writer; closing the session, or an inbound message from elsewhere, ends the agreement.
- In-place changes of a container that two ends of a memory channel share by reference: the replica is modelled on values, and `Merging.SplitThenPut` shows that a delivery itself changes clones only.
- Serialize.LoadDocument: asks for a document whose states are finite trees, which is what JSON text and a dump give.
- Serialize.DeepCopy: copies a container as often as it occurs; `copy.deepcopy` keeps sharing, which can be seen only in a record whose state has shared containers.
- Base64.Decode: Python skips characters outside the alphabet; the model accepts only digits with padding (`Base64.DecodesExactly`).
- Documents whose records or buffer entries lack the keys that the dumper writes, and the sorted wording of the error message of `check_references`.
- Inbound updates whose state is not a dict, except that the shell raises and nothing is sent.
- Aliasing of `event.message`, of which only the top-level dict is copied before buffers are put into it.
- Protocol.RefusedExactly: host states that are trees; a cyclic one, which the walk rejects (`Graphs.RejectedExactly`), has no tree that the shell's model could be given.
- A transport whose `send` raises or calls back into the shell; inbound messages after close and reopen, where the transport makes a new comm but the handler is not registered again.
- A `get_state` that calls back into the shell: what it returns is a parameter of each call.
- Change listeners of the frontend model, which run after a key is set: a listener's own calls are further steps of a run. `Emitter.off`.
- Embedding.Write: which text stands for a number (words are given), and the step from a document to its JSON value.
- Letter case outside ASCII in the script escape: the serializer writes ASCII only. HTML around the script elements and the loader.
- `LocalChannel` and `ClayChannel`, the R port and the C# shell, kernel and process I/O, mimebundles, the anywidget view code.
- uuids: a root id is a parameter that must be fresh and without a hyphen.
