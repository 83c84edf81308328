# Eronom verification

Models of the parts of Eronom and of its vendored libuv that are hard to get right, and proofs about
them, in Dafny 4.11. Verify with `dafny verify dfyconfig.toml`.

* **Two compilers to a block graph.** `BlockGraph` is the builder with mutable typed variables and the
  meaning of a finished graph; `Emission` lays out a program of straight code, jumps, branches, stops
  and yields, and proves that graph and program run alike. `Eir` and `EirCompiler` are the E-IR and the
  ahead-of-time compiler; `Bytecode` and `JitCompiler` the bytecode and the compiler to native code that
  spills its registers at every call and await, returns, and is entered again. What a call or an
  operation on floats computes is a parameter (`Host`), and so is what the virtual machine does between
  a yield and the next entry (`Service`). `Helpers` links the names that the compiler chooses with what
  the runtime does; `WordLaws` says what the words, jumps and constants of both compilers stand for.
* **The heap of the event loop** (`MinHeap`): parent pointers, the bit path to the last place, and
  swapping by copying structs, over objects on Dafny's heap.
* **Indexes and caches.** `Router` is the segment tree with backtracking against a flat list of routes,
  and `RoutePaths` what its paths, patterns and methods mean; `Shapes` the four shape caches against one book; `Boxing` the tagged word against its content.
* **Analysis and rewriting of syntax trees.** `Ast`; `Effects`, the inference of rungs and its capped
  iteration, and `EffectChains`, what the rungs mean; `Sync`, the checker of synchronous contexts, and
  `Suspension`, what its silence means; `Script`, an evaluator; `Transpile`, the reactivity rewrite and
  its simulation, and `Unwritten`, the rewrite undone.
* **Parsers and printers.** `Inet`, IPv4 and IPv6 addresses as text; `Lexer`, with literals that hold
  expressions, `Tokens`, the spellings of all tokens, and `Literals`, when a literal is the sum that it
  stands for; `ErmEval`, the evaluating parser of templates; `PathNames`.
* **Step protocols and digests.** `ResponseToken`, the shared HTTP response; `FsPoll`, the contexts of a
  file poll; `Md5`, with the RFC's in-place registers as the standard.

Objects that the source changes in place are classes whose methods are proved against specification
functions; what the source promises is proved about those functions. Where code and specification
would share a table, a constant or an operation - the names of helpers, the spellings of tokens, the
parking primitives, what operators compute, the bits of a word - what it means is stated apart from it.

## Where the code falls short

Each of these is a lemma with the input, and beside it stands the exact condition, or the condition
under which the promise is proved.

* The effect iteration stops after ten rounds. It is enough for every program with n functions' names
  exactly when n is at most ten (`Effects.CapExact`); a chain of eleven lets a sync block reach `sleep`
  (`Suspension.CapLetsThrough`).
* A function declared inside another is not collected, so `fn outer() { fn inner() { sleep(); } sync {
  inner(); } }` is accepted, and evaluation of the block suspends (`Suspension.NestedLetsThrough`); with
  any other inner body it suspends exactly when that body does, and the checker does not ask
  (`Suspension.NestedExact`). Where every called name stands for a collected function or a primitive,
  nothing suspends (`Suspension.FirstOrderSound`).
* The rewrite does not count an exported declaration as shadowing (`Transpile.ExportForgotten`), nor a
  second declaration at the top of a script (`Transpile.RedeclarationForgotten`), nor a declared
  function's own name inside it (`Transpile.SelfForgotten`); it steps a call for `x.value++`
  (`Transpile.CellStepForgotten`), and a script that binds `erm` hides the runtime from it
  (`Transpile.ErmHidden`). Without these it preserves meaning (`Transpile.RewritePreserves`).
* A call or an await that ends a function is resumed at its first instruction (`JitCompiler.ResumeExact`,
  both directions).
* Remainder, bit and shift operators on floats are compiled to an addition (`EirCompiler.FloatFormExact`),
  and unary operators other than the negation to a copy (`EirCompiler.UnaryFormExact`), both in both
  directions.
* A file poll that is started again before `poll_cb` of the earlier period has returned - while its stat
  is in flight, or out of its own callback after a stop - runs into a failed assertion, from every such
  state (`FsPoll.EarlyStartFails`, `FsPoll.RestartInCallbackFails`); a start leads to safe runs exactly
  when `poll_cb` had returned (`FsPoll.StartExact`). And a start that gets no memory for its first
  request frees a context whose timer the loop still lists; a run leaves such timers behind exactly when
  it has such a start (`FsPoll.DanglesExactly`).
* A thread that has read the response before an abort still ends it afterwards
  (`ResponseToken.EndAfterAbort`); exactly those threads can (`ResponseToken.AbortExact`).
* Minus infinity and the most negative finite floats are boxed as a NaN, and boxed without the check
  minus infinity is taken for a method (`Boxing.UncheckedInfinity`); a float comes back exactly when its
  bits lie below the tags (`Boxing.FloatExact`).
* A literal does not always lex as the sum of its parts: `"s{//}"` loses what follows as a sum
  (`Literals.CommentInLiteral`). An expression that is closed - no open literal, no open comment, no
  character that starts no token - can stand in front of any text, and no other (`Lexer.ClosedExactly`).
  With closed expressions the literal is its sum (`Lexer.LiteralIsSum`); with one open expression, the
  last, it is not (`Literals.LastExactly`); a literal and all that it begins with, up to any of its
  expressions, are their sums exactly when all are closed (`Literals.PrefixesExactly`). A later part can
  make up for an open expression before it (`Literals.OpenYetSum`), so that a whole literal is its sum
  exactly when the text of the sum is closed and has its tokens (`Literals.SumExactly`).
* Two equal map keys can be hashed differently (`Boxing.KeysApart`): equal keys are hashed alike exactly
  when they are one word or their strings can be read (`Boxing.KeysHashAlike`), and boxed keys always are
  (`Boxing.BoxedKeys`).

## Model

| member | source | states |
|---|---|---|
| MinHeap.PathTo | deps/libuv/src/heap-inl.h:122-125 | the bits collected by halving, read back lowest first, walk from the root to exactly the wanted position |
| MinHeap.WalkHeight | deps/libuv/src/heap-inl.h:122-136 | a walk of k steps from position p ends between p * 2^k and (p + 1) * 2^k, so every walk stays on its level |
| MinHeap.Heap.Descend | deps/libuv/src/heap-inl.h:127-136 | following the bits over child pointers reaches the slot of the wanted position and the slot of its parent |
| MinHeap.Heap.SwapNodes | deps/libuv/src/heap-inl.h:72-104 | swapping a parent and a child by copying structs relinks all six neighbours: in level order exactly these two members change places |
| MinHeap.SwapRelinks | deps/libuv/src/heap-inl.h:72-104 | the pointers written by the swap are those of the level order with two positions exchanged, at every position |
| MinHeap.RootIsLeast | deps/libuv/src/heap-inl.h:67-69 | for any strict weak order, no member of an ordered heap sorts before heap_min |
| MinHeap.SiftUpStep | deps/libuv/src/heap-inl.h:146-147 | one swap upwards moves the only place where order may fail to the parent |
| MinHeap.SiftDownStep | deps/libuv/src/heap-inl.h:220-230 | one swap with the smaller child moves the only place where order may fail to that child |
| MinHeap.LeastOfThree | deps/libuv/src/heap-inl.h:220-228 | when neither child is smaller, the heap is ordered around the node again |
| MinHeap.Heap.Insert | deps/libuv/src/heap-inl.h:106-148 | a valid heap stays complete, linked and ordered, and its members grow by exactly the new node |
| MinHeap.Heap.Remove | deps/libuv/src/heap-inl.h:150-237 | removing any member keeps a complete, linked, ordered heap whose members shrink by exactly that node; nothing happens when it is empty |
| MinHeap.Heap.Dequeue | deps/libuv/src/heap-inl.h:239-241 | what goes is heap_min, which no member sorts before |
| MinHeap.Heap.PutInPlace | deps/libuv/src/heap-inl.h:196-214 | the last node takes over all pointers to and from the removed one |
| BlockGraph.RunAdds | crates/eronom-cranelift/src/lib.rs:349-889 | a run of m steps followed by one of n steps is the run of m + n steps |
| BlockGraph.CodeRuns | crates/eronom-cranelift/src/lib.rs:349-889 | code that lies in a block has, step by step, the effect of executing it as a whole |
| Emission.EmitBody | crates/eronom-cranelift/src/lib.rs:393-880 | the emission loop with its terminated flag lays out every reachable pc, enters every block once and ends each with one terminator |
| Emission.RunForward | crates/eronom-cranelift/src/lib.rs:393-880 | whatever a program has come to after m steps, the graph comes to, with the same data |
| Emission.ResultKept | crates/eronom-cranelift/src/lib.rs:393-880 | whatever a program ends with, its graph ends with |
| Emission.ResultReflected | crates/eronom-cranelift/src/lib.rs:393-880 | whatever a graph ends with, its program ends with; so neither runs for ever alone |
| Emission.SkippedIsUnreachable | crates/eronom-cranelift/src/lib.rs:404-406 | a pc for which the loop emitted nothing is never reached |
| EirCompiler.CompileFunctionBody | crates/eronom-cranelift/src/lib.rs:349-889 | the whole of the emission, for every well-formed function: the blocks are a finished layout of its program behind an entry block |
| EirCompiler.CreateLabels | crates/eronom-cranelift/src/lib.rs:363-374 | one fresh block for each branch target, and for nothing else |
| EirCompiler.AllEntered | crates/eronom-cranelift/src/lib.rs:393-880 | every created block is entered and has its terminator |
| EirCompiler.RunAgrees | crates/eronom-cranelift/src/lib.rs:408-876 | interpreting the instruction list and running the lowered program agree after any number of steps, register by register as last written |
| EirCompiler.Started | crates/eronom-cranelift/src/lib.rs:376-391 | the entry block leads to pc 0 with each argument in the register file of its type |
| EirCompiler.ResultKept | crates/eronom-cranelift/src/lib.rs:349-889 | whatever the interpreter returns or traps with, the compiled graph does |
| EirCompiler.ResultReflected | crates/eronom-cranelift/src/lib.rs:349-889 | whatever the compiled graph ends with, the interpreter does, if it never reads a register of the wrong type; so the graph diverges when it does |
| EirCompiler.SkippedIsUnreachable | crates/eronom-cranelift/src/lib.rs:404-406 | an instruction that was skipped as terminated is never reached |
| EirCompiler.FloatFormExact | crates/eronom-cranelift/src/lib.rs:438-467 | a binary operator keeps its meaning on floats exactly when it is one of the arithmetic and comparison operators |
| EirCompiler.NoFloatForm | crates/eronom-cranelift/src/lib.rs:467-467 | for each of the others there is a host on which the emitted addition differs |
| EirCompiler.UnaryFormExact | crates/eronom-cranelift/src/lib.rs:550-563 | a unary operator keeps its meaning on floats exactly when it is the negation |
| WordLaws.WrapExact | crates/eronom-cranelift/src/lib.rs:509-513 | the sum, difference or product is the one 64-bit word that differs from it by a multiple of two to the 64th |
| WordLaws.QuotientExact | crates/eronom-cranelift/src/lib.rs:514-515 | a quotient is the one whose remainder is smaller than the divisor and has the dividend's sign |
| WordLaws.ComparisonBranches | crates/eronom-cranelift/src/lib.rs:600-612 | a branch on the result of a comparison falls through exactly when the comparison holds |
| WordLaws.BuiltinsAreNatives | crates/eronom-cranelift/src/lib.rs:657-667 | exactly print, println, serve and JSON are built in, as native functions 1, 1, 2 and 3 |
| Bytecode.StepKeepsRegs | crates/eronom-cranelift/src/jit.rs:196-712 | a step keeps the number of registers and leaves the pc inside the code; only calls and awaits yield |
| Helpers.HelperExact | crates/eronom-cranelift/src/jit.rs:782-832 | in the table of symbols the name chosen for an instruction stands for that instruction's own operation |
| Helpers.StepPerforms | crates/eronom-cranelift/src/jit.rs:196-712 | linked with that table, each instruction with a helper performs its own operation on its own operands in their order, and its value goes to its first register |
| WordLaws.LoopUndoesJump | crates/eronom-cranelift/src/jit.rs:139-165 | a jump counts from behind itself, and a loop goes back by what a jump with the same operand goes forward |
| WordLaws.ConstantsAreBoxed | crates/eronom-core/src/value.rs:8-10 | the words that compiled code loads for null, false and true are the boxed values |
| WordLaws.LoadsAreBoxed | crates/eronom-cranelift/src/jit.rs:222-230 | LoadNull and LoadBool load the boxed null and the boxed flag of their operand |
| WordLaws.FalseyExact | crates/eronom-core/src/value.rs:42-44 | a conditional jump is taken for the boxed null and false, and for no other content |
| JitCompiler.CalculateNumRegs | crates/eronom-cranelift/src/jit.rs:834-845 | every register that any instruction touches, spans included, lies below the result |
| JitCompiler.CalculateResumeTargets | crates/eronom-cranelift/src/jit.rs:847-857 | marks exactly the pcs behind a call or an await |
| JitCompiler.CreateLabels | crates/eronom-cranelift/src/jit.rs:139-165 | every pc that a jump, a branch or a resumption can lead to has a block |
| JitCompiler.EmitDispatch | crates/eronom-cranelift/src/jit.rs:167-192 | the chain of tests over the start pc is laid out, in whatever order the targets come |
| JitCompiler.DispatchRuns | crates/eronom-cranelift/src/jit.rs:167-192 | the chain leads to the target that the start pc names, with the registers reloaded, and to pc 0 for any other |
| JitCompiler.EntryRuns | crates/eronom-cranelift/src/jit.rs:107-192 | from the entry block the code reaches the selected pc with arguments and nulls, or saved registers, in place |
| JitCompiler.CompileFunction | crates/eronom-cranelift/src/jit.rs:70-712 | the whole emission for every acceptable function |
| JitCompiler.SpillWrites | crates/eronom-cranelift/src/jit.rs:641-644 | spilling writes every register to its slot and changes nothing else |
| JitCompiler.CallReports | crates/eronom-cranelift/src/jit.rs:640-654 | a call returns the status of a call with pc, registers and the saved frame reported |
| JitCompiler.AwaitReports | crates/eronom-cranelift/src/jit.rs:667-680 | an await returns the status of a suspension with pc, register and the saved frame reported |
| JitCompiler.RunAgrees | crates/eronom-cranelift/src/jit.rs:196-712 | interpreting the bytecode and running the lowered program agree after any number of steps |
| JitCompiler.EntryKept | crates/eronom-cranelift/src/jit.rs:70-712 | entered at any pc, the code ends with what the interpreter's frame ends with: a return, a throw, or a yield with all it reports |
| JitCompiler.EntryReflected | crates/eronom-cranelift/src/jit.rs:70-712 | and only with that: the code never traps, and runs for ever only when the interpreter does |
| JitCompiler.ResumeExact | crates/eronom-cranelift/src/jit.rs:847-857 | after a yield the frame can be entered behind it exactly when an instruction follows; otherwise it starts again at pc 0 |
| JitCompiler.CutRunKept | crates/eronom-cranelift/src/jit.rs:640-680 | what an uncut run ends with, the run cut at every call and await and entered again behind each ends with |
| JitCompiler.CutRunReflected | crates/eronom-cranelift/src/jit.rs:640-680 | what a run cut any number of times ends with, the uncut run ends with |
| Router.RadixRouter.Insert | crates/eronom-vm/src/router.rs:60-104 | after any inserts the tree represents the list of the routes inserted so far, in order |
| Router.RadixRouter.Clear | crates/eronom-vm/src/router.rs:41-44 | the tree represents the empty list |
| Router.InsertedRepresents | crates/eronom-vm/src/router.rs:60-104 | adding a route below a node adds it to the routes the node stands for, behind the others |
| Router.ByRankInOrder | crates/eronom-vm/src/router.rs:88-99 | sorting children by rank keeps first-insertion order among parameters |
| Router.SearchAnswers | crates/eronom-vm/src/router.rs:120-190 | the depth-first search with backtracking finds the best route of the flat list, or none when none serves |
| Router.AnswerUnique | crates/eronom-vm/src/router.rs:106-118 | the list's answer is unique: static before parameters in first-insertion order before wildcards, then the method's own handler before the fallbacks |
| Router.RadixRouter.Find | crates/eronom-vm/src/router.rs:106-118 | what is found, with its bindings, is the answer of the list of inserted routes |
| Router.GetHandler | crates/eronom-vm/src/router.rs:120-190 | returns what the search finds and merges its bindings, the shallowest winning |
| Router.MatchNode | crates/eronom-vm/src/router.rs:192-257 | the second matcher agrees with the first on outcome, handler and bindings |
| Router.CollectHandlers | crates/eronom-vm/src/router.rs:259-272 | collects exactly the handlers the tree holds |
| Router.HoldsRegistered | crates/eronom-vm/src/router.rs:259-272 | those are exactly the handlers of the list that no later route of the same pattern and method replaced |
| Router.FoundIsHeld | crates/eronom-vm/src/router.rs:106-272 | whatever a request finds is among the collected handlers |
| Router.PathSegments | crates/eronom-vm/src/router.rs:46-58 | segments are never empty and hold no slash |
| RoutePaths.SplitJoined | crates/eronom-vm/src/router.rs:46-58 | joining any segments behind a slash and splitting gives exactly them back |
| RoutePaths.QueryIgnored | crates/eronom-vm/src/router.rs:49-52 | what stands behind a question mark does not matter |
| RoutePaths.WhiteIgnored | crates/eronom-vm/src/router.rs:47 | neither does white space around the path |
| RoutePaths.DoubledSlash | crates/eronom-vm/src/router.rs:54-57 | nor a second slash at any place |
| RoutePaths.TrailingSlash | crates/eronom-vm/src/router.rs:54-57 | nor one at the end |
| RoutePaths.SameMethod | crates/eronom-vm/src/router.rs:61 | two methods have one key exactly when they differ in nothing but the case of ASCII letters, whatever white space is around |
| RoutePaths.MatchesExactly | crates/eronom-vm/src/router.rs:65-77 | a pattern text without a wildcard matches exactly the paths of its length that have its literal segments, with anything for a name behind a colon |
| RoutePaths.BindsNames | crates/eronom-vm/src/router.rs:168-177 | exactly the names behind colons are bound, without the colon, each to the segment at its first place |
| RoutePaths.WildBinds | crates/eronom-vm/src/router.rs:178-188 | a wildcard's name is bound to the rest of the path, joined by slashes |
| RoutePaths.OneRoute | crates/eronom-vm/src/router.rs:60-118 | with one route, a request for a path that fits its pattern, in any case of the method and with any query, is answered by its handler with these bindings |
| RoutePaths.KeysExactly | crates/eronom-vm/src/router.rs:130-188 | the fallbacks ALL and * serve every pattern, ANY those that do not end in a wildcard, and nothing else does |
| Shapes.ShapeCaches.GetShape | crates/eronom-core/src/shape.rs:39-101 | the one-key, the two-key and the general cache together answer as one book would |
| Shapes.ShapeCaches.GetShape2 | crates/eronom-core/src/shape.rs:20-36 | the two-key entry point answers as the general one does |
| Shapes.ShapeCaches.Transition | crates/eronom-core/src/shape.rs:104-122 | one descriptor for a parent and a key, with the next offset for the key |
| Shapes.SharedExactly | crates/eronom-core/src/shape.rs:20-131 | over any run of requests, transitions and resets, two steps return one object exactly when they ask for the same thing with no reset between; no two objects share an id |
| Shapes.DenseExactly | crates/eronom-core/src/shape.rs:39-122 | however a descriptor came about, its i-th key has offset i and it holds no other key, exactly when the keys are all different |
| Shapes.TransitionAppends | crates/eronom-core/src/shape.rs:104-122 | a transition keeps every offset of any parent and puts a new key behind them |
| Boxing.OneKind | crates/eronom-core/src/value.rs:127-220 | no word has two kinds, and only a null tag with something behind it has none |
| Boxing.BoxedKind | crates/eronom-core/src/value.rs:31-125 | a boxed content satisfies the predicate of its kind and no other |
| Boxing.FloatExact | crates/eronom-core/src/value.rs:46-60 | a float comes back unchanged exactly when its bits lie below the tags |
| Boxing.UncheckedInfinity | crates/eronom-core/src/value.rs:46-60 | minus infinity becomes a NaN, and unchecked it has the kind of a method |
| Boxing.TruthExact | crates/eronom-core/src/value.rs:36-44 | boxed contents are true unless they are null or false, and only the true flag is read as true |
| Boxing.InlineString | crates/eronom-core/src/value.rs:63-75 | strings of up to six bytes fit and others are refused |
| Boxing.AsStrExact | crates/eronom-core/src/value.rs:232-256 | a string is read back byte for byte, inline or from the heap, and nothing else reads as a string |
| Boxing.BoxedInjective | crates/eronom-core/src/value.rs:31-125 | a word determines its content |
| Boxing.EqualExact | crates/eronom-core/src/value.rs:259-277 | equality of values is equality of contents, wherever strings are kept |
| Boxing.KeysHashAlike | crates/eronom-core/src/value.rs:417-451 | equal keys feed the hasher alike exactly when they are one word or both can be read, and keys fed alike are equal |
| Boxing.KeysApart | crates/eronom-core/src/value.rs:417-451 | two inline words of a length that no string has are equal keys, hashed differently |
| Boxing.BoxedKeys | crates/eronom-core/src/value.rs:417-451 | for boxed contents, key equality and equal feeds are the same |
| Boxing.PushPositiveInteger | crates/eronom-core/src/value.rs:397-410 | appends the decimal of any 64-bit number without overrunning its twenty bytes |
| Boxing.DecimalExact | crates/eronom-core/src/value.rs:397-410 | that decimal is the one numeral without needless zeros that has the value |
| Effects.InferIsJoin | crates/eronom-frontend/src/effects.rs:98-261 | the rung of any node is the least upper bound of what it does itself and what it evaluates |
| Effects.ExprMonotone | crates/eronom-frontend/src/effects.rs:98-188 | the rung of an expression is monotone in the map |
| Effects.StmtMonotone | crates/eronom-frontend/src/effects.rs:190-261 | the rung of a statement is monotone in the map |
| Effects.StmtReaches | crates/eronom-frontend/src/effects.rs:190-261 | whether a rung reaches a height depends only on which names reach it |
| Effects.RoundsBetween | crates/eronom-frontend/src/effects.rs:312-341 | after any number of rounds the map is above the seeds and below every solution |
| Effects.StableSolves | crates/eronom-frontend/src/effects.rs:335-338 | a round that changes nothing has found the least solution |
| Effects.RoundsSolve | crates/eronom-frontend/src/effects.rs:309-341 | k rounds solve every program with at most k functions' names |
| Effects.RoundsSuffice | crates/eronom-frontend/src/effects.rs:309-341 | uncapped, n names of functions and methods change something in at most 2n rounds |
| Effects.CapExact | crates/eronom-frontend/src/effects.rs:309-341 | ten rounds are enough for all programs with n functions' names exactly when n is at most ten |
| Effects.ChainExact | crates/eronom-frontend/src/effects.rs:309-341 | a chain of k functions is solved exactly when k is at most ten, and a longer one starts with a function taken for pure |
| Effects.InferEffects | crates/eronom-frontend/src/effects.rs:264-341 | the loop computes that many rounds, and the least solution when it ends by itself or for up to ten functions' names |
| EffectChains.SeedsExact | crates/eronom-frontend/src/effects.rs:45-82 | the starting rung of every name is suspending exactly for the primitives that park, impure for those that act, and pure for all others |
| EffectChains.RungExact | crates/eronom-frontend/src/effects.rs:98-341 | under the least solution a rung reaches a height exactly when a chain of evaluated nodes and of named functions' bodies leads to something that parks, or acts |
| EffectChains.InferredExactly | crates/eronom-frontend/src/effects.rs:264-341 | for up to ten functions' names the inferred rung of a name is what chains from it reach, no lower and no higher |
| EffectChains.MethodExact | crates/eronom-frontend/src/effects.rs:325-333 | and so is that of a method for chains from its bodies |
| Sync.SyncChecker.CheckStmt | crates/eronom-frontend/src/sync.rs:49-183 | appends exactly the reports about the statement and all that it contains, in the order of the text, each with its place and what it stands in, and restores the context on every way out |
| Sync.SyncChecker.CheckExpr | crates/eronom-frontend/src/sync.rs:185-313 | the same for expressions |
| Sync.CheckSyncConstraints | crates/eronom-frontend/src/sync.rs:317-325 | returns exactly the reports about the statements in order, and none exactly when every statement is clean |
| Sync.StmtSilent | crates/eronom-frontend/src/sync.rs:49-183 | nothing is reported about a statement exactly when it and all that it contains is clean |
| Sync.ExprSilent | crates/eronom-frontend/src/sync.rs:185-313 | the same for expressions |
| Suspension.NeverSuspends | crates/eronom-frontend/src/effects.rs:98-261 | evaluation that starts below the suspending rung and meets no unknown call never suspends |
| Suspension.SyncSound | crates/eronom-frontend/src/sync.rs:43-325 | in an accepted program code that must not suspend - sync blocks, sync functions, comparison methods of structs, comparators given to sort - can do so only behind a call of something that is neither a collected function nor a primitive at that place |
| Suspension.FirstOrderSound | crates/eronom-frontend/src/sync.rs:43-325 | in an accepted first-order program no evaluation of any such code suspends |
| Suspension.GatheredMethod | crates/eronom-frontend/src/effects.rs:281-296 | every method of a struct below blocks, exports, sync and concurrent blocks is collected under its struct's name |
| Suspension.InferAndCheck | crates/eronom-runner/src/embedded_bundle.rs:69-76 | inference and check together guarantee this for first-order programs with up to ten functions' names |
| Suspension.CapLetsThrough | crates/eronom-frontend/src/effects.rs:309-341 | for every longer chain the checker accepts a sync block whose evaluation reaches sleep, through known calls only |
| Suspension.NestedExact | crates/eronom-frontend/src/effects.rs:271-297 | whether a sync block that calls a function declared beside it is accepted does not depend on what that function does, and evaluation of the block suspends exactly when its body's does |
| Suspension.NestedLetsThrough | crates/eronom-frontend/src/effects.rs:271-297 | with a body that sleeps the block is accepted after any number of rounds, and suspends |
| Suspension.NestedHarmless | crates/eronom-frontend/src/effects.rs:271-297 | with a body that does nothing it does not suspend |
| Transpile.SimExpr | crates/eronom-frontend/src/transpile.rs:389-601 | the rewritten expression, in the image of a state, gives the image of the value, the effects and the state |
| Transpile.SimStmt | crates/eronom-frontend/src/transpile.rs:603-711 | the same for statements, for all nestings that shadow state names |
| Transpile.RewritePreserves | crates/eronom-frontend/src/transpile.rs:728-740 | a script that meets the conditions and its rewrite end alike with equal output, and every cell holds what its state variable holds |
| Unwritten.ExprBack | crates/eronom-frontend/src/transpile.rs:389-601 | taking the runtime's calls back to variables, assignments and steps gives the original expression, with every operator, name and flag, for every expression that names neither the runtime nor a state variable's .value |
| Unwritten.StmtBack | crates/eronom-frontend/src/transpile.rs:603-711 | the same for statements |
| Unwritten.ScriptBack | crates/eronom-frontend/src/transpile.rs:728-740 | the same for whole scripts |
| Transpile.StartReady | crates/eronom-frontend/src/transpile.rs:728-740 | any state variables with any first values are a good start |
| Transpile.PrintedAgree | crates/eronom-frontend/src/transpile.rs:728-740 | printed primitive values are the same |
| Transpile.SameStmt | crates/eronom-frontend/src/transpile.rs:603-711 | a name that is not used unbound, or is no state variable, does not matter to the rewrite |
| Transpile.ExportForgotten | crates/eronom-frontend/src/transpile.rs:607-617 | a block that exports a declaration of a state name prints something else when rewritten |
| Transpile.RedeclarationForgotten | crates/eronom-frontend/src/transpile.rs:735-738 | so does a script that declares a state name again |
| Transpile.SelfForgotten | crates/eronom-frontend/src/transpile.rs:607-617 | a block with a declared function that uses its own, state-named name ends, and its rewrite never does |
| Transpile.CellStepForgotten | crates/eronom-frontend/src/transpile.rs:466-493 | the step of a state variable's .value counts, and its rewrite throws |
| Transpile.ErmHidden | crates/eronom-frontend/src/transpile.rs:391-404 | a script that binds erm and prints a state variable does so, and its rewrite throws |
| Transpile.CallErmSim | libs/init/modules/erm/runtime.js:985-1035 | the runtime's functions, called by the script itself, do to the images of its values what they do to the values |
| Inet.Pton4Exact | deps/libuv/src/inet.c:175-211 | accepts exactly the dotted texts of four octets without leading zeros, and gives back what was printed |
| Inet.Ntop4 | deps/libuv/src/inet.c:48-59 | prints the dotted text when it fits, and reports no space otherwise |
| Inet.LoadWords | deps/libuv/src/inet.c:80-82 | the bytes in pairs, high byte first |
| Inet.FindBest | deps/libuv/src/inet.c:83-106 | finds the first longest run of at least two zero words, or none |
| Inet.Ntop6 | deps/libuv/src/inet.c:62-143 | prints the canonical text of every address within 46 bytes, and reports no space when the caller has less |
| Inet.PrintUnique | deps/libuv/src/inet.c:62-143 | an address has one canonical text |
| Inet.PrintedLength | deps/libuv/src/inet.c:62-143 | no canonical text exceeds the buffer |
| Inet.PrintedLower | deps/libuv/src/inet.c:133 | an address is printed in decimal digits, the letters a to f in lower case, colons and dots |
| Inet.DottedExactly | deps/libuv/src/inet.c:118-132 | it is printed with dots exactly when it holds an IPv4 address, mapped or compatible with more than its last group |
| Inet.HexValueExact | deps/libuv/src/inet.c:231-237 | a digit is read in either case, by its place in the table |
| Inet.ShiftToEnd | deps/libuv/src/inet.c:288-291 | the overlapping in-place shift moves the tail to the end and leaves zeros |
| Inet.Pton6 | deps/libuv/src/inet.c:214-298 | the cursor loop answers as the grammar's parser does |
| Inet.Parse6Exact | deps/libuv/src/inet.c:214-298 | accepts exactly the texts that denote an address, in full, with `::`, and with an IPv4 tail, and gives that address |
| Inet.RoundTrip6 | deps/libuv/src/inet.c:62-298 | parsing what was printed gives the address back, for every address |
| Inet.ZoneRoundTrip | deps/libuv/src/inet.c:146-172 | so it does with any zone behind it |
| Inet.ZoneExact | deps/libuv/src/inet.c:151-166 | for every text, the address in front of a zone is read exactly as it would be alone: the length check refuses no text of an address |
| Inet.LongestDenotes | deps/libuv/src/inet.c:156-159 | and the buffer could not be shorter, as there are texts of addresses that fill it but for the end |
| Lexer.Lexer.NextToken | crates/eronom-frontend/src/lexer.rs:71-358 | hands out the next of the tokens still to come, in order, through the reversed buffer, and stands where the consumed text ends |
| Lexer.Lex | crates/eronom-frontend/src/lexer.rs:361-373 | collects exactly the tokens of the text |
| Lexer.EndsOnce | crates/eronom-frontend/src/lexer.rs:361-373 | every text lexes to exactly one Eof, at the end |
| Tokens.TokensReadBack | crates/eronom-frontend/src/lexer.rs:71-358 | any tokens, in any of their spellings and with any white space and comments between them, are what the text lexes to |
| Tokens.SpellingRead | crates/eronom-frontend/src/lexer.rs:92-354 | every spelling of every token is read as that token, and nothing more, in front of a blank or the end |
| Tokens.StrangeEnds | crates/eronom-frontend/src/lexer.rs:354 | a character that begins no token ends them |
| Lexer.LiteralTokens | crates/eronom-frontend/src/lexer.rs:198-276 | a literal becomes its chunks and each expression's tokens, lexed alone, with plus signs between and an empty last chunk dropped |
| Lexer.ClosedExactly | crates/eronom-frontend/src/lexer.rs:198-276 | an expression lexes in front of any text as it does alone exactly when it is closed |
| Lexer.LiteralIsSum | crates/eronom-frontend/src/lexer.rs:198-276 | with closed expressions a literal lexes as the written-out sum, whatever follows |
| Literals.SumExactly | crates/eronom-frontend/src/lexer.rs:198-276 | a literal lexes as its sum in front of every text exactly when the sum's own text is closed and has the literal's tokens |
| Literals.LastExactly | crates/eronom-frontend/src/lexer.rs:198-276 | when all expressions but the last are closed, that holds exactly when the last is closed too |
| Literals.PrefixesExactly | crates/eronom-frontend/src/lexer.rs:198-276 | a literal and all its beginnings are their sums exactly when every expression is closed |
| Literals.CommentInLiteral | crates/eronom-frontend/src/lexer.rs:198-276 | a literal with a comment for an expression has one token more than its sum |
| Literals.OpenYetSum | crates/eronom-frontend/src/lexer.rs:198-276 | a literal with an open expression that lexes as its sum whatever follows |
| ErmEval.ExprParser.ParseTernary | libs/erm/eval.rs:161-177 | reads at its position what the functional parser reads, and stops where that stops |
| ErmEval.ExprParser.ParsePrimary | libs/erm/eval.rs:308-424 | the same for primaries |
| ErmEval.Eval | libs/erm/eval.rs:79-87 | trailing text is an error; otherwise the value |
| ErmEval.ReadTernary | libs/erm/eval.rs:161-177 | a printed expression is read back as its denotation, up to the text that follows |
| ErmEval.ReadAdd | libs/erm/eval.rs:243-266 | sums and differences are read with the tree's own grouping, to the left |
| ErmEval.EvalPrinted | libs/erm/eval.rs:79-424 | evaluating the printed text of any tree - with `erm.get`, member paths, all quotes and escapes, and any spaces - gives exactly the tree's meaning, which is stated apart from the parser |
| ErmEval.DenoteIsMeaning | libs/erm/eval.rs:14-34 | what the parser computes for a tree by its conversions and operators is the tree's meaning |
| ErmEval.TrailingRefused | libs/erm/eval.rs:82-85 | an expression with something behind it that cannot belong to it is an error |
| ErmEval.ColonWanted | libs/erm/eval.rs:169-174 | so is a question mark without its colon |
| PathNames.NormalizePath | crates/eronom-vm/src/std_path.rs:6-36 | the loop over segments computes the normal form, which NormalizedLeads describes |
| PathNames.NormalizedLeads | crates/eronom-vm/src/std_path.rs:6-36 | the normal form is the plain text of the place that following the path leads to: down by names, up by two dots, never above the root |
| PathNames.UpUndoes | crates/eronom-vm/src/std_path.rs:17-20 | a name and two dots behind any path leave its normal form as it is |
| PathNames.RootStays | crates/eronom-vm/src/std_path.rs:21-23 | two dots behind an absolute path that has come to the root leave the root |
| PathNames.BothSeparators | crates/eronom-vm/src/std_path.rs:14 | a backslash separates as a slash does |
| PathNames.NothingBetween | crates/eronom-vm/src/std_path.rs:15-17 | empty and single-dot segments do not matter |
| PathNames.PartsNormal | crates/eronom-vm/src/std_path.rs:6-36 | no part is empty or a dot, and dots of a parent stand only in front of relative paths |
| PathNames.Idempotent | crates/eronom-vm/src/std_path.rs:6-36 | normalising twice is normalising once |
| PathNames.JoinIncremental | crates/eronom-vm/src/std_path.rs:38-62 | normalising a joined path may start from the normalised first part |
| PathNames.JoinOneMore | crates/eronom-vm/src/std_path.rs:38-62 | one more argument is joined to what the others came to |
| ResponseToken.StepKeeps | crates/eronom-net/cpp/er_http.cpp:68-163 | every atomic step of every thread keeps the invariant |
| ResponseToken.AlwaysSafe | crates/eronom-net/cpp/er_http.cpp:68-163 | in every interleaving the response is ended at most once, the count is the number of holders, and deletion happens at most once and after the last holder |
| ResponseToken.NeverDangling | crates/eronom-net/cpp/er_http.cpp:653-723 | no thread about to touch the token finds it deleted |
| ResponseToken.NeverLeaked | crates/eronom-net/cpp/er_http.cpp:80-84 | with no holder left and nobody in the middle of a step, the token has been deleted |
| ResponseToken.AbortIsFinal | crates/eronom-net/cpp/er_http.cpp:118-123 | once the response is cleared and nobody is calling end, it is never ended again |
| ResponseToken.AbortTurnsBack | crates/eronom-net/cpp/er_http.cpp:659-672 | once the abort is set and nobody is past its check, the response is never taken any more |
| ResponseToken.AbortExact | crates/eronom-net/cpp/er_http.cpp:118-123 | after the abort some run ends the response exactly when a thread is already calling end |
| ResponseToken.EndAfterAbort | crates/eronom-net/cpp/er_http.cpp:659-672 | such a run exists from the start |
| FsPoll.StepKeeps | deps/libuv/src/fs-poll.c:66-258 | with the discipline no step fails an assertion, closes a closing timer, starts one, or uses a request in flight, whatever callbacks call |
| FsPoll.RunSafe | deps/libuv/src/fs-poll.c:66-258 | in every disciplined run exactly one operation or callback is under way for each linked context, each context is linked or freed once, and the handle is closed once, when its chain is empty |
| FsPoll.EarlyStartFails | deps/libuv/src/fs-poll.c:175-234 | from every state in which an earlier stat is in flight or an earlier callback has not returned, a start can fail |
| FsPoll.RestartInCallbackFails | deps/libuv/src/fs-poll.c:188-234 | a stop and a start out of the handle's own callback end in the failed assertion of the old context's timer |
| FsPoll.StartExact | deps/libuv/src/fs-poll.c:66-234 | after a start of an open handle every disciplined run is safe exactly when poll_cb of the earlier period had returned |
| FsPoll.DanglesExactly | deps/libuv/src/fs-poll.c:90-112 | the loop keeps the timer of a freed context exactly when some start got a context but no request |
| FsPoll.DelayLands | deps/libuv/src/fs-poll.c:229-233 | the delay lies between one and the interval and lands on a multiple of it |
| FsPoll.FsPollHandle.Start | deps/libuv/src/fs-poll.c:66-113 | a new context in front of the chain, or one that is freed at once, as the machine's step says |
| FsPoll.FsPollHandle.Stop | deps/libuv/src/fs-poll.c:116-135 | closes the newest context's timer when it runs, and never one that closes |
| FsPoll.FsPollHandle.Close | deps/libuv/src/fs-poll.c:167-172 | marks the handle as closed at once only when no context is left |
| FsPoll.FsPollHandle.CallBack | deps/libuv/src/fs-poll.c:204-217 | any calls out of a callback do what the machine does, and leave the contexts that were linked as they are |
| FsPoll.FsPollHandle.PollCb | deps/libuv/src/fs-poll.c:188-234 | calls back exactly on a new error, after an error, or on a change, with the state seen before and now, remembers the result and a successful state, and then closes or starts its own timer, whatever the callback stopped, started or closed |
| FsPoll.ReportsExactly | deps/libuv/src/fs-poll.c:200-217 | over any list of results of a context, the callback is made at a place exactly when that result is a new error, follows an error, or differs from the success before it, with the last state seen before |
| FsPoll.FsPollHandle.TimerCb | deps/libuv/src/fs-poll.c:175-185 | the assertions hold and the next stat is issued |
| FsPoll.FsPollHandle.TimerCloseCb | deps/libuv/src/fs-poll.c:237-258 | unlinks exactly this context by the walk over previous pointers |
| Md5.OperationIs | crates/eronom-vm/src/std_crypto.rs:71-85 | what the code adds and rotates is the standard's operation of that number |
| Md5.TurnedStep | crates/eronom-vm/src/std_crypto.rs:79-84 | moving the four values on is operating in place with the parts turned |
| Md5.SameIndex | crates/eronom-vm/src/std_crypto.rs:72-77 | the computed message indices are the listed ones |
| Md5.BlockDigest | crates/eronom-vm/src/std_crypto.rs:60-91 | the loop of 64 moves computes the four in-place rounds of section 3.4 of RFC 1321 |
| Md5.Md5Digest | crates/eronom-vm/src/std_crypto.rs:20-99 | equals sections 3.1 to 3.5 of RFC 1321 for every input |
| Md5.HmacMd5 | crates/eronom-vm/src/std_crypto.rs:101-126 | equals section 2 of RFC 2104 for every key and text |
| Md5.WordBits | crates/eronom-vm/src/std_crypto.rs:73-76 | and, or, exclusive or and not do to every bit what they are called |
| Md5.RotatedBit | crates/eronom-vm/src/std_crypto.rs:83 | a rotation takes every bit up by its amount, and around |
| Md5.ByteBits | crates/eronom-vm/src/std_crypto.rs:113-114 | so does exclusive or with the pads of the keyed form |
| Md5.LowFirstWord | crates/eronom-vm/src/std_crypto.rs:93-97 | the four bytes of a word, low-order one first, are read as that word |
| Md5.PaddedStates | crates/eronom-vm/src/std_crypto.rs:26-32 | the padded message is the message, one bit, the fewest zeros, and the bit count modulo two to the 64th |

## Left out

- Cranelift's construction of SSA form, register allocation, object files, linking and byte tables: the builder is an abstract block graph with mutable variables.
- EirCompiler.ResultKept: server mode, `CallDynamic`, `GetProperty` of "stringify", float arguments of direct calls and the calls that concatenate and compare tagged strings are not modelled, and branch targets lie inside the list; operators without a float form are excluded on floats, where `FloatFormExact` and `UnaryFormExact` show the code wrong.
- Eir: `Print` always emits its code, which the source does only where the print function is declared; floats are never computed with.
- JitCompiler.CutRunKept: the inline array push and pop, direct self-calls, upvalues and closures depend on memory layout and on the virtual machine's loop, which is not part of this model; code is shorter than 2^31 instructions.
- Bytecode: a throw carries no value, since the compiled code only returns a status for it.
- MinHeap.Heap.Insert: the counter of nodes must not reach 2^32 - 1.
- Router: the tree is a value with the path of the cursor in it, since Dafny has no moving reference into a tree; the order of Rust's hash maps is not used.
- Inet: dispatch on the address family and null pointers; the branch for a run of seven words is dropped, since word six lies inside such a run.
- Effects.RoundsSuffice: calls through parameters, struct methods (recorded and never read) and types, which stay text.
- Suspension.SyncSound: evaluation is over-approximated (every branch, every iteration); a name is in scope in the whole of its block, and methods, parameters and reassigned names count as unknown and may lead anywhere.
- Transpile.RewritePreserves: names are in scope from their declaration on, so that a function does not see later declarations of its block; of `erm` only `get`, `set`, `update` and `update_pre` are there, and these do not update functions or take each other as arguments; struct method bodies, emission of text, proxies for objects in cells and scheduling of asynchronous code are not modelled.
- ResponseToken.AlwaysSafe: atomics are sequentially consistent, the count does not wrap, and an object is not changed by one thread while another works with it; taking the pointer in a copy and counting it are one step, since nobody else can use the object before its constructor ends.
- ErmEval.EvalPrinted: characters instead of bytes, so that slicing inside a character of several bytes, where the source panics, is not modelled; array and object literals and float arithmetic are the host's, and `parse_script_vars` is left out.
- FsPoll.FsPollHandle.Start: `uv_fs_poll_getpath`, the end on Windows and 64-bit wrap-around of the time; a callback does not run the loop; a handle is not started after it was closed.
- PathNames: arguments that are no strings, and `resolve`, `dirname` and the other natives.
- Shapes.SharedExactly: ids do not wrap at 2^32, and the content of a key word does not change.
- Lexer.Lexer.NextToken: numbers keep their text, and places are only stated for tokens that no literal with expressions made.
- Boxing.EqualExact: a NaN equals itself, as the source's comparison of bits makes it; how floats compare is a parameter, and the methods that only read a pointer are left out.
- Md5.Md5Digest: the bit count is taken modulo 2^64, as the RFC asks; the source's multiplication agrees below 2^61 bytes. The sine table is transcribed on both sides, not computed; the standard's start values are given by their bytes.
- The command line, project creation, bundling, HTTP parsing, SHA-2, JSON, environment and process natives, the editor extension: input and output, foreign libraries or small members.
