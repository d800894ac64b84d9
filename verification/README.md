# A pattern compiler, a garbage collector and a code generator, verified

This project models three parts of lua-cmake-source, a build of Lua 5.1 with its modules, in Dafny and proves what they are for.

**LPeg** (`Lpeg*.dfy`) compiles patterns to code for a small matching machine, in one pass and with many optimised forms.
`LpegPeg` is the meaning of patterns, `LpegMachine` the machine, `LpegBuild` the code every combinator emits. `LpegHeads`,
`LpegLoops`, `LpegMoves`, `LpegJumps`, `LpegUnion` and `LpegSeparate` justify the optimised forms, and `LpegCorrect` puts
them together. `LpegErrors` says which patterns cannot be built, `LpegBrackets` what captures delimit. `LpegSlots` and `LpegQuiet` are about instructions read slot by slot, `LpegRestore`, `LpegGuard` and
`LpegAsserts` about choices taken apart. `LpegVm` and `LpegMatch` relate the machine to the one with truncated capture
lists and a bounded stack; `LpegRotate`, `LpegEmit`, `LpegFlatten`, `LpegVerify` and `LpegPattern` are the operations as they work, in place on instruction arrays.
The subject is a sequence of bytes followed by a zero byte.

**The collector** (`Gc*.dfy`) is Lua's incremental mark and sweep. `GcState` is the heap with its lists, string table and
open upvalues; `GcMark`, `GcAtomic`, `GcSweep`, `GcSweepAll` and `GcStep` are the collector's steps; `GcMutator`, `GcAlloc`,
`GcStrings`, `GcUpvals` and `GcClose` what the program does between them. `GcInvariant` states the invariant, `GcRun`
runs both in any order, `GcKeeps` says what collecting leaves alone and `GcFrame` what each action of the program does, and `GcFull` is the full collection. `GcLinks` has lists as links in the objects and pointers to links, `GcGray` what is
on the gray lists, and `GcCollector` is the class whose methods change the state field by field and link by link.

**The code generator** (`Lcode*.dfy`) compiles `and`, `or`, `not` and comparisons over local variables and constants in one
pass. `LcodeVm` has the expressions, what they evaluate to, and the instructions; `LcodeGen` generates code with its lists of open jumps kept as sequences.
`LcodeGiven` evaluates an expression as the code does where a boolean decides an operator, and says when that is its value. `LcodeResolve` to `LcodeWhole` prove that the code gives
just that, `LcodeNeed` how many registers it takes, `LcodeAssign` when an assignment computes its expression, and `LcodeConst` has expressions that go wrong. `LcodeThread` and `LcodeFunc` are the generator as it works: lists threaded through the offsets of the jumps themselves, descriptors updated in place.

Values compared for equality of meaning are whole: a match is its end position and its capture list, a collection its set
of surviving objects and their colours, an expression its value and the comparisons made on the way.

## Findings

- A choice put back behind a test steps one byte back, whatever the test consumed (`libs/lpeg/lpeg.c:1400`).
  `(P(2)*"x" + S"") + "abc"` therefore fails on `abc`, which it should match: `LpegRestore.SpoiltFails`.
  `LpegRestore.RestoredExact` says exactly when such code still means the ordered choice, and `LpegGuard.GuardedSafe`
  which patterns never get there: those without an ordered choice whose second operand starts with an empty set.
- Two searches look one slot back and may find the end of a character set there (`libs/lpeg/lpeg.c:805`, `1297-1310`).
  `LpegSlots.GroupRead` and `LpegSlots.FirstPartRead` say exactly when what they find matters, `LpegSlots.CaptureMisread`
  and `LpegSlots.ChoiceMisread` name a pattern for each, and `LpegSlots.QuietReads` a condition on the sets alone that rules both out.
- The assertion at `libs/lpeg/lpeg.c:1338` overlooks the test of a set with the zero byte. `(S"\0\1"*"x" + "a") + "c"`
  comes to it: `LpegAsserts.AssertionFails`. `LpegAsserts.AssertionExact` says for all code when it fails, and
  `LpegAsserts.AssertsExact` for which patterns. Without assertions the code that follows is right there.
- A jump emitted because a boolean decides an operator takes over the jumps that wait for the same place, even those that
  bring a value (`libs/lua/src/lcode.c:547-549`, `575-577`). `((a or b) and false) and c` therefore gives the value of `a`
  when that is true: `LcodeConst.KeptFails`. Jumps that wait in front of a statement are taken over as well, so that behind
  `if a or b then` even `d = false and c` goes wrong: `LcodeConst.BehindFails`. `LcodeGiven.Give` says of every expression what
  its code gives, `LcodeAssign.AssignComputes` that the code computes the expression if and only if that is its value, and
  `LcodeGiven.NothingTaken`, which looks at the expression alone, where it is.

## Model

| member | source | states |
|---|---|---|
| LpegPattern.MatchL | libs/lpeg/lpeg.c:1924-1944 | Building a pattern and matching it from the position an index means (from the front, from the end, past either) gives the position and captures that parsing-expression semantics gives, or fails exactly when it does, or reports a full stack exactly when the machine without a bound comes to a choice with 399 entries pending. Building raises an error exactly when some unbounded repetition has a body that may match nothing or whose check comes to too many pending choices, and which one; for a pattern at most 400 choices deep, exactly when the body of some unbounded repetition may match nothing. Where the sets of the pattern are quiet (`QuietPattern`), no search made on the way reads a set as an instruction. Asked of the caller: no ordered choice whose second operand starts with an empty set (`Guarded`), or the weaker `Safe` |
| LpegErrors.BuildFails | libs/lpeg/lpeg.c:1456-1470 | A `Safe` pattern is refused exactly when one of its unbounded repetitions is, operands before what they are operands of and the left one first, and with the error of that repetition |
| LpegErrors.ShallowFails | libs/lpeg/lpeg.c:586-698 | A `Safe` pattern at most 400 choices deep is refused exactly when some unbounded repetition has a body that matches the empty subject with its predicates taken as holding, and never because its check goes too deep |
| LpegBrackets.CaptureDelimits | libs/lpeg/lpeg.c:536-560 | The entries a capture adds, read as brackets, are one whole capture: it begins where its body began, ends where its body ended, and holds all that was added; none of its captures may have the kind of a closing entry |
| LpegPeg.InRanges | libs/lpeg/lpeg.c:1030-1044 | The set made of ranges has exactly the bytes that lie in one of them |
| LpegCorrect.CompileGood | libs/lpeg/lpeg.c:1230-1554 | For every pattern built from literals, counts, sets, concatenation, ordered choice, difference, predicates, bounded and unbounded repetition and captures, the emitted code means the pattern on every subject, is well-formed, and never has more than `Depth` choices open |
| LpegMatch.Match | libs/lpeg/lpeg.c:367-574 | The machine with its backtrack stack, its capture list cut back by level and its 400 slots ends where the meaning of the pattern says, or reports a full stack exactly when the machine without a bound comes to a choice with 399 entries pending |
| LpegVm.VmStepRefines | libs/lpeg/lpeg.c:395-565 | One instruction of that machine does what the machine whose stack entries keep whole capture lists does, and is refused exactly for a choice on a full stack |
| LpegVerify.Verify | libs/lpeg/lpeg.c:586-698 | The loop check accepts code exactly when every way through it on an empty subject fails, overflows exactly when more than 400 choices would be pending, and what it accepts never succeeds without consuming |
| LpegLoops.AcceptedAdvances | libs/lpeg/lpeg.c:586-698 | An accepted loop body consumes input whenever it matches, on every subject and not only on the empty one the check runs it on |
| LpegMoves.OptimizeCapturesKeeps | libs/lpeg/lpeg.c:793-819 | Moving captures past the checks behind them keeps the meaning of the code and its captures, its well-formedness, its brackets and its jumps |
| LpegMoves.RotatedImplements | libs/lpeg/lpeg.c:807-816 | One group moved past checks that consume n bytes, with n added to its offsets, records the same captures |
| LpegRotate.OptimizeCapturesInPlace | libs/lpeg/lpeg.c:793-819 | The pass over the instruction array yields the moved code |
| LpegRotate.Rotate | libs/lpeg/lpeg.c:766-774 | Three inversions exchange the two parts of a slice and touch nothing else |
| LpegRotate.OptimizeJumpsInPlace | libs/lpeg/lpeg.c:822-834 | The pass over the array sends every jump to the end of its chain of plain jumps |
| LpegJumps.OptimizeJumpsImplements | libs/lpeg/lpeg.c:822-834 | Following chains of plain jumps keeps the meaning of the code, and every chain ends |
| LpegHeads.OptimizeChoiceImplements | libs/lpeg/lpeg.c:837-847 | A choice in front of a check may become a test followed by a choice that steps back over what the check consumed |
| LpegHeads.TestUnionImplements | libs/lpeg/lpeg.c:1354-1362 | A test and a jump stand for an ordered choice when the first operand can only fail at its head, or the operands start with different bytes |
| LpegHeads.NotHeadImplements | libs/lpeg/lpeg.c:1258-1265 | A difference whose second operand can only fail at its head is that operand behind a test, ending in a failure |
| LpegMeaning.NotThenImplements | libs/lpeg/lpeg.c:1266-1273 | A difference by a choice that fails twice |
| LpegMeaning.AndImplements | libs/lpeg/lpeg.c:1285-1294 | The and-predicate by a back commit matches without consuming or capturing |
| LpegCorrect.ConcatGood | libs/lpeg/lpeg.c:1230-1244 | Concatenation, with the identities of the two trivial patterns, the joined counts and the moved captures |
| LpegCorrect.DiffGood | libs/lpeg/lpeg.c:1247-1275 | Difference in all its forms: of sets, behind a test, by a double failure |
| LpegLoops.SpanImplements | libs/lpeg/lpeg.c:1427-1438 | A set repeated by one span instruction |
| LpegLoops.HeadFailLoopImplements | libs/lpeg/lpeg.c:1441-1453 | A loop around a body that can only fail at its head needs no choice |
| LpegLoops.ChoiceLoopImplements | libs/lpeg/lpeg.c:1456-1470 | A loop by a choice and partial commits, whose body consumes |
| LpegCorrect.RepGood | libs/lpeg/lpeg.c:1456-1522 | At least n times, in whichever of the three forms applies |
| LpegLoops.HeadFailOptionalsImplements | libs/lpeg/lpeg.c:1473-1481 | At most n times behind n tests |
| LpegLoops.OptionalsImplements | libs/lpeg/lpeg.c:1484-1496 | At most n times inside one choice |
| LpegCorrect.OptGood | libs/lpeg/lpeg.c:1473-1522 | At most n times, in either form |
| LpegCorrect.CaptGood | libs/lpeg/lpeg.c:1534-1554 | A capture as one full capture when its body is short checks, and as an open and a close otherwise |
| LpegSeparate.BasicUnionGood | libs/lpeg/lpeg.c:1343-1372 | The union of two operands, neither taken apart: one set, a test, or an optimised choice |
| LpegSeparate.SeparateGood | libs/lpeg/lpeg.c:1297-1406 | Taking a choice apart and putting it in front of another operand keeps the ordered choice, when every alternative that gets a choice back is tested by one byte |
| LpegRestore.RestoredExact | libs/lpeg/lpeg.c:1390-1405 | Code with a choice put back behind a test means the ordered choice if and only if the test is of one byte or the second operand, where the test passes and the first one fails, does the same from that many bytes less one further on |
| LpegRestore.SpoiltFails | libs/lpeg/lpeg.c:1390-1405 | `(P(2)*"x" + S"") + "abc"` matches `abc` but its code fails on it |
| LpegGuard.GuardedSafe | libs/lpeg/lpeg.c:1331-1406 | A pattern without an ordered choice whose second operand starts with an empty set never gets a choice put back behind a longer test |
| LpegAsserts.AssertionExact | libs/lpeg/lpeg.c:1331-1341 | For all code: the assertion about the first test of an alternative fails on the way if and only if the other operand starts with a check and some alternative that can fail past its test is behind a test of a set with the zero byte |
| LpegAsserts.AssertsExact | libs/lpeg/lpeg.c:1331-1424 | For patterns: the assertion holds while a pattern is built if and only if it has no ordered choice of such a first operand with a second one that starts with a check |
| LpegAsserts.AssertionFails | libs/lpeg/lpeg.c:1331-1341 | `(S"\0\1"*"x" + "a") + "c"` comes to the assertion with such a test, and is compiled rightly without it |
| LpegFlatten.SeparateParts | libs/lpeg/lpeg.c:1375-1406 | The recursive in-place flattening fills a fresh array with the flattened code, and answers whether the assertion made on the way holds |
| LpegFlatten.UnionL | libs/lpeg/lpeg.c:1409-1424 | The union operation, with a failing operand as its identity, yields the array of the union code, and answers whether the assertion holds |
| LpegEmit.StarL | libs/lpeg/lpeg.c:1499-1522 | Repetition on arrays: the array of the repeated code, or an error exactly when the check of the body comes to too many pending choices (that error) or the body may match nothing |
| LpegErrors.RepFails | libs/lpeg/lpeg.c:1456-1470 | An unbounded repetition is refused exactly when the check of its body overflows or the body may match nothing; in particular never when the body is a single set or can only fail at its head |
| LpegEmit.CaptureAux | libs/lpeg/lpeg.c:1534-1554 | Captures on arrays |
| LpegSlots.FirstPartRead | libs/lpeg/lpeg.c:1297-1310 | Slot by slot, the search for the first alternative finds it if and only if the last slot of the set before the target does not read as a jump to the end |
| LpegSlots.GroupRead | libs/lpeg/lpeg.c:804-808 | Slot by slot, the search for the first capture of a group finds it if and only if the last slot of the set in front of the group does not read as a movable capture |
| LpegSlots.QuietReads | libs/lpeg/lpeg.c:793-819 | Where the 25th byte of every set is no such opcode, both searches find what they should |
| LpegQuiet.QuietPatternReads | libs/lpeg/lpeg.c:1230-1554 | For a pattern whose sets, and the sums and differences its operations make of them, are quiet, every search made while it is built finds in slots what it finds in instructions |
| LpegSlots.CaptureMisread | libs/lpeg/lpeg.c:804-808 | `S("\192\195\196") * Cp() * "a"` is misread |
| LpegSlots.ChoiceMisread | libs/lpeg/lpeg.c:1297-1310 | `S("\196\208")^-1` as the first operand of a choice is misread |
| GcRun.RunSafe | libs/lua/src/lgc.c:378-710 | Whatever the interleaving of collector steps, allocations, stores through barriers, stack writes, interning, captures of stack slots, closings and resumptions, no object the program can reach is freed, everything it can reach afterwards is in the heap, and every step of the collector leaves what can be reached, and what it holds, as it was |
| GcRun.CollectingRun | libs/lua/src/lgc.c:556-659 | Over any sequence of collector actions exactly the same objects stay reachable, each with the contents it had, but for upvalues dropped from or closed with a dead thread |
| GcKeeps.SingleStepCollects | libs/lua/src/lgc.c:556-607 | A single step, in any phase, leaves the roots alone and every object that stays as it was, but for upvalues of a dead thread, which are closed with the value of their slot; it keeps what is fixed, changes nothing about what is reachable, and what it frees is neither |
| GcKeeps.MarkRootCollects | libs/lua/src/lgc.c:501-512 | The same for marking the roots |
| GcKeeps.ResetSweepCollects | libs/lua/src/lgc.c:636-645 | The same for the sweep that resets a collection |
| GcFrame.DoesOnly | libs/lua/src/lgc.h:86-97 | An action of the program changes the contents of no object but those it names: the object stored into, the thread written to, the running thread, and upvalues open from the level up |
| GcRun.RunInv | libs/lua/src/lgc.c:378-710 | Every run from a new state keeps the invariant that argument rests on |
| GcRun.DoesInv | libs/lua/src/lgc.c:378-710 | Each action of the program and of the collector keeps the invariant and frees only dead objects that are not fixed |
| GcRun.ColoursWhileMarking | libs/lua/src/lgc.h:65-97 | In every run from a new state, while marking, no black object refers to a white one, threads and open upvalues are never black, nothing has the other white, and a gray table, closure, prototype or thread is on exactly one of the two gray lists, once |
| GcRun.ColoursBetween | libs/lua/src/lgc.c:556-607 | In every run from a new state, between cycles everything is in the current white and nothing is black |
| GcGray.NoneBlackListed | libs/lua/src/lgc.c:675-683 | In every run from a new state nothing on a gray list is black, so that the back barrier puts no table on a list twice |
| GcFull.FullGcExact | libs/lua/src/lgc.c:636-659 | A full collection keeps exactly the objects that are reachable or fixed when it is asked for, as they were, and leaves all of them in the current white |
| GcFull.ResetFreesNothing | libs/lua/src/lgc.c:636-650 | The sweep that resets a collection, from pause or while marking, frees nothing |
| GcStep.SingleStepInv | libs/lua/src/lgc.c:556-607 | A single step, in any phase, keeps the invariant and frees only dead objects that are not fixed |
| GcStep.AtomicInv | libs/lua/src/lgc.c:525-553 | The atomic step marks what is still reachable, flips the white and enters the string sweep with the invariant |
| GcStep.MarkRootInv | libs/lua/src/lgc.c:501-512 | Marking the roots starts a cycle with the invariant |
| GcStep.ResetSweepInv | libs/lua/src/lgc.c:636-645 | Dropping the gray lists and starting to sweep with the same white leaves nothing dead |
| GcMark.MarkObjectTri | libs/lua/src/lgc.c:69-112 | Marking an object keeps the colour invariant, whatever else is in the middle of being traversed |
| GcAtomic.PropagateAllTri | libs/lua/src/lgc.c:277-327 | Emptying the gray list keeps the colour invariant |
| GcAtomic.AtomicTri | libs/lua/src/lgc.c:525-545 | After the remarking of upvalues, the running thread, the metatables and the gray-again list, no object that is not white, threads and upvalues included, has a white child |
| GcSweepAll.SweepManyGood | libs/lua/src/lgc.c:407-428 | Sweeping part of the object list frees only dead objects, closes the upvalues of a freed thread, whitens the others, and leaves the lists consistent |
| GcSweepAll.SweepBucketGood | libs/lua/src/lgc.c:571-578 | The same for a chain of the string table |
| GcMutator.BarrierInv | libs/lua/src/lgc.h:86-97 | Either barrier repairs what a store of a white value into a black object broke |
| GcMutator.WriteNodeInv | libs/lua/src/lgc.c:662-683 | A store in a table, closure or prototype followed by its barrier keeps the invariant |
| GcMutator.WriteClosedInv | libs/lua/src/lgc.c:662-672 | A store in a closed upvalue followed by its barrier keeps the invariant |
| GcMutator.SetThreadInv | libs/lua/src/lgc.c:256-270 | Stack writes need no barrier |
| GcAlloc.NewObjectInv | libs/lua/src/lgc.c:686-692 | A new object, linked at the front or behind the main thread, is white and keeps the invariant, also in the middle of a sweep |
| GcStrings.InternInv | libs/lua/src/lstring.c:75-93 | Interning yields a live string with the text, the one in the table if there is one, brought back to life if it was dead |
| GcStrings.StringCount | libs/lua/src/lstring.c:50-72 | The count that decides when the table grows is the number of strings in the heap, wherever the invariant holds |
| GcStrings.ResizeInv | libs/lua/src/lstring.c:22-47 | Rehashing the string table, never while its strings are swept, keeps every string in its chain |
| GcUpvals.FindUpvalInv | libs/lua/src/lfunc.c:53-79 | Finding the upvalue of a stack slot yields the only one there is, alive, or a new one in its place in the sorted list |
| GcRun.CloseUpvalsInv | libs/lua/src/lfunc.c:96-112 | Closing the upvalues from a level up frees the dead ones and links the others, in any phase |
| GcRun.CloseUpvalsExact | libs/lua/src/lfunc.c:96-112 | Exactly the upvalues from the level up are closed: the open list keeps the others, still open at their slots, each live one that is closed holds the value its slot had, and no other object changes |
| GcKeeps.CloseUpvalsCloses | libs/lua/src/lfunc.c:96-112 | The same while a sweep is freeing a thread, for that thread |
| GcClose.CloseMarking | libs/lua/src/lgc.c:695-710 | An upvalue closed while marking turns black or white so that the colour invariant stays |
| GcCollector.GlobalState.ReallyMarkObject | libs/lua/src/lgc.c:69-112 | Marks an object and, for userdata and upvalues, what they refer to; what is to be traversed goes to the head of the gray list through its own link. The links hold the lists of the state the specification gives |
| GcCollector.GlobalState.PropagateMark | libs/lua/src/lgc.c:277-320 | Takes the first object off the gray list by its link and traverses it; a thread is linked into the list of those to be traversed again. The links hold the lists of the state the specification gives |
| GcCollector.GlobalState.Atomic | libs/lua/src/lgc.c:525-553 | The atomic step, where the second gray list becomes the first. The links hold the lists of the state the specification gives |
| GcCollector.GlobalState.MarkRoot | libs/lua/src/lgc.c:501-512 | Drops both gray lists, marks the roots and starts the propagation. The links hold the lists of the state the specification gives |
| GcCollector.GlobalState.SweepList | libs/lua/src/lgc.c:407-428 | Sweeps up to a number of objects, keeping a pointer to a link of the list; what is dead is unlinked there. The links hold the lists of the state the specification gives |
| GcCollector.GlobalState.SweepBucket | libs/lua/src/lgc.c:407-428 | Sweeps a chain of the string table in the same way. The links hold the lists of the state the specification gives |
| GcCollector.GlobalState.SingleStep | libs/lua/src/lgc.c:556-607 | One step of the collector, with the invariant; what is reachable, and what it holds, stays. The links hold the lists of the state the specification gives |
| GcCollector.GlobalState.FullGc | libs/lua/src/lgc.c:636-659 | A full collection, with the invariant: what stays is what was reachable or fixed, as it was. The links hold the lists of the state the specification gives |
| GcCollector.GlobalState.BarrierF | libs/lua/src/lgc.c:662-672 | The forward barrier, which meets what the source asserts of the two objects and the phase. The links hold the lists of the state the specification gives |
| GcCollector.GlobalState.BarrierBack | libs/lua/src/lgc.c:675-683 | The backward barrier: the table, which meets what the source asserts, is linked into the second gray list. The links hold the lists of the state the specification gives |
| GcCollector.GlobalState.LinkNew | libs/lua/src/lgc.c:686-692 | Links a new object at the head of the list, or userdata behind the main thread, while a sweep may be at any place of it. The links hold the lists of the state the specification gives |
| GcCollector.GlobalState.LinkUpval | libs/lua/src/lgc.c:695-710 | Links a closed upvalue at the head of the list, and settles its colour as the phase asks. The links hold the lists of the state the specification gives |
| GcLinks.ChainRemove | libs/lua/src/lgc.c:409-427 | Making the pointer at the sweeper's place lead past an object takes exactly that object off the list |
| GcLinks.MoveOne | libs/lua/src/lstring.c:33-44 | Moving a string from the chain being emptied to its new one leaves what waits in the old table and what is in the new one linked |
| GcCollector.GlobalState.InternString | libs/lua/src/lstring.c:75-93 | Finds or makes a string: the new state and the result are those of the specification |
| GcCollector.GlobalState.Resize | libs/lua/src/lstring.c:22-47 | Relinks every string in a new table, one link at a time: the new table holds the chains the specification gives |
| GcCollector.GlobalState.FindUpval | libs/lua/src/lfunc.c:53-79 | Walks the sorted list: the new state and the result are those of the specification |
| GcCollector.GlobalState.CloseUpvals | libs/lua/src/lfunc.c:96-112 | Closes from the top down: the new state is the one the specification gives, and exactly the upvalues from the level up are closed |
| LcodeFunc.FuncState.Assignment | libs/lua/src/lcode.c:472-478 | For every expression of `and`, `or`, `not` and comparisons over local variables and constants: what is stored in the code array for its assignment to a local variable, entered at its beginning or by any jump that waited there, leaves in the variable what the expression gives, makes its comparisons in order, and changes no other register in use. That is the value of the expression exactly when the evaluator of `LcodeGiven` agrees with it, and it does where no value a boolean took over becomes the value of the expression or of an operand. All this exactly when the registers the expression needs are there |
| LcodeAssign.AssignComputes | libs/lua/src/lcode.c:539-755 | The code for an assignment delivers what the expression gives, whatever jump leads to it; it computes the expression if and only if that is its value, in particular wherever no value a boolean took over is used; nothing before it changes but the jumps that were waiting |
| LcodeAssign.PushComputes | libs/lua/src/lcode.c:414-419 | The same for a value put in the next free register |
| LcodeWhole.GenGives | libs/lua/src/lcode.c:697-789 | For every expression: control coming in at the beginning or by a waiting jump, the code arrives with what the expression gives where the descriptor says, or leaves through the true list or the false list with it, kept in the right register or standing for true or false; the lists are empty exactly when nothing can leave |
| LcodeGiven.NothingTakenGives | libs/lua/src/lcode.c:539-591 | What an expression gives is its value, with the comparisons that evaluating it makes, unless a value that the jump of a boolean took over becomes the value of the expression or of an operand, which can be read off the expression |
| LcodeConst.DecidedGives | libs/lua/src/lcode.c:539-591 | `false and b` and `true or b`, for every `b`, give their values |
| LcodeNeed.GenUses | libs/lua/src/lcode.c:199-212 | Generating code reserves exactly the registers the expression needs, which can be read off the expression |
| LcodeAssign.AssignFits | libs/lua/src/lcode.c:199-212 | An assignment is not too complex exactly when the registers in use and those its expression needs are fewer than 250 |
| LcodeCond.GoIfOk | libs/lua/src/lcode.c:539-591 | Testing any expression, booleans that decide the operator included: the code goes on or leaves, with or without the value, exactly as testing what the expression gives does |
| LcodeConst.FixedJumpExact | libs/lua/src/lcode.c:547-549 | Where a boolean decides an operator, the jump made without a test leaves with the value of the expression if and only if every waiting jump that some run takes brings that boolean |
| LcodeConst.NothingBrought | libs/lua/src/lcode.c:547-549 | Such a jump is right whenever no waiting jump brings a value |
| LcodeConst.KeptFails | libs/lua/src/lcode.c:547-549 | `((a or b) and false) and c`, compiled into a variable, is not computed |
| LcodeConst.KeptGives | libs/lua/src/lcode.c:547-549 | It gives the value of `a` when that is true, where the expression is false |
| LcodeConst.BehindFails | libs/lua/src/lcode.c:547-549 | `d = false and c`, which is compiled rightly elsewhere, is not behind `if a or b then` |
| LcodeNot.CodeNotOk | libs/lua/src/lcode.c:594-626 | Negation inverts the value that arrives, exchanges the lists, and lets no jump bring a value any more |
| LcodeWhole.CompOk | libs/lua/src/lcode.c:681-694 | A comparison answers with its operands exchanged or its condition negated, after both operands are in registers that are free again |
| LcodeLoad.Exp2RegOk | libs/lua/src/lcode.c:390-411 | The value reaches the register from the end of the code and from every jump, through a value-setting test, a move, a negation placed late, or a load of true or false |
| LcodeExpr.JoinOk | libs/lua/src/lcode.c:745-760 | The second operand of `and` or `or` behind the test of the first one |
| LcodeResolve.ResolveRun | libs/lua/src/lcode.c:131-166 | Patching open jumps and appending code continues the runs that ended there and changes no other |
| LcodePatch.PatchListAt | libs/lua/src/lcode.c:150-160 | Each jump of a list leads to one target if its test sets a value and to the other if not, and the test gets its register or becomes a plain test; nothing else changes |
| LcodeThread.ThreadedConcat | libs/lua/src/lcode.c:185-196 | Linking the last jump of a list to the first of another joins the lists |
| LcodeThread.DecodedRun | libs/lua/src/lvm.c:403-581 | The stored words, with offsets turned into positions, run as the code does |
| LcodeFunc.FuncState.PatchListAux | libs/lua/src/lcode.c:150-160 | Patches a list while walking it: the code, the lists threaded through it and the descriptor become what the specification gives, and no other open list is touched |
| LcodeFunc.FuncState.Concat | libs/lua/src/lcode.c:185-196 | Walks to the end of one list and links the other: the code, the lists threaded through it and the descriptor become what the specification gives, and no other open list is touched |
| LcodeFunc.FuncState.JumpHere | libs/lua/src/lcode.c:59-66 | Emits an open jump and puts the jumps to here on hold behind it: the code, the lists threaded through it and the descriptor become what the specification gives, and no other open list is touched |
| LcodeFunc.FuncState.Code | libs/lua/src/lcode.c:797-809 | Resolves the jumps to here and appends an instruction: the code, the lists threaded through it and the descriptor become what the specification gives, and no other open list is touched |
| LcodeFunc.FuncState.Discharge2Reg | libs/lua/src/lcode.c:343-379 | Puts the value that arrives in a register: the code, the lists threaded through it and the descriptor become what the specification gives, and no other open list is touched |
| LcodeFunc.FuncState.Exp2Reg | libs/lua/src/lcode.c:390-411 | Settles an expression in a register: the code, the lists threaded through it and the descriptor become what the specification gives, and no other open list is touched |
| LcodeFunc.FuncState.Exp2RK | libs/lua/src/lcode.c:444-469 | Puts an operand in a register, or takes its constant: the code, the lists threaded through it and the descriptor become what the specification gives, and no other open list is touched |
| LcodeFunc.FuncState.JumpOnCond | libs/lua/src/lcode.c:524-536 | Tests a register, or takes a negation back and tests its operand: the code, the lists threaded through it and the descriptor become what the specification gives, and no other open list is touched |
| LcodeFunc.FuncState.GoIfTrue | libs/lua/src/lcode.c:539-564 | Goes on if true, by a test, a negated comparison, nothing, or a jump of its own: the code, the lists threaded through it and the descriptor become what the specification gives, and no other open list is touched |
| LcodeFunc.FuncState.GoIfFalse | libs/lua/src/lcode.c:567-591 | Goes on if false, in the same four ways: the code, the lists threaded through it and the descriptor become what the specification gives, and no other open list is touched |
| LcodeFunc.FuncState.CodeNot | libs/lua/src/lcode.c:594-626 | Negation, of constants too: the code, the lists threaded through it and the descriptor become what the specification gives, and no other open list is touched |
| LcodeFunc.FuncState.CodeComp | libs/lua/src/lcode.c:681-694 | Comparison: the code, the lists threaded through it and the descriptor become what the specification gives, and no other open list is touched |
| LcodeFunc.FuncState.Generate | libs/lua/src/lcode.c:697-789 | Generates a whole expression: the code, the lists threaded through it and the descriptor become what the specification gives, and no other open list is touched |
| LcodeFunc.FuncState.NeedValue | libs/lua/src/lcode.c:122-128 | Whether some jump of a threaded list brings no value |

## Left out

LPeg:

- LpegPattern.MatchL: takes an instruction and its set as one element. For patterns that are not quiet (`LpegQuiet.QuietPattern`) the two searches of `LpegSlots` may go wrong, and what is compiled then is not described.
- LpegPattern.MatchL: positions between the first and the last are not claimed to lie inside the subject when an instruction reads there; reading past the end yields the zero byte.
- Patterns of 32757 slots or more, which are refused (`libs/lpeg/lpeg.c:935-938`), and offsets that no longer fit 16 bits: sizes and offsets are unbounded.
- Grammars, rule references, pattern environments and their joining, functions as patterns, match-time captures, and turning the capture list into values.
- LpegAsserts.AssertsExact: is about patterns that are `Safe`; for others `LpegAsserts.AssertionExact` speaks of their code alone.
- LpegErrors.BuildFails: that the check of a loop comes to too many pending choices is said of the code of its body (`PendsTooMany`), since it depends on which form was chosen for each part; for patterns at most 400 choices deep, where it cannot happen, `LpegErrors.ShallowFails` speaks of the pattern alone.
- LpegBrackets.CaptureDelimits: is about patterns none of whose captures has the kind kept for closing entries.
- Other assertions in the source are taken as switched off.

The collector:

- Weak tables, finalizers and userdata waiting for them, the pace and the estimate, shrinking of stacks and the slots above their tops, dead keys, closing the whole state.
- The layout of the mark byte: marks are records of two whites, black and fixed, and the bit operations that read and write them are not modelled.
- A table's entries are the sequence of what they refer to; which are keys and which values does not matter to a strong table.
- GcCollector.GlobalState.ReallyMarkObject: the metatables and environments of userdata and functions are among their references, without a place of their own.
- GcCollector.GlobalState.PropagateMark: tables are strong, so none goes to the list of weak tables; the amount traversed is not counted.
- GcCollector.GlobalState.Atomic: weak tables are not cleared, and userdata with finalizers are not separated.
- GcCollector.GlobalState.MarkRoot: the list of weak tables that is reset with the gray ones is not there.
- GcCollector.GlobalState.SweepList: the debt and the count of bytes freed are not kept.
- GcCollector.GlobalState.SweepBucket: the same.
- GcCollector.GlobalState.SingleStep: the last phase has no finalizers to call, and the estimates are not kept.
- GcCollector.GlobalState.FullGc: finalizers are not called at the end, and the threshold is not set.
- GcCollector.GlobalState.CloseUpvals: the open upvalues of a thread, and those of all threads, are sequences, without the links that make these lists.
- Objects held only by C code between two calls; every new object is pushed on a stack at once.
- Writes to the registry table are stores like any other; setting the registry itself is only done in the first pause, as a new state does.

The code generator:

- LcodeGiven.NothingTakenGives: its condition is sufficient. Whether a run takes a jump that spoils the value may depend on the values of the variables, so that the exact condition, `GivesBehind` in `LcodeAssign.AssignComputes`, compares what is given with the value for all of them.
- LcodeFunc.FuncState.Exp2RK: `nil` is not among the constants, and there are never more of them than an operand can name.
- LcodeFunc.FuncState.GoIfTrue: is not asked for `nil`.
- LcodeFunc.FuncState.GoIfFalse: is not asked for `nil`.
- LcodeFunc.FuncState.CodeNot: is not asked for `nil`.
- LcodeFunc.FuncState.Generate: `nil` as an operand is left out, and with it the merging of loads of `nil`.
- Arithmetic and its folding, upvalues, globals, table accesses and calls as operands, line numbers, labels kept for other optimisations.
- The parser's precedences: expressions are trees, generated in the order the parser meets their parts.
- Jumps too long for their field, which are an error (`libs/lua/src/lcode.c:84-85`): offsets are unbounded.
- LcodeFunc.FuncState.Assignment: when more than 249 registers would be needed the original raises an error; the model goes on and promises nothing.
- Comparison instructions answer by an arbitrary fixed function of their operands; what they run is not modelled, only that they run in order.

Elsewhere in the repository: DynASM, Lua's tables, string matching and sorting, and luabins are not modelled.
