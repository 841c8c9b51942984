# bc2bef in Dafny

A model of `bc2bef.cc` from beflisp. `bc2bef.cc` is an LLVM-IR backend that turns a module into a Befunge-93 program. The model follows the stages of `B2B::run`:

1. `filterInstructions` strips the `llvm.lifetime` markers.
2. `assignIds` numbers the blocks and gives every argument and instruction a frame slot.
3. `emitSetup` emits the register and global set-up.
4. `translate` lowers every instruction into a string of Befunge tokens.
5. `emitBlock`, `emitCode` and `emitChar` lay those tokens out, row by row, into the grid that `main` prints.

The IR is an abstract datatype (module, functions, blocks, instructions, operands), not LLVM's classes. Every `assert` in the source becomes an `Err` of a `Result`.

Lowered code is given a meaning by a small stack-machine evaluator over the token alphabet (`Machine.Step` and `Machine.Run`). It covers digits, `+ - * / %`, `! \` : \ $ g p , @`, plus the two layout constructs: `S` (select) and `G` (read a character). The lemmas about each lowering rule are stated against this evaluator. Examples: a literal pushes its value, `get`/`set` reach the right memory cell, a branch leaves the right block id, and a call pushes its continuation id and its arguments. For the `S` construct, the model also proves that the row `emitCode` lays out behaves like the token `S`, in both directions of travel.

Modules, in dependency order:

| module | file | models |
|---|---|---|
| `Ir` | ir.dfy | the IR, `getConstInt`, `getSizeOfType`, `filterInstructions` |
| `Machine` | machine.dfy | the token evaluator and the rows of the `S` construct |
| `Literals` | literal.dfy | `genInt` |
| `Addressing` | addressing.dfy | the region bases, `make2D`, the register accessors, `addr`/`get`/`set` |
| `Plan` | plan.dfy | `assignIds` |
| `Operands` | operands.dfy | `getLocal` |
| `Arithmetic` | arithmetic.dfy | `handleArith`, `convertUnsigned`, `handleCmp` |
| `Globals` | globals.dfy | `setupGlobalVars` |
| `Branches` | branches.dfy | `prepareBranch`, `handleBr`, `handleSwitch` |
| `Calls` | calls.dfy | `handleAlloca`, `handleRet`, `handleCall`, `modifyLocalPointer` |
| `Lowering` | lowering.dfy | `handleGetElementPtr`, `handleInstrcution` |
| `Translate` | translate.dfy | `translate` |
| `Layout` | layout.dfy | `emitChar`, `emitCode`, `emitBlock` (class `Canvas` over the rows) |
| `Compiler` | compiler.dfy | `emitSetup`, `run` |

Each loop of the source is a method whose `while` loop carries invariants. Its `ensures` ties the result to a function that defines the loop round by round. This applies to:
- `genInt`'s two loops;
- `getSizeOfType`'s member sum;
- `assignIds`' function, argument, block and instruction loops;
- `setupGlobalVars`;
- the phi and case loops of `prepareBranch` and `handleSwitch`;
- `handleCall`'s argument and `puts` loops;
- the GEP index loop;
- `translate`'s loops;
- `emitCode`'s cursor loop.

The grid (`bef_`) is the `rows` field of class `Layout.Canvas`. Its methods update it in place, and each method states the new grid as a function of the old one.

Behaviours of the source worth noting, which the model keeps as written:
- A switch keeps the id of the *last* matching case. Each case overwrites the id on top of the stack.
- `and` lowers to `*` and `or` to `+`. `xor` lowers to `+` followed by `2%`.
- A call moves the frame pointer by the *caller's* frame size, not the callee's.
- `convertUnsigned` adds 2^30 to a negative value. This orders values as unsigned 32-bit integers do only within [-2^29, 2^29). The model proves both the agreement in that range and a counterexample outside it.
- Globals are spaced one word apart, because the size used is that of the global's pointer type. A global whose initializer is an aggregate gets no address at all.
- An unknown opcode is refused while an instruction is lowered, not while ids are assigned.

## Model

| member | source | states |
|---|---|---|
| Ir.ConstIntOf | bc2bef.cc:43-47 | succeeds exactly on integer constants and then yields the constant's value |
| Ir.GetSizeOfType | bc2bef.cc:49-71 | the recursive method with its member loop returns the structural size `SizeOfType` |
| Ir.SumMemberSizes | bc2bef.cc:61-68 | the summing loop over a struct's members yields the sum of their sizes, or the first member's error |
| Ir.SumOfSizesErrSticks | bc2bef.cc:64-66 | once a member has no size, every longer prefix of the members fails with that error |
| Ir.SizeIsWordCount | bc2bef.cc:49-71 | a supported type's size is the number of scalar words it is laid out in (pointer and i1..i32 one word, arrays count times element, structs the sum); an unsupported type is refused |
| Ir.MembersSizeIsWordCount | bc2bef.cc:61-68 | the members' sum is their total word count when all are supported, an error otherwise |
| Ir.FilterInstsFails | bc2bef.cc:88-98 | filtering a block fails exactly when it holds an indirect call |
| Ir.FilterInstsKeeps | bc2bef.cc:84-113 | a successful filter keeps exactly the instructions that are not lifetime markers |
| Ir.FilterInstsOrder | bc2bef.cc:84-113 | a successful filter yields the block in its own order, with duplicates kept and only the lifetime markers erased (an independent front-to-back filter `Unmarked`) |
| Ir.FilterInstsCount | bc2bef.cc:84-113 | a successful filter removes exactly one instruction per lifetime marker |
| Ir.FilterInstsIdempotent | bc2bef.cc:84-113 | filtering an already filtered block changes nothing |
| Ir.FilterBlocksShape | bc2bef.cc:86-111 | every block keeps its label and has its own instructions filtered |
| Ir.FilterFunctionsShape | bc2bef.cc:85-112 | every function keeps its name, arguments and block labels, and each block is filtered |
| Machine.RunAppend | bc2bef.cc:122 | running two pieces of code in sequence is running their concatenation |
| Machine.SelectStep | bc2bef.cc:304-309 | `S` on a stack ending f, t, c leaves t when c is non-zero and f otherwise |
| Machine.InStep | bc2bef.cc:310-311 | the `G` construct `#@~` pushes the next input character, or -1 at end of input |
| Machine.HaltStep | bc2bef.cc:497-498 | `@` halts the program |
| Machine.HaltedStaysHalted | bc2bef.cc:550-551 | once halted, no further code changes the state |
| Machine.GetStep | bc2bef.cc:819 | `g` replaces coordinates x, y with the content of cell (x, y) |
| Machine.PutStep | bc2bef.cc:825 | `p` stores the value under the coordinates into cell (x, y) and pops all three |
| Machine.OutStep | bc2bef.cc:518 | `,` pops a value and appends it to the output |
| Machine.ReverseAt | bc2bef.cc:316-319 | written from right to left, character i of a construct lands where character i counted from the end of the reversal is |
| Machine.SelectLeftLaidOut | bc2bef.cc:307-319 | the leftward `S` construct written right to left occupies its cells in reverse |
| Machine.SelectRightRow | bc2bef.cc:305-306 | entered from the left on f, t, c, the laid-out rightward construct leaves on its right with exactly what the token `S` leaves |
| Machine.SelectLeftRow | bc2bef.cc:307-308 | entered from the right, the laid-out leftward construct leaves on its left with exactly what the token `S` leaves |
| Machine.SelectRightTaken | bc2bef.cc:306 | with a non-zero condition the rightward construct turns at `_`, swaps, and leaves t |
| Machine.SelectRightNotTaken | bc2bef.cc:306 | with a zero condition the rightward construct passes through and leaves f |
| Machine.SelectLeftApproach | bc2bef.cc:308 | moving left, `!` negates the condition before `_` |
| Machine.SelectLeftTurn | bc2bef.cc:308 | a zero at the leftward `_` turns back and swaps the two values under it |
| Machine.SelectLeftExit | bc2bef.cc:308 | a non-zero value at the leftward `_` goes on to `$`, which drops the next value |
| Machine.QuotRemNonNegative | bc2bef.cc:770-779 | for non-negative addresses truncating `/` and `%` agree with Euclidean division |
| Literals.Base9 | bc2bef.cc:735-739 | the digits of n are at least one and each below 9 |
| Literals.Digits | bc2bef.cc:735-739 | the do-while loop collects exactly the base-9 digits, least significant first |
| Literals.Base9Unfold | bc2bef.cc:736-739 | one loop round takes off the least significant digit |
| Literals.Base9Leading | bc2bef.cc:736-739 | the most significant digit of a positive number is not zero |
| Literals.EmitRound | bc2bef.cc:744-751 | one round of the emission loop appends the round for its digit |
| Literals.EmitRounds | bc2bef.cc:743-752 | the emission loop appends one round per digit, most significant first |
| Literals.GenInt | bc2bef.cc:729-753 | `genInt` as written produces exactly `Literal(v)` |
| Literals.EmittedIsPushes | bc2bef.cc:743-752 | the rounds over the digits of n append exactly the pushes that build n |
| Literals.LiteralRuns | bc2bef.cc:729-753 | running `genInt(v)`'s code pushes exactly v and changes nothing else |
| Literals.NegativeLiteralRuns | bc2bef.cc:731-742 | a negative value is built as 0 minus its magnitude and pushes v |
| Literals.PushesRunsPositive | bc2bef.cc:743-752 | the pushes of a magnitude leave it on the stack |
| Literals.PushesRunsNegative | bc2bef.cc:743-752 | after a pushed 0, the negative pushes of a magnitude leave its negation |
| Literals.LiteralPushes | bc2bef.cc:729-753 | the literal of v pushes v from every running state |
| Literals.LiteralAlphabet | bc2bef.cc:729-753 | a literal uses only digits, `*` and one sign character (`+` for v >= 0, `-` for v < 0), and a negative one starts with `0` |
| Addressing.CellOfInjective | bc2bef.cc:770-779 | distinct (band, non-negative address) pairs reach distinct cells |
| Addressing.CellOfBounds | bc2bef.cc:770-779 | a band's column lies in [9k, 9k + 9) and the row is address div 9, at least 1 from address 9 on |
| Addressing.DataIsNotARegister | bc2bef.cc:781-803 | no data address from 9 on shares a cell with the registers at 00, 10, 20 |
| Addressing.RegionOrder | bc2bef.cc:36-39 | frames and alloca stack start together, below the globals, below the heap |
| Addressing.Make2DRuns | bc2bef.cc:770-779 | `make2D` replaces a non-negative address with the column and row of its cell |
| Addressing.GetRegisterRuns | bc2bef.cc:781-799 | reading a register pushes its cell's value |
| Addressing.SetRegisterRuns | bc2bef.cc:785-803 | writing a register pops the top into its cell |
| Addressing.AddrRuns | bc2bef.cc:805-814 | `addr` pushes local pointer + id for LOCAL and `kLocalPos` + id otherwise |
| Addressing.GetRuns | bc2bef.cc:816-820 | `get` pushes exactly the slot's content (net stack effect +1) |
| Addressing.SetRuns | bc2bef.cc:822-826 | `set` pops exactly the top into the slot's cell (net stack effect -1) and changes nothing else |
| Addressing.SetThenGet | bc2bef.cc:816-826 | a slot outside the register row reads back what was stored |
| Addressing.SetKeepsOtherSlots | bc2bef.cc:822-826 | storing into one slot leaves every other slot unchanged |
| Plan.AssignIds | bc2bef.cc:126-172 | the function loop computes exactly `PlanOf(m)`: all tables, counters and entry point, or the first error |
| Plan.NumberFunction | bc2bef.cc:129-169 | one round of the function loop skips a declaration and numbers a definition |
| Plan.NumberArgs | bc2bef.cc:139-142 | the argument loop numbers each argument in turn |
| Plan.NumberBlocks | bc2bef.cc:144-167 | the block loop numbers each block in turn, stopping at the first error |
| Plan.NumberBlock | bc2bef.cc:145-166 | one block: its id, its instructions, then the next id |
| Plan.NumberInsts | bc2bef.cc:146-165 | the instruction loop gives a slot and block id to each instruction, plus a new block id after each call that returns |
| Plan.PlanInstsFails | bc2bef.cc:151-164 | numbering fails exactly on an indirect call, or on a non-intrinsic call that ends its block |
| Plan.NumberableIffOk | bc2bef.cc:151-164 | a block's numbering succeeds exactly when the block is numberable |
| Plan.PlanInstsCounters | bc2bef.cc:146-165 | after n instructions the slot counter rose by n and the block counter by the number of continuation calls among them |
| Plan.PlanInstsDomain | bc2bef.cc:147-148 | the instruction loop adds entries only for the instructions it numbered |
| Plan.PlanInstsEntries | bc2bef.cc:146-165 | with distinct names, instruction k gets slot start + k and block id start + the continuation calls before it |
| Plan.PlanInstsLast | bc2bef.cc:147-148 | each instruction adds exactly its own block id and slot |
| Plan.ContinuationBlock | bc2bef.cc:151-164 | the instruction after a non-intrinsic call has the call's block id + 1 (the id the call pushes at line 555); after anything else the id is the same |
| Plan.PlanArgsSlots | bc2bef.cc:139-142 | argument k gets slot start + k, and only arguments are added |
| Plan.PlanArgsCounters | bc2bef.cc:139-142 | the argument loop changes only the slot counter and the id map |
| Plan.PlanBlocksCounters | bc2bef.cc:144-167 | after n blocks the block counter rose by n plus their continuation calls, and the slot counter by their instruction count |
| Plan.PlanBlocksKeeps | bc2bef.cc:145-147 | block-map entries are never overwritten by later blocks |
| Plan.PlanInstsKeeps | bc2bef.cc:147-148 | the instruction loop never changes an existing entry |
| Plan.FuncStepCounters | bc2bef.cc:133-169 | a definition's frame size is its argument count plus its instruction count, the function map holds its first block id, `main` sets the entry point, and the block counter rises by blocks plus continuation calls |
| Plan.FirstBlockId | bc2bef.cc:134-145 | a function's first block has the id the function map records |
| Plan.ArgumentSlots | bc2bef.cc:133-142 | argument k of a definition gets frame slot k |
| Plan.PlanInstsErrSticks | bc2bef.cc:154-161 | after a failure the instruction loop's result stays the error |
| Operands.GetLocalOk | bc2bef.cc:755-768 | `getLocal` succeeds exactly on resolvable operands and otherwise reports a missing id |
| Operands.GetLocalRuns | bc2bef.cc:755-768 | `getLocal` pushes exactly the operand's value: a global's address, a constant, 0 for null, or the content of its frame slot |
| Operands.ValueOfLocal | bc2bef.cc:764-767 | an operand's value depends only on the frame pointer and the LOCAL cells |
| Operands.ValueOfSameFrame | bc2bef.cc:764-767 | any state agreeing with another on the frame gives every operand the same value |
| Operands.SameLocalsTrans | bc2bef.cc:805-809 | agreeing on the frame is transitive |
| Operands.TwoOperands | bc2bef.cc:459-461 | two operands pushed one after the other leave both values in order |
| Arithmetic.HandleArith | bc2bef.cc:459-485 | lowering succeeds exactly when both operands resolve and `and`/`xor` are on i1; otherwise it reports the missing id or `NotBoolean` |
| Arithmetic.ArithRuns | bc2bef.cc:459-485 | the lowered operation pushes `ArithValue` of the two operand values and changes nothing else |
| Arithmetic.BooleanOps | bc2bef.cc:463-484 | on 0/1, `and` (`*`) and `xor` (`+2%`) are the logical operations, and `or` (`+`) yields 2 for 1, 1 |
| Arithmetic.DivisionTruncates | bc2bef.cc:474-477 | sdiv/srem truncate toward zero: quotient and remainder rebuild the dividend, and the remainder is smaller than the divisor and has the dividend's sign |
| Arithmetic.ConvertUnsignedRuns | bc2bef.cc:828-830 | `convertUnsigned` replaces x by x for x >= 0 and by x + 2^30 for x < 0 |
| Arithmetic.PowerPartRuns | bc2bef.cc:829 | the first twelve tokens keep two copies of x and push x + 2^30 |
| Arithmetic.ChoicePartRuns | bc2bef.cc:829 | the rest of the string picks x or x + 2^30 by the sign of x |
| Arithmetic.UnsignedOrderAgrees | bc2bef.cc:828-830 | on [-2^29, 2^29) the converted order is the unsigned 32-bit order |
| Arithmetic.UnsignedOrderBreaks | bc2bef.cc:828-830 | -2^30 and 0 both convert to 0 although their unsigned readings differ |
| Arithmetic.CmpTailRuns | bc2bef.cc:647-698 | each comparison tail (`-!`, `-!!`, `` ` ``, `` `! ``) leaves its 0/1 value |
| Arithmetic.CmpOperandRuns | bc2bef.cc:657-697 | an operand of an unsigned predicate is pushed converted, of a signed one as is |
| Arithmetic.CmpRuns | bc2bef.cc:641-704 | the lowered comparison pushes `CmpValue` of the operands and changes nothing else |
| Arithmetic.SignedCmpCorrect | bc2bef.cc:641-704 | eq, ne and every signed predicate leave 1 exactly when they hold and 0 otherwise |
| Arithmetic.UnsignedCmpCorrect | bc2bef.cc:657-699 | every unsigned predicate is right on operands in [-2^29, 2^29) |
| Arithmetic.UnsignedCmpWrong | bc2bef.cc:657-666 | `ugt` of -2^30 and 0 comes out 0 although it holds |
| Globals.SetupGlobalVars | bc2bef.cc:246-267 | the loop over the globals computes exactly `SetupGlobals`: code, address map and running address |
| Globals.SetupGlobalsFails | bc2bef.cc:249-266 | setup fails exactly when a global that is not skipped has an initializer that is neither an integer nor null |
| Globals.GlobalAddresses | bc2bef.cc:247-265 | a global that is not skipped has address `kGlobalPos` + the number of placed globals before it, skipped ones get none, and the running address steps by 1 per placed global |
| Globals.GlobalNext | bc2bef.cc:247-265 | the running address is the base plus the placed count |
| Globals.GlobalNextGrows | bc2bef.cc:247-265 | the running address never falls below `kGlobalPos` |
| Globals.GlobalStoreRuns | bc2bef.cc:257-260 | a global's store writes its value into its MEM cell and leaves the stack alone |
| Globals.SetupGlobalsFrame | bc2bef.cc:246-267 | the setup code changes only the MEM cells of the global region |
| Globals.SetupGlobalsValues | bc2bef.cc:246-267 | after the setup code every stored global's cell holds its initial value |
| Globals.StoreMisses | bc2bef.cc:264-265 | the next global's cell differs from every earlier global's cell |
| Globals.StoreStep | bc2bef.cc:254-262 | a stored global's step is the code before it plus one store at the running address |
| Globals.SetupGlobalsRunning | bc2bef.cc:246-267 | the setup code never halts and never touches the stack |
| Globals.PlacedGrows | bc2bef.cc:264-265 | earlier placed globals have smaller addresses |
| Branches.LeadingPhis | bc2bef.cc:580-582 | the staged instructions are all phis |
| Branches.LeadingPhisPrefix | bc2bef.cc:580-582 | they are the block's prefix up to its first non-phi |
| Branches.FirstIncoming | bc2bef.cc:589-603 | the index found is the first incoming entry from the source block; none means no entry names it |
| Branches.FindIncoming | bc2bef.cc:589-603 | the search loop returns the first matching incoming entry |
| Branches.PhiMove | bc2bef.cc:584-604 | staging one phi succeeds exactly when `MoveOk`, fails without a source block, and fails as unmatched when no entry matches |
| Branches.StagePhi | bc2bef.cc:584-604 | the method stages one phi as `PhiMove` says |
| Branches.PhiMoves | bc2bef.cc:580-605 | staging the phis succeeds exactly when every phi's move does |
| Branches.StagePhis | bc2bef.cc:580-605 | the loop over the leading phis produces their moves in order |
| Branches.PrepareBranchCode | bc2bef.cc:579-610 | `prepareBranch` as written: the phi moves, then the target's block id |
| Branches.PrepareBranchOk | bc2bef.cc:579-610 | a branch can be prepared exactly when `BranchOk` holds |
| Branches.PhiMoveRuns | bc2bef.cc:592-600 | one move stores the phi's incoming value (0 for undef) into its PHI slot |
| Branches.PhiMovesRuns | bc2bef.cc:580-605 | staging the phis updates memory to `Stage`, reading values from the state before the branch |
| Branches.StageKeepsLocals | bc2bef.cc:600 | staging writes only the PHI band: frame pointer and LOCAL cells stay |
| Branches.StagedValues | bc2bef.cc:584-604 | after staging, each phi's cell holds the value its first incoming entry for the source names |
| Branches.PhiReadsStaged | bc2bef.cc:426-428 | a phi, lowered as a read of its PHI slot, reads what staging stored |
| Branches.PrepareBranchRuns | bc2bef.cc:579-610 | `prepareBranch` stages the target's phis and pushes the target's block id |
| Branches.CondBrParts | bc2bef.cc:612-618 | a conditional branch's code is false target, true target, condition, `S` |
| Branches.TwoTargetsRun | bc2bef.cc:614-615 | preparing two targets pushes both ids and stages the first's phis then the second's |
| Branches.CondBrRuns | bc2bef.cc:612-622 | a conditional branch leaves the true target's id when the condition is non-zero and the false target's otherwise |
| Branches.SwitchCode | bc2bef.cc:624-639 | `handleSwitch` as written produces `HandleSwitch`: the default, then the cases |
| Branches.EmitCases | bc2bef.cc:628-638 | the case loop produces the cases' code in order |
| Branches.EmitCase | bc2bef.cc:631-637 | one case: prepare its target, push its value and the discriminant, `-!S` |
| Branches.CasesCodeOk | bc2bef.cc:628-638 | the cases lower exactly when every target can be prepared and the discriminant resolves |
| Branches.SwitchDefault | bc2bef.cc:626-638 | with no case matching, the default's id stays |
| Branches.SwitchLastMatch | bc2bef.cc:628-638 | the cases leave the id of the last case whose value equals the discriminant |
| Branches.MatchTailRuns | bc2bef.cc:637 | `-!S` keeps the case id when value and discriminant are equal, the current id otherwise |
| Branches.CaseRuns | bc2bef.cc:631-637 | one case replaces the id on top as `SwitchTarget` says and stages its target |
| Branches.CasesStep | bc2bef.cc:628-638 | one more case carries the running id and staging one step further |
| Branches.CasesRun | bc2bef.cc:628-638 | the cases leave `SwitchTarget` of the discriminant with their targets staged |
| Branches.SwitchRuns | bc2bef.cc:624-639 | a switch leaves the id of the last matching case, or the default's |
| Calls.AdjustRuns | bc2bef.cc:570-577 | adjusting a register changes exactly that register by k |
| Calls.AdjustUndone | bc2bef.cc:564-566 | moving the frame pointer up and back by the same size restores it |
| Calls.AllocateRuns | bc2bef.cc:706-715 | bump allocation pushes the old register value and advances the register by the amount |
| Calls.AllocaCode | bc2bef.cc:706-715 | an alloca's code is a bump of the stack pointer by the type's word count, which is its size |
| Calls.AllocaRuns | bc2bef.cc:706-715 | an alloca pushes the old stack top and advances it by the type's size |
| Calls.ReleasedKeepsFrame | bc2bef.cc:488-493 | releasing the alloca stack leaves the frame and every operand's value |
| Calls.AllocaReleased | bc2bef.cc:487-493 | a return with the alloca's size puts the stack pointer back where it was |
| Calls.ReturnValueRuns | bc2bef.cc:487-509 | a return outside `main` puts its value under the return block id |
| Calls.ReturnVoidRuns | bc2bef.cc:505-507 | a `ret void` outside `main` puts 0 under the return block id |
| Calls.MainReturnRuns | bc2bef.cc:497-498 | a return from `main` releases the alloca stack and halts |
| Calls.EmitText | bc2bef.cc:542-548 | `puts`' loop emits a literal and `,` per character up to the first 0 |
| Calls.PrintRuns | bc2bef.cc:542-548 | the printing code outputs exactly its characters, in order |
| Calls.NewlineRuns | bc2bef.cc:549 | `52*,0` writes a newline and yields 0 |
| Calls.TextIsPrefix | bc2bef.cc:542-545 | the printed text is the initializer's prefix before its first 0 |
| Calls.PushArgs | bc2bef.cc:557-558 | the argument loop, from last to first, produces `ArgsCode` |
| Calls.ArgsCodeOk | bc2bef.cc:557-558 | pushing the arguments fails exactly when one cannot be pushed |
| Calls.ArgValues | bc2bef.cc:557-558 | one value per argument |
| Calls.ArgValuesOrder | bc2bef.cc:557-558 | argument k is the (n - 1 - k)-th value pushed |
| Calls.ArgsRuns | bc2bef.cc:557-558 | the argument code pushes the arguments' values, last first, and nothing else |
| Calls.EntryBranch | bc2bef.cc:560-562 | a branch without a source reaches only a block without phis and just pushes its id |
| Calls.NoSourceNoPhis | bc2bef.cc:584-585 | without a source block no phi can be staged |
| Calls.CallParts | bc2bef.cc:552-567 | a call's code: continuation id, arguments, entry id, frame bump; a split at its continuation block; the frame pointer moved back |
| Calls.CallSequenceRuns | bc2bef.cc:555-564 | the calling sequence pushes the continuation id, the arguments (last first) and the callee's entry id, and raises the frame pointer by the caller's frame size |
| Calls.ResumeCode | bc2bef.cc:565-566 | the continuation block begins by lowering the frame pointer by the same size |
| Calls.SplitsIffContinuation | bc2bef.cc:516-567 | a call ends its block exactly when it is not one of the six runtime functions |
| Calls.PutcharRuns | bc2bef.cc:516-519 | `putchar(c)` writes c and yields 0 |
| Calls.GetcharRuns | bc2bef.cc:520-522 | `getchar()` pushes the next input character, or -1 at end of input |
| Calls.CallocRuns | bc2bef.cc:523-530 | `calloc(n, 4)` returns the heap top and advances it by n |
| Calls.FreeRuns | bc2bef.cc:531-532 | `free` only yields 0 |
| Calls.ExitRuns | bc2bef.cc:550-551 | `exit` halts |
| Calls.PutsRuns | bc2bef.cc:533-549 | `puts(s)` writes the string up to its 0, then a newline, and yields 0 |
| Lowering.EmitGep | bc2bef.cc:717-727 | the index loop produces `HandleGep` |
| Lowering.IndexCodeOk | bc2bef.cc:722-725 | the index code succeeds exactly when every index resolves |
| Lowering.IndexFails | bc2bef.cc:722-725 | a missing index fails the whole GEP with its error |
| Lowering.IndexAppend | bc2bef.cc:723-724 | one round appends the index's push and `+` |
| Lowering.IndicesRuns | bc2bef.cc:722-725 | the index code adds the plain, unscaled sum of the indices to the address on top |
| Lowering.GepParts | bc2bef.cc:717-727 | a GEP must be in bounds and is base push plus index code |
| Lowering.GepRuns | bc2bef.cc:717-727 | a GEP computes its base plus the plain sum of its indices |
| Lowering.SelectRuns | bc2bef.cc:419-424 | a select leaves the true value when the condition is non-zero and the false value otherwise |
| Lowering.LoadRuns | bc2bef.cc:438-442 | a load through a non-negative pointer pushes its MEM cell |
| Lowering.StoreRuns | bc2bef.cc:444-451 | a store writes the value into the pointer's MEM cell and changes nothing else |
| Lowering.StoreKeepsFrame | bc2bef.cc:444-451 | a store never touches the frame |
| Lowering.StoreThenLoad | bc2bef.cc:438-451 | a load through the pointer just stored to reads the stored value back |
| Lowering.SplitsOnlyAtCalls | bc2bef.cc:379-457 | an instruction's code is split around a continuation block exactly when it calls a defined function, and at that call's own block id |
| Lowering.StackSizeGrowth | bc2bef.cc:706-715 | only an alloca grows the alloca total, by its type's word count |
| Lowering.CastRuns | bc2bef.cc:396-401 | a cast pushes its operand's value unchanged |
| Translate.DigitsRoundTrip | bc2bef.cc:182-183 | the decimal digits of a header number read back as the number |
| Translate.DecimalRoundTrip | bc2bef.cc:182-183 | a header id reads back as the id written |
| Translate.TranslateInst | bc2bef.cc:202-214 | one round: lower the instruction, store its result unless it is br/switch/store/ret, append a space |
| Translate.TranslateInsts | bc2bef.cc:202-214 | the instruction loop produces `LowerInsts` |
| Translate.TranslateBlocks | bc2bef.cc:190-218 | the block loop produces `LowerBlocks`, each block closed by `emitBlock(*last_inst)` |
| Translate.TranslateArgs | bc2bef.cc:186-187 | the argument loop pops each argument into its slot, first argument first |
| Translate.TranslateFunction | bc2bef.cc:176-219 | one function: nothing for a declaration; else the header row, the prologue and the blocks |
| Translate.TranslateFunctions | bc2bef.cc:174-220 | `translate` produces `LowerFunctions` |
| Translate.LastRoundShape | bc2bef.cc:202-214 | the last round grows the alloca total and records the last instruction, and only a continuation call closes a segment, with its own id |
| Translate.LowerInstsSegments | bc2bef.cc:202-214 | a numbered block's instruction loop adds one segment per continuation call with consecutive ids from the block's id |
| Translate.CloseBlockShape | bc2bef.cc:216-217 | closing a block appends the segment of its last instruction's block id |
| Translate.BlockStepSegments | bc2bef.cc:190-218 | one block appends consecutive segments, one plus one per continuation call |
| Translate.LowerBlocksSegments | bc2bef.cc:190-218 | a function's blocks produce segments with exactly the consecutive ids `assignIds` gave them |
| Translate.FunctionPieces | bc2bef.cc:176-219 | a defined function becomes its header row, then one segment per block id, in order |
| Translate.PrologueRuns | bc2bef.cc:186-187 | the prologue pops one value per parameter into its slot and changes nothing else |
| Translate.SpillReads | bc2bef.cc:186-187 | parameter k holds the value k places below the top |
| Translate.SpillKeepsOthers | bc2bef.cc:186-187 | frame cells that are not parameter slots keep their contents |
| Translate.SpillKeepsBase | bc2bef.cc:186-187 | the prologue does not move the frame pointer |
| Translate.ArgumentsReceived | bc2bef.cc:186-187 | given the values a call pushed, the prologue puts argument k's value into parameter k's slot |
| Layout.Put | bc2bef.cc:373-377 | the grid has max(rows, y + 1) rows |
| Layout.Fill | bc2bef.cc:375-376 | row y is max(its length, x + 1) long |
| Layout.FillCells | bc2bef.cc:375-376 | the written cell reads c; other cells are unchanged, and new ones are spaces |
| Layout.PutCells | bc2bef.cc:373-377 | after `emitChar(x, y, c)` cell (x, y) is c, the row count is max(old, y + 1), row y is padded to at least x + 1, and every other cell and row is unchanged |
| Layout.Apply | bc2bef.cc:373-377 | a run of writes never removes rows |
| Layout.ApplyAt | bc2bef.cc:373-377 | a cell reads the last write to it, or its old content |
| Layout.ApplyBelow | bc2bef.cc:373-377 | writes below row k keep the rows above k |
| Layout.TurnRedirects | bc2bef.cc:323-335 | a turn writes `v`, then the arrow for the new direction below it, moves down one row and flips dx |
| Layout.Line | bc2bef.cc:316-319 | a construct's line moves the pen by its length |
| Layout.LineCells | bc2bef.cc:316-319 | character i of a construct lands i columns ahead on the pen's row |
| Layout.Token | bc2bef.cc:285-338 | every write of one character keeps to columns 10..78 and to rows from the pen's down |
| Layout.Walk | bc2bef.cc:285-339 | the whole loop keeps 10 <= x <= 78 at every write |
| Layout.ConstructUnbroken | bc2bef.cc:286-321 | `S` and `G` are written contiguously on one row inside the code columns |
| Layout.RoomMade | bc2bef.cc:287-301 | before a construct the pen is at most at 78 - kMargin going right and at least at 10 + kMargin going left, and it stays on its row exactly when it does not turn |
| Layout.ExitPath | bc2bef.cc:341-359 | a block's exit writes at least four cells |
| Layout.CodeWrites | bc2bef.cc:281-371 | `emitCode` always writes something |
| Layout.ExitRowBelow | bc2bef.cc:341-355 | the exit row holds `_1-` and lies at least two rows below the block's first row and below every other row it uses |
| Layout.BlockWritesConfined | bc2bef.cc:281-371 | a block writes only its own rows, and left of column 10 only below its dispatcher |
| Layout.ConfinedKeeps | bc2bef.cc:341-359 | confined writes keep the dispatcher columns of the block's first rows |
| Layout.DispatcherStays | bc2bef.cc:269-273 | rows added below a dispatcher keep it |
| Layout.BlockKeepsDispatcher | bc2bef.cc:269-279 | after `emitBlock` the rows before are unchanged and the three dispatcher rows are in place |
| Layout.DispatcherCell | bc2bef.cc:271-273 | each dispatcher cell left of column 10 reads as pushed |
| Layout.DispatchTestRuns | bc2bef.cc:275-276 | `genInt(id)` and `-:0``!` leave the difference to the wanted id and, above it, the flag the dispatcher branches on |
| Layout.Canvas.constructor | bc2bef.cc:839 | the grid starts empty |
| Layout.Canvas.PushRow | bc2bef.cc:184 | `push_back` appends one row |
| Layout.Canvas.EmitChar | bc2bef.cc:373-377 | `emitChar` updates the rows to `Put` of the old ones |
| Layout.Canvas.TurnPen | bc2bef.cc:323-335 | a U-turn writes the turn's cells and moves the pen as `Turn` says |
| Layout.Canvas.MakeRoomPen | bc2bef.cc:287-301 | the forced turns before a construct |
| Layout.Canvas.EmitLine | bc2bef.cc:316-319 | the construct's cells along the row |
| Layout.Canvas.EdgePen | bc2bef.cc:323-335 | the turn at an edge column before a plain character |
| Layout.Canvas.EmitToken | bc2bef.cc:285-338 | one pass of the cursor loop writes `Token`'s cells and moves the pen as it says |
| Layout.Canvas.EmitCode | bc2bef.cc:281-371 | `emitCode` applies exactly `CodeWrites` to the grid |
| Layout.Canvas.EmitExitPath | bc2bef.cc:341-355 | the block's way out |
| Layout.Canvas.EmitDrop | bc2bef.cc:350-354 | the `v` down to the exit row and `_1-` there |
| Layout.Canvas.EmitExit | bc2bef.cc:341-359 | the exit path, then the dispatcher marks when the block is taller than three rows |
| Layout.Canvas.EmitBlock | bc2bef.cc:269-279 | `emitBlock` leaves the grid `EmitBlockGrid` |
| Compiler.StoreRuns | bc2bef.cc:229-234 | a literal then a register write sets that register |
| Compiler.StoresRun | bc2bef.cc:229-235 | three register stores and a literal set the three registers and push the literal |
| Compiler.RegistersRun | bc2bef.cc:229-235 | the first half of the setup sets the registers to `kStackPos`, `kHeapPos`, `kLocalPos` and pushes the entry block id |
| Compiler.SetupThenGlobals | bc2bef.cc:228-237 | the setup runs the register part, then the globals' stores |
| Compiler.SetupRunsRegisters | bc2bef.cc:228-237 | after the whole setup the entry id is on the stack and the registers hold the region bases |
| Compiler.GlobalsAfter | bc2bef.cc:237 | the stores initialise the globals whatever code runs before them |
| Compiler.SetupRunsGlobals | bc2bef.cc:228-237 | after the whole setup every stored global holds its initial value |
| Compiler.SetupGrid | bc2bef.cc:239-243 | the setup leaves at least one row |
| Compiler.SetupTurnsDown | bc2bef.cc:242-243 | the setup's last row has `<` in column 6 and `v` in column 0 |
| Compiler.LayPiece | bc2bef.cc:184-217 | a row or a block only appends rows |
| Compiler.LayPieces | bc2bef.cc:176-219 | laying out the pieces keeps the rows before |
| Compiler.LayPiecesKeeps | bc2bef.cc:176-219 | later pieces never touch earlier pieces' rows |
| Compiler.LayPiecesStep | bc2bef.cc:176-219 | the first k + 1 pieces are the first k, then piece k |
| Compiler.RowInPlace | bc2bef.cc:183-184 | in the finished grid a header row reads as written |
| Compiler.SegmentInPlace | bc2bef.cc:269-273 | in the finished grid every block segment starts with its dispatcher |
| Compiler.Output | bc2bef.cc:115-120 | the output has at least one row per piece plus the setup |
| Compiler.OutputStartsWithSetup | bc2bef.cc:115-120 | the output starts with the setup rows, whose last row turns down into the dispatch column |
| Compiler.EmitSetup | bc2bef.cc:228-244 | `emitSetup` updates the grid to `SetupGrid` |
| Compiler.EmitPieces | bc2bef.cc:176-219 | header rows are pushed as written and segments go through `emitBlock`, in order |
| Compiler.Compile | bc2bef.cc:115-120 | `run` as written produces `Program(m)`: the filter, `assignIds`, `emitSetup` and `translate`, or the first error |

## Left out

- `main` is not modelled: command-line handling, reading and parsing the bitcode, and printing the rows. `Compile` takes the parsed module as a value and returns the rows.
- Debug rows (`-g`) are not modelled, and neither are the stderr traces or the `dump()` calls. They are diagnostics only.
- Full Befunge-93 execution of the output is not modelled. The evaluator runs token strings, not the 2D grid. Only the `S` construct's rows are run in 2D (`Machine.SelectRightRow`, `Machine.SelectLeftRow`). The dispatcher's scan and end-to-end equivalence with the source program are not proved.
- 32-bit wrap-around is not modelled. Integers are unbounded, so `genInt(INT_MIN)` and `getLimitedValue` truncation are out of scope.
- Literals.LiteralRuns: holds for every unbounded integer, which includes values outside the source's `int` range, where the C code would overflow.
- Arithmetic.UnsignedCmpCorrect: proved only on [-2^29, 2^29), because the source's bias is wrong outside it (`Arithmetic.UnsignedCmpWrong`).
- Calls.CallocRuns: says nothing about the allocated cells being zero. The source does not clear them either.
- Zero-initialised globals and `calloc`ed cells are never written by the generated code, so they read whatever a fresh cell holds. In the evaluator that is a space (32), because a Befunge-93 grid starts filled with spaces. The source counts on the interpreter starting its data memory at 0 (for example, lisp2d.c reads the zero-initialised `g_x`, `g_y` and `g_dy` before writing them). The model does not assume this.
- Translate.FunctionPieces: assumes the blocks are numbered from the function's id as `assignIds` numbers them. Combining it with `Plan.FuncStepCounters` over the whole module is not proved.
- Translate.ArgumentsReceived: the caller and callee halves of argument passing are proved separately (`Calls.CallSequenceRuns`). Joining them requires the 2D dispatch in between, which is not modelled.
- All functions are lowered before any layout. The source interleaves lowering and layout, but both abort on the first error with no output, so the result is the same.
- Error order: where one instruction has several problems, the model reports one of them. The source aborts at whichever `assert` comes first.
- Division by zero yields 0 in the evaluator. The source's target behaviour depends on the interpreter running it.
- `~` (in `G`) yields -1 at end of input. This also depends on the external interpreter. Under an interpreter whose `~` reflects at end of input, the `@` of `#@~` is reached, and `getchar` at end of input halts the program. `Machine.InStep` does not model that path.
- The `Canvas` helper methods (`TurnPen`, `MakeRoomPen`, `EmitLine`, `EdgePen`, `EmitToken`, `EmitExitPath`, `EmitDrop`, `EmitExit`) are pieces of `emitCode`'s body, split out so that each can be proved on its own.
- lisp.c, lisp2d.c, libef.h and the programs under test/ are C inputs to the compiler, not part of it. test_bef.rb runs external processes.
