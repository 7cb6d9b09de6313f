# bll: machine, compiler, codec and commitments in Dafny

This project models the consensus core of a bll implementation and proves
properties of it for all programs, inputs and budgets:

- the continuation machine with its metered budget and softfork guards
  (`Costs`, `Budgets`, `Machine`, `Evaluator`), its opcodes (`Opcodes`,
  `OpTable`, `StandardRules`, `OpcodeLoops`, `OpcodeMeaning`, `Shifts`,
  `Products`, `Integers`), a direct recursive evaluator it equals (`BigStep`),
  what program text means and costs (`ProgramMeaning`), and what holds over whole
  runs (`SoftForkSafety`, `Replay`, `Invariants`, `Unreachability`,
  `EnoughBudget`, `PartialApplication`, `Counters`, `PaidCounters`,
  `Constructions`, `BytesPaid`);
- the symbolic language (`Symbll`, `SymbolicEvaluator`) with its own direct
  evaluator (`SymbllDirect`), its compiler (`Compiler`, `SymbolIndexes`) with the
  programs it accepts (`Compilable`), the layout of environments (`Layout`) and
  the correctness of compiled code (`CompiledCode`, `SymbllRuns`,
  `CompilerCorrectness`, `CompilerLimits`, `Coverage`, `ParameterLists`,
  `BllClosure`);
- the two element codecs (`Codec`, `Canonical`, `Encodings`, `SerDesers`), the
  printer and the parser with the texts it reads (`AtomText`, `Parser`,
  `Grammar`), the reference-counted heap (`Heap`), the streaming hasher (`Hasher`,
  `HashOpcodes`), Taproot commitments (`Taproot`) and a whole spend
  (`SpendValidation`, `SpendAcceptance`, `SpendConstructions`).

Every module has a file of its own.

`dafny verify dfyconfig.toml` checks everything.

## How the pieces fit

The transition functions of `Machine` and `Symbll` are the specifications. The
classes `Evaluator.WorkItem` and `SymbolicEvaluator.WorkItem` hold the lists of
continuations and the budget that the source updates in place, and each of
their methods is proved to take the abstract state where the transition function
takes it. Theorems about runs are lemmas about those functions, and reach the
classes through `Evaluator.Eval`, `SymbolicEvaluator.SymbolicEval` and
`SpendValidation.VerifySpend`. What the functions themselves compute is stated
against references that do not use them: the direct evaluators, the grammar of
program text, the encodings, the meanings of opcodes and of program forms, the
grounds on which a spend is accepted.

The machine is generic in its opcodes: a `Validator` says what feeding an
argument to a bound opcode and finishing it charge and give, and whether softfork
extension 0 is known. `StandardRules.Standard` supplies the opcode table. Hash
digests, and the opcodes left out below, are answered by an `Oracle` of
arbitrary functions, so every theorem holds for all of them; where a theorem needs
something of the oracle (that it makes no function objects, say) it is a named
hypothesis: `Plain`, `Harmless`, `Covered`. `SpendConstructions.HypothesesMet` gives
an oracle that meets all three. `HashOpcodes.Digests` says what the oracle
answers for the four hash opcodes.

A row of charges inside one operation stops at the first that does not fit, and
no value depends on the budget, so an operation is described by the sum of its
charges (`Metered`); `Costs.ChargeSum` and the loops of `OpcodeLoops`,
`Canonical`, `SerDesers` and `Evaluator`, which charge piece by piece, justify
that. Budgets are compared by `Alike`: equal, or both breached and equal once
the abandoned guards are gone.

Results that needed a condition, with the input that shows why:

- The symbolic evaluator need not end. Its memory check pushes an error even onto
  a finished value, so while the allocator stays over its limit the last value is
  never alone on the stack. It comes to its result, to a Python exception or to a
  last error within its step allowance and one more step, and from that error on it
  ends if and only if the allocator is below its limit at some later check
  (`CompilerLimits.SymbolicEvalEndsExactly`). For an allocator that counts what is
  live, the checks after the first come down to one bound: what is kept besides
  leaves room for one error (`RoomEndsExactly`, `RoomEnds`). An allocator that stays
  below its limit lets every evaluation end (`SymbolicEvalTerminates`); beside a
  definition that holds an atom of 400,000 bytes none ends (`LargeGlobalHangs`).
- The compiler is correct for functions with distinct, non-builtin parameter names,
  and for no other lists of non-builtin names that a symbolic call can use at all
  while the allocator stays below its limit (`ParameterLists.ParametersExactly`).
  With a parameter named twice, `(F X X)` applied to 1 and 2 gives 2 symbolically
  and the pair of both when compiled (`ParameterLists.DuplicateParametersDiverge`).
- A Taproot leaf in a tree built by `taproot_tree_helper` can be spent if and
  only if no empty list stands beside its path: an empty list contributes an
  empty hash to its parent and nothing to the leaf's branch
  (`Taproot.AcceptedExactlyBesideNoVoid`).
- Splitting an argument list over partial calls is invisible when every further
  call is given at least one argument: a call of `partial` on a bound function
  alone finishes it (`PartialApplication.ExtendComesTo` states both cases).
- On bll values `===` is equality (`OpcodeMeaning.BigEqOnValues`). Among pairs that
  hold a function object it is an error exactly when all arguments before one are
  the same and comparing that one with the first, right children first, meets a
  function object before a difference
  (`OpcodeMeaning.BigEqMeaning`).
- Soft-fork safety speaks of values and of exhaustion. An error inside a guard,
  or a guard not spent exactly, is where the validator that knows the extension
  may refuse what the other accepts.

## Model

| member | source | states |
|---|---|---|
| `Costs.ChargeSum` | costs.py:260-279 | Charging in parts and charging the sum leave the same latches, and the same budget once abandoned guards are gone. |
| `Budgets.Budget.Charge` | costs.py:260-279 | The mutable budget spends an amount from the innermost allowance or from the budget, latches breach or exhaustion exactly when it does not fit, and reports the full limit as used on exhaustion. |
| `Budgets.Budget.PushAllowance` | costs.py:281-285 | A guard's allowance opens unspent and innermost. |
| `Budgets.Budget.PopAllowance` | costs.py:287-291 | Closing the innermost guard says exactly whether its allowance was used up, and uncovers the guard outside it. |
| `Budgets.Budget.ClearAllowances` | costs.py:293-299 | Unwinding drops every guard and the breach latch and nothing else. |
| `Budgets.Budget.LatchAllocBreach` | costs.py:301-304 | The allocator's latch is set and the rest of the budget is untouched. |
| `Integers.ReadInteger` | element.py:133-143 | The byte loop computes the signed little-endian reading of every byte string. |
| `Integers.IntRoundTrip` | element.py:115-143 | Reading undoes writing, for every integer. |
| `Integers.ShortestEncoding` | element.py:115-131 | No byte string that reads as an integer is shorter than the one written for it. |
| `Integers.WrittenWidth` | element.py:115-131 | A written integer's magnitude needs every byte of its encoding and fits beside the sign bit. |
| `Products.ProductWidth` | opcodes.py:264-287 | The encoding of a product is no wider than its factors together. |
| `Products.UnknownCoversMul` | opcodes.py:1432-1485 | An unknown operator of the mul shape charges at least its multiplier plus one times what `*` charges as base and fold work for its folds after the first, for all argument lists. |
| `Shifts.ShiftBytes` | opcodes.py:733-750 | The byte loop emits the shifted string of its specification, for every string and every nonzero offset. |
| `Shifts.LeftShift` | opcodes.py:716-750 | A left shift by n multiplies the unsigned reading by 2^n in exactly n/8 + length + 1 bytes, the size that was charged. |
| `Shifts.RightShift` | opcodes.py:716-750 | A right shift by k yields the floor of the reading over 2^k, in a stated number of bytes never above the charged size. |
| `OpcodeLoops.AddLeaf` | opcodes.py:478-501 | One argument to `b`: the loop of merges is the carry of a binary counter, charged once up front. |
| `OpcodeLoops.FoldTrees` | opcodes.py:503-525 | Finishing `b` folds the pending trees newest innermost, each cons charged before it is built. |
| `OpcodeLoops.CompareTrees` | opcodes.py:793-843 | The explicit-stack walk of `===` gives the verdict of recursive comparison and charges node pairs and bytes with the same early exit. |
| `OpcodeMeaning.AddIsSum` | opcodes.py:193-213 | `+` over any argument list is the sum, an error exactly when an argument is no atom. |
| `OpcodeMeaning.MulIsProduct` | opcodes.py:264-291 | `*` over any argument list is the product. |
| `OpcodeMeaning.SubIsDifference` | opcodes.py:215-262 | `-` is the first argument less the others, and the negation of a single one. |
| `OpcodeMeaning.ModIsRemainder` | opcodes.py:293-317 | `%` over any argument list: the arity, atom and zero-divisor errors in their order, and otherwise a remainder of the two numbers with the divisor's sign. |
| `OpcodeMeaning.ShiftMeaning` | opcodes.py:704-750 | `shift` over any argument list multiplies by, or divides rounding down by, a power of two, in a stated number of bytes. |
| `OpcodeMeaning.CatIsConcatenation` | opcodes.py:866-886 | `cat` is the concatenation of its arguments. |
| `OpcodeMeaning.StrlenIsLength` | opcodes.py:853-864 | `strlen` is the total length of its arguments. |
| `OpcodeMeaning.SubstrIsSlice` | opcodes.py:888-933 | `substr` over any argument list is the plain slice between its bounds, negative ones counted from the end, its shortcuts included. |
| `OpcodeMeaning.HashIsDigest` | opcodes.py:401-434 | A hash opcode digests the concatenation of its arguments, however it is cut. |
| `OpcodeMeaning.ShaMeaning` | opcodes.py:401-459 | `sha256` and `hash256` by number. |
| `OpcodeMeaning.RipemdMeaning` | opcodes.py:401-459 | `ripemd160` and `hash160` by number. |
| `OpcodeMeaning.CalledByName` | opcodes.py:1487-1543 | The numbers whose meaning is stated are reached under these names and no others. |
| `OpcodeMeaning.RcReverses` | opcodes.py:461-476 | `rc` lists its arguments in reverse with the first as the tail. |
| `OpcodeMeaning.PartsMeaning` | opcodes.py:527-547 | `h` and `t` over any argument list: the two parts of one pair, with the arity and not-a-list errors in order. |
| `OpcodeMeaning.PartsUndoRc` | opcodes.py:461-547 | `h` and `t` of what `rc` makes give back its last argument and what `rc` makes of the others. |
| `OpcodeMeaning.ListMeaning` | opcodes.py:549-561 | `l` is 1 exactly of a pair, nil exactly of an atom, and an error of a function object. |
| `OpcodeMeaning.SelectMeaning` | opcodes.py:354-371 | `i` over any argument list selects by its first argument, with its defaults. |
| `OpcodeMeaning.RaiseMeaning` | opcodes.py:184-191 | `x` fails on any arguments, and refuses more than ten. |
| `OpcodeMeaning.BBuildsTree` | opcodes.py:478-525 | `b` delivers the tree of its arguments in the layout of the environment. |
| `OpcodeMeaning.LogicMeaning` | opcodes.py:563-613 | `notall`, `all` and `any` say whether some, no, or not every argument is nil, and are an error exactly when an argument is a function object. |
| `OpcodeMeaning.EqMeaning` | opcodes.py:752-791 | `=` holds exactly of atoms that are all the same, and is an error exactly when an argument is a function object. |
| `OpcodeMeaning.BigEqMeaning` | opcodes.py:793-851 | `===` over any argument list: an error exactly when an argument is a function object, or all before it are the same and comparing it with the first meets a function object before a difference; otherwise whether all are the same tree. |
| `OpcodeMeaning.BigEqOnValues` | opcodes.py:793-851 | Of bll values `===` holds exactly when all are equal. |
| `OpcodeMeaning.LessMeaning` | opcodes.py:319-352 | `<` holds exactly of atoms that rise strictly as numbers, over all pairs, and is an error exactly when an argument is a function object. |
| `OpcodeMeaning.TextLessMeaning` | opcodes.py:935-970 | `<s` holds exactly of atoms that rise strictly in the order of bytes, over all pairs: at their first difference the smaller byte, or the proper prefix, comes first. |
| `Evaluator.ResolveEnv` | bll.py:72-93 | The in-place walk charges every edge before looking at it and ends in the node, the invalid-reference error or a latched budget that the recursive walk names. |
| `Evaluator.WorkItem.EvalStep` | bll.py:123-175 | A program step changes continuations and budget as the transition function says, function objects in code refused. |
| `Evaluator.WorkItem.SoftforkFinish` | bll.py:280-353 | The one-by-one charges of a softfork end in the state of one lump: hard cost validity, lenient everything else, guard entered only for extension 0 of four values. |
| `Evaluator.WorkItem.GuardEnter` | bll.py:342-353 | Entering a guard opens the allowance, spends the guard's own charge from it and pushes the exit frame under the program. |
| `Evaluator.WorkItem.GuardExit` | bll.py:370-377 | Leaving a guard delivers nil exactly when the allowance was used up, and the mismatch error otherwise. |
| `Evaluator.WorkItem.CallStep` | bll.py:186-255 | A callable evaluates its next argument above a frame holding the rest, finishes on nil and refuses an improper list. |
| `Evaluator.WorkItem.BindFeedback` | workitem.py:121-148 | The first value fed to `partial` is an opcode number, a bound function or an error, with the finalising shortcut. |
| `Evaluator.WorkItem.RebindFeedback` | workitem.py:149-170 | Every further value fed to a binding is charged and makes a new element. |
| `Evaluator.WorkItem.TakeArgument` | workitem.py:82-92 | The feedback methods of all callables do to the work item what the receipt of an argument says; what receipts come to over whole argument lists is stated in `ProgramMeaning` and `PartialApplication`. |
| `Evaluator.WorkItem.Feedback` | bll.py:464-483 | An error discards every frame uncharged, a value pays one STEP to reach the frame below, and the last value is delivered free. |
| `Evaluator.WorkItem.Step` | bll.py:448-462 | One step of the mutable work item is one step of the transition system, breach handling included. |
| `Evaluator.Eval` | bll.py:510-527 | The driver loop terminates and returns the result, charged total and exhaustion flag of the whole run, for every program, environment and budget. |
| `Machine.StepSpends` | bll.py:448-462 | Every step ends the run or spends at least STEP of the money left anywhere, entering a guard included. |
| `Machine.EvaluationTerminates` | bll.py:510-516 | A run takes at most limit / STEP + 1 steps, whatever the program. |
| `ProgramMeaning.ReferenceMeaning` | bll.py:72-93 | An atom that reads as a positive number comes to the node at the path of its bits, at a stated price, or to the invalid-reference error. |
| `ProgramMeaning.EveryReference` | bll.py:72-93 | Every positive number is the number of a path. |
| `ProgramMeaning.AtomMeaning` | bll.py:123-175 | Any other atom is its own value. |
| `ProgramMeaning.QuoteMeaning` | bll.py:32-60 | A quote comes to its whole tail at two steps. |
| `ProgramMeaning.NoCode` | bll.py:123-175 | A program with a function object anywhere in it is refused. |
| `ProgramMeaning.HeadRefused` | bll.py:32-60 | A head that is no atom, negative, or beyond the range of operators is an invalid opcode. |
| `ProgramMeaning.ApplyMeaning` | bll.py:179-230 | `a` runs its first argument in its second, or where it stands, or runs nil, at the price of its arguments, two steps and the program. |
| `ProgramMeaning.ApplyTooMany` | bll.py:179-230 | A third argument to `a` is an error. |
| `ProgramMeaning.SoftforkMeaning` | bll.py:233-377 | A softfork over argument expressions in program order, for every budget: its price (arguments, scans, one lump), the cost error, nil, or the guard's error, and exhaustion below the price. |
| `ProgramMeaning.SoftforkComesTo` | bll.py:233-377 | Given enough money a softfork comes to nil exactly if its first value is a positive machine integer and the validator does not know the extension, the form is not the four-value form of extension 0, or program and environment spend what was declared; otherwise to which error. |
| `ProgramMeaning.SoftforkArgumentFails` | bll.py:233-353 | The first argument that fails fails the softfork. |
| `ProgramMeaning.ImproperArguments` | workitem.py:52-92 | An opcode whose argument list does not end in nil is fed its arguments and then refused. |
| `ProgramMeaning.PartialRefuses` | workitem.py:94-170 | `partial` of nothing, of a pair, or of a number that is no table opcode is an error. |
| `ProgramMeaning.UnknownComesTo` | bll.py:32-60 | A number that no operator has yet is called like an opcode, and comes to nil or, outside the flat class, to the atom error. |
| `ProgramMeaning.UnknownCharges` | opcodes.py:1432-1485 | What finishing an unknown operator charges in the flat, arithmetic and copying class, over all argument lists. |
| `ProgramMeaning.ReportsBll` | bll.py:493-508 | A reported value holds no function object. |
| `ProgramMeaning.FunctionsAreNoResults` | bll.py:493-508 | A program that comes to anything else is reported as failed, at its cost. |
| `BigStep.EvaluateRefines` | bll.py:448-483 | Over any frames and any budget, running a program on the machine continues as its recursive outcome says: value, error or a charge that did not fit, at a compositional cost. |
| `BigStep.GuardRefines` | bll.py:342-377 | A guarded program costs its context the lump alone, and the guard's verdict follows from the guarded program's own cost against the allowance. |
| `BigStep.MachineIsDirect` | bll.py:391-527 | The frame machine reports the value or error and the charged total of the direct recursive evaluator, for every program, environment and budget. |
| `Invariants.StepKeeps` | bll.py:355-377 | A step keeps guards and exit frames in step, only the top frame finished or evaluating, the outer budget frozen inside a guard, and no breach left behind. |
| `Invariants.EveryBoundary` | costs.py:227-304 | At every unlatched boundary of every run open allowances are the exit frames, and breach and exhaustion never stand together. |
| `Unreachability.UnreachableNeverReported` | bll.py:363-368 | No run of the opcode table reports the error of frames that are never popped, whatever the oracle answers. |
| `SoftForkSafety.RecognitionOnlyTightens` | bll.py:329-353 | If a validator that knows extension 0 ends in a value or in exhaustion, one that treats every softfork as opaque ends the same, with the same charge, nested guards included. |
| `Replay.ExactBudgetReplay` | costs.py:260-279 | A run that used C is the same run on every budget of at least C, and every smaller budget is exhausted and used up entirely. |
| `EnoughBudget.YieldsOnMachine` | bll.py:510-527 | A program that comes to a value on some budget has one least cost, and comes to that value at that cost on every budget above it. |
| `PartialApplication.PartialIsInvisible` | workitem.py:94-170 | Splitting an opcode's arguments over any chain of partial calls and finishing comes to exactly the value or the error of the direct call, also where an argument expression fails: the error met first. |
| `PartialApplication.BindingIsReusable` | workitem.py:121-170 | A bound function in the environment can be extended and finished at any place it is looked up, the arguments bound before and those of the extension together. |
| `PartialApplication.OneResult` | bll.py:510-527 | A program comes to one result at most, value or error, on all budgets it does not exhaust. |
| `Canonical.CodecBijection` | spend.py:83-197 | The canonical decoder returns an element exactly for its serialization, over all inputs and elements. |
| `Canonical.UniqueEncoding` | spend.py:83-97 | No element has two accepted encodings. |
| `Canonical.EncodingAccepted` | spend.py:83-197 | Decoding an encoding anywhere in an input costs its nodes and payload bytes and stops behind it. |
| `Canonical.EqualCharges` | element.py:400-481 | On canonical inputs the recursive decoder of `rd` and the canonical decoder agree on the element and on every unit charged. |
| `Canonical.ReadUndoesWrite` | opcodes.py:994-1028 | `rd` undoes `wr` for every encodable element. |
| `Encodings.ReadsExactly` | element.py:435-481 | `rd` yields an element exactly if its argument is one of the element's encodings, the longer length prefixes included. |
| `Encodings.CodecMeaning` | opcodes.py:994-1028 | `rd` and `wr` over any argument list, by number, errors in order. |
| `Canonical.EncodeOutput` | element.py:509-552 | The encoder refuses an encodable element exactly when its output would exceed the size cap, and otherwise charges its nodes and its output bytes. |
| `Canonical.WriteOutput` | opcodes.py:1009-1028 | `wr` succeeds exactly on encodable elements, with the serialization and the stated price. |
| `Canonical.DeserializeCanonical` | spend.py:83-197 | The iterative decoder with its explicit frames returns the verdict of the grammar, errors included, and charges its total. |
| `SerDesers.SerDeser.DeserializeTop` | element.py:400-430 | The cursor-based decoder returns what the input decodes to; bytes past the cursor are an error at twice the byte rate, after an element as after an error element. |
| `SerDesers.SerDeser.Deserialize` | element.py:435-481 | The recursive decoder moves the cursor behind what it read and latches the budget exactly when the total does not fit. |
| `SerDesers.SerDeser.Serialize` | element.py:497-552 | The encoder's emitted count, charges and size cap follow the output order. |
| `Heap.DerefAddToStack` | element.py:161-169 | Giving up handles keeps every count right and leaves on the stack the elements whose last reference that was. |
| `Heap.Allocator.DerefAll` | element.py:171-185 | Releasing handles keeps counts equal to references and the size account equal to the live sizes, frees nothing twice, and leaves live exactly what the other handles still reach. |
| `Heap.Allocator.StealChildren` | element.py:304-307 | A pair's handle becomes handles on its children, and the pair is freed exactly if nothing else reaches it. |
| `Heap.Allocator.StealFunc` | element.py:352-362 | A function object's handle becomes a handle on its state. |
| `Heap.Allocator.BumpRef` | element.py:187-190 | One more handle, counted. |
| `Heap.Allocator.NewPair` | element.py:230-238 | A new pair takes over the handles on its children and is counted once. |
| `Heap.Allocator.NewFunc` | element.py:342-350 | A new function object takes over the handle on its state, its one child. |
| `Heap.Allocator.NewStore` | element.py:220-228 | A new store element is live, counted once, and in the size account. |
| `Heap.Allocator.Free` | element.py:79-87 | Freeing takes the element and its size out of the account. |
| `Constructions.StepCovered` | costs.py:205-216 | In every step, those in which a charge fails included, each element constructed is preceded by at least half a STEP of charges, the carries of `b` and the nodes of `rd` included. |
| `Constructions.ConstructionsBounded` | costs.py:205-216 | An evaluation within a block's largest budget constructs at most 2 * used / STEP + 4 elements, the initial frame and the last step's included. |
| `Constructions.RdCovered` | opcodes.py:994-1006 | `rd` has paid for what it built, also where a charge fails halfway. |
| `Constructions.DecodeCovered` | spend.py:83-197 | So has the canonical decoder. |
| `Constructions.NodesReadExactly` | opcodes.py:994-1006 | With the money to finish, what `rd` is counted to build is exactly the nodes of what it delivers. |
| `Constructions.NodesDecodedExactly` | spend.py:83-197 | So for the canonical decoder. |
| `Constructions.CarriesBuild` | opcodes.py:478-501 | The pairs counted for an argument of `b` are exactly those its merges add to the trees. |
| `Constructions.GatherBuilds` | opcodes.py:503-525 | Finishing `b` adds one pair fewer than there are trees. |
| `BytesPaid.FeedPays` | opcodes.py:193-886 | A fold pays the allocation rate for every byte of the accumulator it builds. |
| `BytesPaid.FinishPays` | opcodes.py:193-933 | An atom that an opcode delivers was held already or is paid for by the byte. |
| `SpendConstructions.CapNeverReached` | spend.py:67-76 | Every spend, refused and exhausted decodings included, constructs at most 2 * used / STEP + 4 elements, fewer than the allocation cap. |
| `PaidCounters.StepKeepsPaid` | opcodes.py:478-501 | Every binary counter within reach of a run, bound functions and nested values included, has had B_ARG spent on each of its arguments. |
| `SpendValidation.VerifySpend` | spend.py:258-355 | The whole spend check returns the verdict and charge of its specification: input index, spent outputs, witness and its shape, commitment, both decodings on one budget, evaluation and the nil result. |
| `SpendAcceptance.AcceptedExactly` | spend.py:258-355 | A spend is accepted at a charge if and only if index, spent outputs and witness are in range, the witness is environment, leaf script and control block with an annex or none, the commitment holds, both items are canonical encodings, the program comes to a value other than nil, and the charge is the price of decoding and evaluating, which the witness pays for. |
| `SpendAcceptance.GroundedVerdict` | spend.py:258-355 | The verdict and charge on every spend that is in order up to its evaluation: out of budget, the evaluation's error, the nil result, or acceptance. |
| `SpendValidation.SoftFork` | spend.py:258-355 | A spend accepted by a validator that knows the extension is accepted at the same charge by one that does not. |
| `SpendValidation.SpendReplays` | spend.py:280-355 | What a spend was charged is the least budget on which it has its verdict, decoding included. |
| `Layout.CarryIsInsert` | symbll.py:139-147 | The merge of equal-sized groups of names and the carry of `b` are the same walk over the bits of the count. |
| `Layout.LayoutAgrees` | symbll.py:109-155 | Walking the `b`-tree of values at the position of a name yields its value, for any number of names. |
| `Layout.IndexedNames` | symbll.py:109-155 | The index knows exactly the names it was given. |
| `Layout.WalkPlace` | symbll.py:120-130 | Walking to a placed position is walking the offset and then the position. |
| `SymbolIndexes.Add` | symbll.py:138-147 | The list loop of `add` inserts one name into the binary grouping. |
| `SymbolIndexes.Finish` | symbll.py:149-155 | The list loop of `finish` joins the groups newest innermost. |
| `SymbolIndexes.SymbolIndex.constructor` | symbll.py:109-137 | The dictionary built in place answers every name as the compiler's index does, and the index lists the names in the order they were given in, the order in which the globals are compiled. |
| `SymbolicEvaluator.WorkItem.NestedSteps` | symbll.py:447-459 | The loop over nested bll steps takes each step off the allowance, looks at the allocator after each, and stops where the specification does. |
| `SymbolicEvaluator.WorkItem.RunNested` | symbll.py:421-475 | A nested bll run on the shared budget aborts on the allowance or on memory, fails or delivers as specified, abandoned guards cleared. |
| `SymbolicEvaluator.WorkItem.TakeValue` | symbll.py:264-297 | The feedback methods of `if`, user functions, apply and opcodes; an improper tail in the place of a branch of `if` raises the exception of an unassigned variable. |
| `SymbolicEvaluator.WorkItem.Step` | symbll.py:553-571 | One step of the mutable symbolic work item is one transition, the three checks after it included. |
| `SymbolicEvaluator.SymbolicEval` | symbll.py:605-611 | Wherever the run ends, the driver loop ends and returns the result of the transition system, or the exception. |
| `SymbllDirect.SymbolicIsDirect` | symbll.py:151-611 | With the allocator below its limit, the symbolic machine reports for every expression the value, error or exception of a direct recursive evaluator, at its count of steps and its charge. |
| `SymbllDirect.DriveExactly` | symbll.py:447-459 | When a nested run is aborted for memory, when for steps, and what is left of the allowance otherwise. |
| `CompilerLimits.SymbolicEvalEndsExactly` | symbll.py:553-611 | For every expression and every course of the allocator: the run comes to its result, an exception or a last error, and then ends if and only if the allocator is below its limit at some later check. |
| `CompilerLimits.SymbolicEvalTerminates` | symbll.py:553-611 | With the allocator below its limit, symbolic evaluation of any expression is over within its step allowance and two more steps. |
| `CompilerLimits.RoomEndsExactly` | symbll.py:553-611 | Beside a fixed amount of live memory, an evaluation that does not stop by itself or at the check after its last error ends if and only if that amount leaves room for one error. |
| `CompilerLimits.RoomEnds` | symbll.py:553-611 | Symbolic evaluation ends if what the process keeps besides leaves room for one error below the limit. |
| `CompilerLimits.LargeGlobalHangs` | symbll.py:553-611 | Beside a definition that holds an atom of 400,000 bytes, which stays referenced, symbolic evaluation ends for no expression. |
| `CompilerCorrectness.SimEval` | symbll.py:633-713 | If a subexpression leads a symbolic run to a value, its compiled code yields the value the subexpression hands over. |
| `CompilerCorrectness.SimIf` | symbll.py:248-297 | The compiled lazy `if` yields what the selected branch does, its default branches included. |
| `CompilerCorrectness.SimUserCall` | symbll.py:341-401 | A compiled call yields what the symbolic call of the user function does. |
| `CompilerCorrectness.CompilerCorrect` | symbll.py:732-749 | If a call of a global with distinct, non-builtin parameter names evaluates symbolically to a value, whatever the allocator does, the compiled program run on the `b`-tree of the arguments comes to that value on every budget that is large enough. |
| `CompilerCorrectness.CompilesDirect` | symbll.py:732-749 | Whatever value the direct evaluator gives a call of a global, the compiled program comes to it on every large enough budget. |
| `Compilable.CompilesExactly` | symbll.py:622-749 | A program compiles if and only if its function is defined and every definition keeps to the forms of the language over the globals and its own parameters. |
| `ParameterLists.DuplicateParametersDiverge` | symbll.py:715-749 | With a name given twice, `(F X X)` on 1 and 2 evaluates to 2 symbolically and comes to a pair when compiled. |
| `ParameterLists.ParametersExactly` | symbll.py:715-749 | With the allocator below its limit, a list of non-builtin parameter names is compiled rightly for all bodies and arguments if and only if no name stands in it twice, or it is too long for the symbolic evaluator's step allowance to collect its arguments. |
| `ParameterLists.RepeatedUnfaithful` | symbll.py:715-749 | With the allocator below its limit, for every list with a repeated name that the step allowance can collect there is a body whose call evaluates symbolically to nil and comes to a pair when compiled. |
| `ParameterLists.CollectsOnly` | symbll.py:553-611 | A call that evaluates to a value has three steps of allowance for each parameter. |
| `Coverage.SomePair` | symbll.py:109-155 | An index of fewer names than the tree has values leads some name to a pair of values. |
| `CompiledCode.CallCodeYields` | symbll.py:700-713 | The code of a call runs the function's code over the globals and a fresh environment of its arguments. |
| `CompiledCode.ExprIsBll` | symbll.py:633-713 | Compiled code contains no function object. |
| `BllClosure.FinishBll` | opcodes.py:81-182 | Opcodes fed bll values deliver bll values. |
| `Hasher.Digester.Update` | ripemd160.py:19-24 | The streaming update absorbs exactly the given bytes, in whole blocks and a remainder. |
| `Hasher.Digester.Copy` | ripemd160.py:14-17 | A copy stands where the original stands and lives its own life. |
| `Hasher.Digester.Digest` | ripemd160.py:26-36 | The digest is that of the whole message padded once, whatever the sizes of the updates. |
| `Hasher.PaddedMessage` | ripemd160.py:26-32 | A padded message is whole blocks of the message, a marker byte, zeros, and its length in bits in the last eight bytes. |
| `Hasher.DigestWords` | ripemd160.py:33-36 | A digest is the five words, low byte first, cut to 32 bits. |
| `Hasher.ChunksDoNotMatter` | ripemd160.py:19-36 | Any cut of a message into updates gives the digest of the message. |
| `HashOpcodes.UpdateState` | opcodes.py:411-422 | Feeding a hash opcode copies the midstate and updates the copy, at the charges and with the errors of the fold; the binding's own midstate is untouched. |
| `HashOpcodes.FinalState` | opcodes.py:424-459 | Finishing each of the four hash opcodes delivers its digest of everything absorbed, the double hashes the digest of the library's digest. |
| `HashOpcodes.ExtendTwice` | opcodes.py:401-434 | Two extensions of one binding digest what was bound and their own bytes, neither seeing the other's. |
| `AtomText.SimpleNumIsMinimal` | element.py:268-273 | Decimal is chosen exactly for the minimal encodings of at most four bytes. |
| `AtomText.DecimalRoundTrip` | element.py:275-281 | Decimal text reads back as the integer. |
| `AtomText.HexRoundTrip` | element.py:275-281 | Hexadecimal text reads back as the bytes. |
| `AtomText.DigitsRead` | element.py:749-808 | Digits are a printed number behind zeros, and read as that number. |
| `Parser.ParseText` | element.py:774-845 | The parse loop with its explicit stack of open lists computes the parser's specification, errors included; what that specification reads is `Grammar.ParsesExactly`. |
| `Grammar.ParsesExactly` | element.py:747-845 | The parser accepts a text as an expression if and only if the text is a well-formed spelling that means it: any whitespace, lists closed or dotted, ticks, quoted and spelled atoms, symbols by name. |
| `Grammar.MembersScanned` | element.py:774-845 | The rest of a written list, dotted or not, completes the innermost open list. |
| `Grammar.ParseUndoesWriting` | element.py:747-845 | Parsing a written symbolic expression gives it back, for all names that can be read. |
| `Grammar.ParseUndoesShow` | element.py:309-322 | Parsing the printed form of any bll value gives that value. |
| `Grammar.HexWord` | element.py:803-816 | A hexadecimal word reads as the bytes whose printed form it is, in either case, and as nothing for an odd number of digits. |
| `Grammar.DecimalWord` | element.py:803-816 | A decimal word reads as the integer it prints, leading zeros or not. |
| `Grammar.QuotedWord` | element.py:803-825 | Quoted text reads as the encoding of what stands between the marks. |
| `Taproot.PathReachesRoot` | verystable/core/script.py:838-876 | Beside no void list, the sorted-pair walk along a leaf's branch ends in the builder's root, for all hashes. |
| `Taproot.AcceptedExactlyBesideNoVoid` | verystable/core/script.py:838-914 | For every well-placed tree of depth at most 128, a bll leaf's control block is accepted under all hashes and tweaks if and only if no empty list stands beside its path. |
| `Taproot.EmptyListBreaks` | verystable/core/script.py:838-876 | A leaf beside an empty list is refused under some hash. |
| `Taproot.BuildsExactly` | verystable/core/script.py:838-876 | The builder succeeds exactly on even leaf versions with partner functions only as second of two. |
| `Taproot.Verify` | spend.py:209-236 | The commitment check with its loop over siblings gives the verdict, the reasons for refusal in order. |
| `Taproot.CommitmentAccepted` | spend.py:209-236 | A commitment is accepted exactly when the control block is version byte with parity, internal key and a path of at most 128 siblings along which the leaf climbs to what the output key is the tweak of. |

## Left out

- Opcodes `~`, `&`, `|`, `^`, `secp256k1_muladd`, `bip340_verify`, `ecdsa_verify`, `tx` and `bip342_txmsg`: the oracle answers for them, their charges included, because curve arithmetic, transaction lookups and bytewise logic would add data plumbing only.
- Hash functions, key tweaking, `ser_string`, `utf8` encoding and the RIPEMD-160 compression function: uninterpreted; the digest argument of the oracle and `Hasher` meet at `OpcodeMeaning.HashIsDigest` and `Hasher.Digester.Digest`.
- Opcode states: the source encodes accumulators as elements (conses and marker atoms), the model gives each shape of accumulator a constructor of its own; the codings cannot be observed by programs.
- The size cap of opcodes, which is overridable and unset in the base table; the cap of the encoder is modelled.
- The allocation-breach latch during evaluation: nothing in the machine sets it, because constructions are counted apart; `SpendConstructions.CapNeverReached` shows that no spend reaches the count that would set it.
- Reference counts inside the evaluator: the heap theorem is about the heap operations, not about whether each evaluator path releases what it holds (the apply step on an improper list does not).
- Interned nil and one, the allocator's unenforced monitoring fields and `realloc`: the constructions bound counts interned results as constructions.
- Function objects as symbolic values, `partial`, `report`, symbol-table values and definitions of plain symbols in symbll: `Symbll` answers `OutsideModel` or has no such definition, and the compiler theorem is about first-order programs. A parameter called like a builtin is one such value: by the text of symbll.py:157-178, with the parameter `if` and the body `(if if (q . 1) (q . 2))`, a call on nil takes the first branch symbolically and the second when compiled.
- The allocator's account while the symbolic evaluator runs: an arbitrary function says whether it is over the limit at each check (`Symbll.Memory`).
- CompilerCorrect: speaks of programs that compile, which `Compilable.CompilesExactly` describes; where `compile_expr` raises an exception the model's compiler returns no code.
- BytesPaid.FeedPays: says nothing of `strlen`, whose charge is flat.
- Error message texts: a small enumeration stands for them, and the verdict of a spend names the phase.
- Transaction fields that opcodes look up: inside the oracle; the serialized size of a witness, which buys the budget, is a field of the model's witness.
- Parse modes `many` and `manypy`, non-ASCII digits and spaces in the parser's patterns.
- `ToBLL`, the named-opcode notation, and `Tree` of opcodes.py, which are not used by the evaluators.
- The interactive shell, the debugger, example programs and everything else under `verystable`.
