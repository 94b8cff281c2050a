# A verified model of the packet-filter compiler

The packet-filter compiler turns filter expressions such as `ether[12:2] = 0x800 and len > 60` into small
programs for an accumulator machine. It builds a graph of basic blocks, optimises the graph, lays it out in
an array with 8-bit branch offsets, and interprets the array on every packet. This project models these
stages in Dafny and proves that each keeps the meaning of the expression. A second, smaller part proves the
unrolled Internet checksum code equal to its definition.

`dafny verify dfyconfig.toml` checks the whole project.

## How the model is built

- `Words`, `Ir`, `Opcodes`: 32-bit words with wrap-around, statements and branches of the intermediate code,
  their meaning on a machine state of eighteen atoms (A, X and sixteen scratch words), and the numeric opcodes.
- `Machine`: the interpreter and the validator.
- `Flowgraph`: `struct block` as a class with the fields the C code updates in place. A snapshot of a set of
  blocks is a map from blocks to nodes, and a graph runs by recursion on a rank that shows it acyclic.
  Methods change the heap; their contracts say which snapshot they leave.
- `Backpatch`, `Arith`, `Tests`: code generation. `Layout`, `Flatten`: the flattener. `Compile`: end to end.
- `Levels`, `Dominators`, `Liveness`, `Threading`, `Pullup`, `Interning`, `Deadstores`, `Values`, `Numbering`,
  `Peep`, `BlockPass`, `Optimise`: the passes of the optimiser.
- `Checksum`: the checksum functions of Snort.

A statement has three ways to end: it goes on, it rejects the packet (a load out of range, a division by
X = 0), or it has no meaning in C (a division by a constant zero, a scratch index out of range, a load whose
range test wraps). Optimiser passes may delete or move statements that reject, so their theorems speak of
packets on which nothing on the way fails. The packet, its length and the initial scratch memory are
parameters. Ethernet is the link type, with constant header offsets.

## What the code does not do

- A word or half-word load at one of the last offsets below 2^32 passes the length test, because offset plus
  size wraps, and reads before the packet. `Compile.UndefinedIff` says exactly when this happens,
  `Compile.WrappingIsUndefined` gives an expression that always does it.
- The validator's test for division by a constant zero never fires, because the bits it compares overlap the
  divide operation (`Machine.ValidatorIgnoresDivisor`).
- The validator looks at nothing of a code but its class and its mode or operation, so it accepts codes for which the
  interpreter has no case. `Machine.AcceptedCodes` says which.
- `vstore` takes two unknown numbers for equal. `Values.CopyExactly` says exactly when the copy it leaves is right,
  `Values.UnknownsTakenEqual` gives an input on which it is not.
- `opt_stmt` has no case for loading the packet length into X: `Values.LengthExactly` says exactly when the table is
  right afterwards, `Values.LengthLeavesStale` gives an input on which it is not. The code generator never emits this
  load, so only hand-written code can have it.
- `opt_peep` makes `jset #0xffffffff` unconditional although A = 0 fails it (`Peep.AllOnesGoesWrong`). Its fusion
  does not look whether X is read later in the block (`Peep.FusionLosesIndex`); the fused statements leave the same
  state if and only if the constant is zero (`Peep.FusionExactly`, `Peep.HeaderFusionExactly`). It also overlooks a
  single statement behind deleted ones when it folds the last statement into the branch.
- `opt_peep` moves a final subtraction into the branch, but the block keeps the number of the difference, and `opt_j`
  compares by that number in the same sweep. `Optimise.FoldAfterPeep` says exactly when `fold_edge` is then right about
  another block that still tests the difference.
- `gen_ncmp` ignores its reverse flag for tests other than the two greater-than ones.
- A pulled-up test can reject a packet that was accepted (`Pullup.PulledTestFails`). `Pullup.PullupExactly` and
  `Pullup.PullupPreserves` say on exactly which packets the result stays.

## Model

| member | source | states |
|---|---|---|
| `Compile.CompileFilter` | `data/daq-2.0.7/sfbpf/sf_gencode.c:499-685` | A program is produced exactly when enough of the sixteen scratch registers are free for the expression. From any scratch memory and on any packet, interpreting it from index 0 returns snaplen if the left-to-right short-circuit value of the and/or/not tree is true, 0 if it is false or an evaluated test cannot load its operands, and is undefined exactly if an evaluated load is; the validator accepts it, every opcode is one the interpreter handles, and no jump offset wraps |
| `Compile.FlattenedDecides` | `data/daq-2.0.7/sfbpf/sf_optimize.c:2138-2348` | If a flow graph returns what the expression says, so does its layout, and the layout passes the validator |
| `Compile.FinishedDecides` | `data/daq-2.0.7/sfbpf/sf_gencode.c:499-536` | The finished graph of a fragment that decides an expression returns what the expression says; every block of it is self-contained and loads no packet length into X, so that jump threading and pull-ups apply to it |
| `Compile.UndefinedIff` | `data/daq-2.0.7/sfbpf/sf_bpf_filter.c:250-278` | The value of an expression on a packet is undefined if and only if evaluating it makes a load for which offset plus size wraps around 32 bits and the wrapped sum passes the length test |
| `Compile.LowOffsetsDefined` | `data/daq-2.0.7/sfbpf/sf_bpf_filter.c:320-341` | On every packet on which all evaluated offsets are below 2^31 the answer is defined: snaplen or 0 |
| `Compile.WrappingIsUndefined` | `data/daq-2.0.7/sfbpf/sf_bpf_filter.c:320-341` | The input on which the length test fails to reject: ether[0 - 4 : 4] >= 0 is undefined on every packet |
| `Backpatch.Backpatch` | `data/daq-2.0.7/sfbpf/sf_gencode.c:461-480` | Following the chain of unresolved exits through the JT/JF fields under the sense bits, exactly the fields of the chain are set to the target; nothing else changes |
| `Backpatch.Merge` | `data/daq-2.0.7/sfbpf/sf_gencode.c:486-497` | Exactly the last link of one chain is made to point to the other chain |
| `Backpatch.GenAnd` | `data/daq-2.0.7/sfbpf/sf_gencode.c:539-548` | For disjoint operands, memory afterwards holds the joined fragment: the true exits of the first lead to the second's head, the chain of the result under its sense is exactly its true exits, and under the flipped sense exactly its false exits |
| `Backpatch.GenOr` | `data/daq-2.0.7/sfbpf/sf_gencode.c:550-558` | The same for or: the false exits of the first lead to the second, and the true chains are merged |
| `Backpatch.GenNot` | `data/daq-2.0.7/sfbpf/sf_gencode.c:560-564` | Flipping the sense bit exchanges the true and the false exits of the fragment in memory |
| `Backpatch.FollowJoined` | `data/daq-2.0.7/sfbpf/sf_gencode.c:539-558` | Control leaves a joined fragment as the short-circuit combination of its parts, in the same machine state, from every block of the first part |
| `Backpatch.FollowNegated` | `data/daq-2.0.7/sfbpf/sf_gencode.c:560-564` | Control leaves a negated fragment by the other exit, in the same machine state |
| `Backpatch.FinishParse` | `data/daq-2.0.7/sfbpf/sf_gencode.c:499-536` | All true exits lead to a block returning snaplen and all false exits to one returning 0; the blocks in memory are then exactly the finished fragment |
| `Backpatch.FinishedDag` | `data/daq-2.0.7/sfbpf/sf_gencode.c:499-536` | The finished graph is acyclic, every leaf returns, and no other block has a null successor |
| `Backpatch.RunFinished` | `data/daq-2.0.7/sfbpf/sf_gencode.c:499-536` | Running the finished graph returns snaplen, 0, or stops, as control leaves the fragment by its true exit, its false exit, or not at all |
| `Tests.GenNcmp` | `data/daq-2.0.7/sfbpf/sf_gencode.c:661-685` | The block decides the comparison of the masked big-endian field from every machine state; the reverse flag negates only the two greater-than tests |
| `Tests.GenBcmp` | `data/daq-2.0.7/sfbpf/sf_gencode.c:615-653` | The conjunction of four-, two- and one-byte comparisons, made from the end of the field, decides whether the bytes of the field equal the given ones, and rejects exactly when the field runs off the packet |
| `Tests.BytesAtSplit` | `data/daq-2.0.7/sfbpf/sf_gencode.c:615-653` | Comparing a field's end and then its front is comparing the whole field, also when it runs off the packet |
| `Tests.MaskedLoadDecides` | `data/daq-2.0.7/sfbpf/sf_gencode.c:661-685` | Load, optional mask and branch come out as the masked field compares, from every machine state and on every packet |
| `Tests.GenRelation` | `data/daq-2.0.7/sfbpf/sf_gencode.c:6781-6828` | The block decides the relation of two arithmetic expressions, also when reversed; both registers are free again; it fails exactly when the two need more registers than are free |
| `Tests.Generate` | `data/daq-2.0.7/sfbpf/sf_gencode.c:539-564` | For every expression tree the generated graph decides its value, and every block defines all that it and its branch use; it fails exactly when some relation needs more registers than are free |
| `Arithmetic.Registers.Alloc` | `data/daq-2.0.7/sfbpf/sf_gencode.c:6927-6944` | A register is found if and only if fewer than sixteen are in use; it is the first free one from the current one on, round robin, and the only one newly marked |
| `Arithmetic.Registers.Free` | `data/daq-2.0.7/sfbpf/sf_gencode.c:6950-6954` | Exactly the given register becomes free |
| `Arithmetic.GenLoadI` | `data/daq-2.0.7/sfbpf/sf_gencode.c:6845-6864` | The code leaves the constant in the newly taken register, and overwrites no register in use |
| `Arithmetic.GenLoadLen` | `data/daq-2.0.7/sfbpf/sf_gencode.c:6830-6843` | The code leaves the packet length in the newly taken register, and overwrites no register in use |
| `Arithmetic.GenLoad` | `data/daq-2.0.7/sfbpf/sf_gencode.c:6539-6640` | The code leaves the bytes at the computed offset in a register taken before the index's is freed; it stops as the load does when that is out of range |
| `Arithmetic.GenNeg` | `data/daq-2.0.7/sfbpf/sf_gencode.c:6866-6881` | The code leaves the 32-bit negation in the operand's register |
| `Arithmetic.GenArth` | `data/daq-2.0.7/sfbpf/sf_gencode.c:6883-6906` | The code leaves the 32-bit result of the operator in the result's register, stops where an operand does or where the divisor is zero, and overwrites no register in use before; a register is always free for the result |
| `Arithmetic.GenExpr` | `data/daq-2.0.7/sfbpf/sf_gencode.c:6539-6954` | For every expression tree the code leaves its value in the result's register from every machine state, stops exactly as its evaluation does, and keeps all registers in use before; it fails if and only if the registers in use plus those the tree takes at once exceed sixteen |
| `Words.AndBits` | `data/daq-2.0.7/sfbpf/sf_bpf_filter.c:507-509` | Bit i of the and of two numbers is one if and only if it is one in both, for every i |
| `Words.OrBits` | `data/daq-2.0.7/sfbpf/sf_bpf_filter.c:511-513` | Bit i of the or of two numbers is one if and only if it is one in one of them |
| `Words.SameBits` | `data/daq-2.0.7/sfbpf/sf_bpf_filter.c:507-513` | Numbers with the same bits are equal, so these laws determine and and or |
| `Ir.ComputeBits` | `data/daq-2.0.7/sfbpf/sf_bpf_filter.c:475-521` | The same for the operators of the machine; a left shift moves every bit up and loses those above the word, a right shift moves them down |
| `Ir.CountingOn` | `data/daq-2.0.7/sfbpf/sf_bpf_filter.c:457-463` | Addition counts on from a, with zero after the largest word |
| `Ir.SubtractionUndoes` | `data/daq-2.0.7/sfbpf/sf_bpf_filter.c:457-463` | Subtraction undoes addition, and addition subtraction, for all words |
| `Ir.RepeatedAddition` | `data/daq-2.0.7/sfbpf/sf_bpf_filter.c:465-467` | Multiplication is repeated addition |
| `Ir.HowOften` | `data/daq-2.0.7/sfbpf/sf_bpf_filter.c:469-473` | A quotient by a divisor that is not zero is how often the divisor fits |
| `Ir.JsetTests` | `data/daq-2.0.7/sfbpf/sf_bpf_filter.c:437-457` | The jset test succeeds if and only if some bit is one in both words |
| `Ir.HeaderLength` | `data/daq-2.0.7/sfbpf/sf_bpf_filter.c:379-395` | ldx 4*([k]&0xf) loads the low four bits of the octet, two places up |
| `Ir.LoadHalf` | `data/daq-2.0.7/sfbpf/sf_bpf_filter.c:114-125` | A half word loaded in range is 256 times the octet at the offset plus the next |
| `Ir.LoadWord` | `data/daq-2.0.7/sfbpf/sf_bpf_filter.c:114-125` | A word loaded in range has the four octets from the offset on, the first the most significant |
| `Ir.BigEndianOrder` | `data/daq-2.0.7/sfbpf/sf_bpf_filter.c:114-125` | Of two fields of the same length the smaller number is the one that is first octet by octet |
| `Machine.BpfFilter` | `data/daq-2.0.7/sfbpf/sf_bpf_filter.c:214-535` | The interpreter's loop over pc, A, X and mem returns the value of the execution it is specified by; what its loads and its bitwise operations compute is said octet by octet and bit by bit in the rows before |
| `Machine.BpfValidate` | `data/daq-2.0.7/sfbpf/sf_bpf_filter.c:549-693` | Returns true exactly on the accepted programs |
| `Machine.HandledAccepted` | `data/daq-2.0.7/sfbpf/sf_bpf_filter.c:549-693` | An instruction the interpreter has a case for is accepted if and only if its scratch index is in range and its jumps stay in the program |
| `Machine.AcceptedCodes` | `data/daq-2.0.7/sfbpf/sf_bpf_filter.c:549-693` | The codes that can be accepted are exactly those that agree with a handled code in the class and in the mode or operation field; nothing else of a code is looked at, so codes the interpreter has no case for are among them |
| `Machine.AcceptedRuns` | `data/daq-2.0.7/sfbpf/sf_bpf_filter.c:549-693` | An accepted program that uses handled opcodes and non-wrapping JA offsets keeps its program counter in range and rising on every packet, stops within its length, and returns a value if and only if the instruction it stops at neither divides by a constant zero nor loads at an offset whose length test wraps |
| `Machine.AcceptedReturns` | `data/daq-2.0.7/sfbpf/sf_bpf_filter.c:549-693` | Without a constant division by zero, it returns a value if and only if it does not stop at such a load |
| `Machine.ValidatorIgnoresDivisor` | `data/daq-2.0.7/sfbpf/sf_bpf_filter.c:625-629` | Changing the constant of a division never changes what the validator says of it |
| `Machine.ValidatorMissesDivisionByZero` | `data/daq-2.0.7/sfbpf/sf_bpf_filter.c:625-629` | A program that divides by the constant zero is accepted and has no defined result |
| `Opcodes.DecodeOpCode` | `data/daq-2.0.7/sfbpf/sfbpf.h:115-175` | Every statement opcode decodes to the operation it was built for |
| `Opcodes.DecodeTestCode` | `data/daq-2.0.7/sfbpf/sfbpf.h:115-175` | Every conditional jump decodes to its test and operand |
| `Layout.Simulates` | `data/daq-2.0.7/sfbpf/sf_optimize.c:2138-2300` | Executing the array from the offset of any block returns what executing the flow graph from that block returns, with short branches, one or two inserted long jumps, and deleted statements skipped |
| `Layout.OffsetGrows` | `data/daq-2.0.7/sfbpf/sf_optimize.c:2138-2300` | Reserving more long jumps never brings a block nearer to the end of the array |
| `Layout.JustifiedGrows` | `data/daq-2.0.7/sfbpf/sf_optimize.c:2138-2300` | When a branch found to be far gets its long jump, every long jump reserved so far is still needed |
| `Layout.NoUnfilledSlot` | `data/daq-2.0.7/sfbpf/sf_optimize.c:2138-2300` | With every reserved long jump needed, a block's slots are exactly its statements, its branch and its long jumps |
| `Layout.SameTotal` | `data/daq-2.0.7/sfbpf/sf_optimize.c:2020-2030` | The space a set of blocks takes does not depend on the order they are counted or laid out in |
| `Layout.LayoutAccepted` | `data/daq-2.0.7/sfbpf/sf_bpf_filter.c:549-693` | Every array flattened from a well-formed graph passes the validator, uses only handled opcodes, and has no wrapping jump |
| `Flatten.Slength` | `data/daq-2.0.7/sfbpf/sf_optimize.c:1957-1966` | Counts exactly the statements that are not deleted |
| `Flatten.Flattener.CountStmts` | `data/daq-2.0.7/sfbpf/sf_optimize.c:2020-2030` | Returns the space of the blocks reached from the root and not marked, and marks exactly those |
| `Flatten.Flattener.EmitBranch` | `data/daq-2.0.7/sfbpf/sf_optimize.c:2230-2298` | Writes the branch with its offsets or long jumps, or fails and sets the flag of exactly one far side that had none |
| `Flatten.Flattener.ConvertCodeR` | `data/daq-2.0.7/sfbpf/sf_optimize.c:2138-2300` | A successful pass lays the blocks below p out in depth-first order from the end and changes no flag; a failing one sets exactly one more flag, on a branch that is far |
| `Flatten.Flattener.IcodeToFcode` | `data/daq-2.0.7/sfbpf/sf_optimize.c:2321-2351` | Ends within 2*blocks + 1 passes; the array is then exactly filled and equals the assembled layout of the depth-first order, every reserved long jump is needed, and all block offsets agree with it |
| `Levels.FindLevels` | `data/daq-2.0.7/sfbpf/sf_optimize.c:263-269` | The lists hold every reachable block exactly once, at its height above the leaves, and each block's level is its height |
| `Levels.HeightBound` | `data/daq-2.0.7/sfbpf/sf_optimize.c:255-262` | Every level is below the number of reachable blocks |
| `Levels.NextDown` | `data/daq-2.0.7/sfbpf/sf_optimize.c:275-305` | A sweep from the top level down meets a block after all its predecessors and before its successors |
| `Dominators.DominatesIffOnEveryWay` | `data/daq-2.0.7/sfbpf/sf_optimize.c:275-344` | Whatever solves the dominance equations is dominance: d dominates x if and only if d lies on every way from the root to x |
| `Dominators.SweepStep` | `data/daq-2.0.7/sfbpf/sf_optimize.c:275-316` | Meeting one more item after its predecessors keeps the equations true of what has been met |
| `Dominators.FindDom` | `data/daq-2.0.7/sfbpf/sf_optimize.c:275-305` | After the single sweep, the dominator set of every reachable block is exactly the set of blocks on every way from the root to it |
| `Dominators.FindEdom` | `data/daq-2.0.7/sfbpf/sf_optimize.c:322-344` | After the single sweep, the dominator set of every edge of a reachable block is exactly the set of edges on every way from the root that ends by taking it |
| `Liveness.ComputeLocalUd` | `data/daq-2.0.7/sfbpf/sf_optimize.c:465-530` | def, in_use and kill are what the block defines, uses before defining, and defines before using |
| `Liveness.FindUd` | `data/daq-2.0.7/sfbpf/sf_optimize.c:535-561` | After the single bottom-up sweep, in_use and out_use of every reachable block satisfy the liveness equations of the graph |
| `Liveness.LivenessSound` | `data/daq-2.0.7/sfbpf/sf_optimize.c:535-561` | Two machine states that agree on the atoms live on entry to a block give the same filter result from it, on every packet |
| `Liveness.LocalSets` | `data/daq-2.0.7/sfbpf/sf_optimize.c:465-530` | An atom is in the use set of a list if and only if a statement reads it before any defines it, in the def set if and only if a statement defines it, and in the kill set if and only if it is in def and not in use |
| `Liveness.LiveInExactly` | `data/daq-2.0.7/sfbpf/sf_optimize.c:535-561` | An atom is live on entry to a block if and only if on some way through the graph from it the atom is read before any block of the way defines it |
| `Liveness.SelfContainedDecides` | `data/daq-2.0.7/sfbpf/sf_optimize.c:465-530` | A block without upward-exposed uses runs, fails and branches alike from every machine state |
| `Values.ValueTable.F` | `data/daq-2.0.7/sfbpf/sf_optimize.c:604-634` | Hash consing: a triple already in the table gets its number, a new one the next; different entries stay different |
| `Values.ValueTable.FoldOp` | `data/daq-2.0.7/sfbpf/sf_optimize.c:648-703` | The folded constant, computed by the switch over the operators on 32-bit words, is what the interpreter computes, and folding fails exactly on division by zero |
| `Values.ValueTable.OptStmt` | `data/daq-2.0.7/sfbpf/sf_optimize.c:994-1191` | Which statement results and which number is stored, for every statement: arithmetic on constants becomes its result, and the other simplifications of the switch are made exactly where the operands are known constants; it fails if and only if statements are rewritten and a constant is divided by the constant zero. If what the statement reads has numbers, the rewritten statement does what the old one did and the number stored is right |
| `Values.FoldsConstants` | `data/daq-2.0.7/sfbpf/sf_optimize.c:994-1191` | Arithmetic whose operands have constant numbers, unless it is refused, becomes the load of its result, or is deleted where the result is the old accumulator |
| `Values.StoredAgain` | `data/daq-2.0.7/sfbpf/sf_optimize.c:636-646` | Where vstore is used with rewriting on, the statement is deleted if and only if the number it stores is already there |
| `Values.StepAtUnique` | `data/daq-2.0.7/sfbpf/sf_optimize.c:994-1191` | In a table without repetitions these facts determine the statement and the number |
| `Values.StepMatches` | `data/daq-2.0.7/sfbpf/sf_optimize.c:636-646` | vstore, also where it deletes a statement, keeps the table right about every atom it knows |
| `Values.CopyExactly` | `data/daq-2.0.7/sfbpf/sf_optimize.c:636-646` | For every copy between registers and scratch words, in every state in which the known numbers of its source and target are right, what vstore leaves does what the copy did if and only if the two numbers are not both unknown, or the two words are equal |
| `Values.NuExtends` | `data/daq-2.0.7/sfbpf/sf_optimize.c:604-634` | New entries do not change what the old numbers stand for |
| `Values.UnknownsTakenEqual` | `data/daq-2.0.7/sfbpf/sf_optimize.c:636-646` | The input on which it fails: with two unknown numbers vstore deletes a transfer that changes A |
| `Values.LengthExactly` | `data/daq-2.0.7/sfbpf/sf_optimize.c:994-1191` | After LDX|LEN the table is right about X if and only if its number for X is unknown or stands for the packet length |
| `Values.LengthLeavesStale` | `data/daq-2.0.7/sfbpf/sf_optimize.c:994-1191` | The input on which it is wrong: X had the number of a constant, which the table keeps |
| `Numbering.FindInedges` | `data/daq-2.0.7/sfbpf/sf_optimize.c:1728-1749` | The in-edge lists hold exactly the edges from reachable blocks, each once |
| `Numbering.MergeValues` | `data/daq-2.0.7/sfbpf/sf_optimize.c:1264-1296` | The entry table keeps an atom's number exactly where all predecessors have that number |
| `Numbering.NumberStmts` | `data/daq-2.0.7/sfbpf/sf_optimize.c:1299-1300` | A whole statement list keeps its meaning where every atom it reads has a number, the exit table is right, arithmetic still there at its end has no constant result, and no more than two entries a statement are used; it fails if and only if numbering from the entry table comes to a statement that is refused |
| `Numbering.NumberBlocks` | `data/daq-2.0.7/sfbpf/sf_optimize.c:1678-1718` | One top-down sweep numbers and rewrites every reachable block, each starting from exactly what its predecessors agree on; at most two entries a statement are used, so curval stays below maxval; it fails if and only if the sweep comes to a block in which, from what its predecessors agree on, a statement is refused |
| `Numbering.TracedNotRefused` | `data/daq-2.0.7/sfbpf/sf_optimize.c:1299-1300` | A list that has been numbered to its end contains no statement that is refused: there is only one way to number it |
| `Numbering.NumberingPreserves` | `data/daq-2.0.7/sfbpf/sf_optimize.c:994-1300` | On every run that does not fail, where every atom read has a number, every block visited leaves the same machine state as before and a table that is right about it, and the filter returns the same |
| `Numbering.NumberingPreservesFilter` | `data/daq-2.0.7/sfbpf/sf_optimize.c:994-1300` | The same from the root, from any initial machine state |
| `Numbering.SameConstant` | `data/daq-2.0.7/sfbpf/sf_optimize.c:583-634` | Distinct constants never share a number, and equal ones always do |
| `Numbering.NumberingFaithful` | `data/daq-2.0.7/sfbpf/sf_optimize.c:1264-1346` | Numbering without rewriting leaves the reachable blocks tables in which, on each packet, every number stands for one word, and equal constants have equal numbers |
| `Peep.StoreLoadWindow` | `data/daq-2.0.7/sfbpf/sf_optimize.c:752-760` | st M[k]; ldx M[k] may become st M[k]; tax |
| `Peep.ImmediateWindow` | `data/daq-2.0.7/sfbpf/sf_optimize.c:761-770` | ld #k; tax may become ldx #k; txa |
| `Peep.FusionWindow` | `data/daq-2.0.7/sfbpf/sf_optimize.c:771-848` | ld #c; addx; tax; ild [x+k] may become ild [x+(k+c)] where c is zero or nothing reads X afterwards, with 32-bit wrap-around of the offsets |
| `Peep.FusionExactly` | `data/daq-2.0.7/sfbpf/sf_optimize.c:771-848` | Wherever the four statements run, the fused one leaves the same machine state if and only if c is zero |
| `Peep.HeaderFusionWindow` | `data/daq-2.0.7/sfbpf/sf_optimize.c:771-848` | The same with the header-length load in between |
| `Peep.HeaderFusionExactly` | `data/daq-2.0.7/sfbpf/sf_optimize.c:771-848` | Wherever the five statements run, the fused pair leaves the header length in X where they left c more, and the same machine state if and only if c is zero |
| `Peep.PeepStmts` | `data/daq-2.0.7/sfbpf/sf_optimize.c:722-849` | The loop over statements with deleted ones in between returns exactly the list that rewriting pair after pair, and every fusible sequence met, makes; where every fusion of a nonzero constant is followed by no read of X, that list ends like the old one wherever it does not fail, in the same state but for an X that nothing needs |
| `Peep.PeepedNoPairs` | `data/daq-2.0.7/sfbpf/sf_optimize.c:722-849` | In what the loop returns, no live store is followed by the load of the same word into X, and no constant load by its transfer to X |
| `Peep.FoldLastRight` | `data/daq-2.0.7/sfbpf/sf_optimize.c:851-925` | Folding a final sub or and into an equality test keeps the branch target and everything but A |
| `Peep.FoldMaskRight` | `data/daq-2.0.7/sfbpf/sf_optimize.c:926-936` | Rewriting a jset test keeps the target if and only if it is not for all bits with A zero and different successors |
| `Peep.PeepTailRight` | `data/daq-2.0.7/sfbpf/sf_optimize.c:851-985` | All rewritings of the branch together keep the target except exactly in that case |
| `Peep.OptPeep` | `data/daq-2.0.7/sfbpf/sf_optimize.c:722-986` | With right value tables, where no fusion of a nonzero constant is followed by a read of X, and where arithmetic at the end of the list has no constant result (which the numbering ensures, see `BlockPass.NumberedUnfolded`), the block leaves the same live atoms and goes to the same successor, except exactly when it tests for all bits and A is zero; in all cases it leaves the list and the branch the loop and the rules for branches determine |
| `Peep.AllOnesGoesWrong` | `data/daq-2.0.7/sfbpf/sf_optimize.c:926-936` | The input on which the target changes: jset #0xffffffff with A zero |
| `Peep.FusionLosesIndex` | `data/daq-2.0.7/sfbpf/sf_optimize.c:771-848` | The input on which the loop is wrong: what it returns for ld #2; addx; tax; ild [x+0]; txa ends differently, because the txa sees the old X |
| `Deadstores.OptDeadstores` | `data/daq-2.0.7/sfbpf/sf_optimize.c:1222-1241` | For any statement list and every entry state on which nothing fails, the branch decision and the exit value of every atom in out_use stay; a statement is deleted if and only if what it defines is defined again before it is read, or is neither read later nor in out_use nor used by the branch |
| `Deadstores.DeadOnlyPreserves` | `data/daq-2.0.7/sfbpf/sf_optimize.c:1193-1241` | Deleting statements that are dead in this sense leaves all live atoms as they were |
| `BlockPass.NumberedUnfolded` | `data/daq-2.0.7/sfbpf/sf_optimize.c:1299-1339` | After the numbering, arithmetic still there at the end of the list has no constant's number, which is what opt_peep relies on |
| `BlockPass.ClearedKeeps` | `data/daq-2.0.7/sfbpf/sf_optimize.c:1302-1332` | Where the whole list is deleted, the block goes to the same successor and leaves what is used later as it was |
| `BlockPass.OptBlk` | `data/daq-2.0.7/sfbpf/sf_optimize.c:1243-1346` | A block from the merge of its predecessors' tables to the operand of its branch: wherever the entry table is right, every atom read has a number, and no fusion of a nonzero constant is followed by a read of X, the block that numbering, the special case or opt_peep and opt_deadstores leave keeps all atoms in out_use and goes to the same successor, except exactly when opt_peep ran and the block tests an A of zero for all bits; the exit table is right; which list, branch and successors result is determined; it fails if and only if a statement is refused |
| `Threading.UseConflict` | `data/daq-2.0.7/sfbpf/sf_optimize.c:1356-1370` | There is a conflict exactly if some atom in out_use of the successor has different numbers in the two blocks |
| `Threading.FoldEdge` | `data/daq-2.0.7/sfbpf/sf_optimize.c:1372-1425` | The successor it returns is the one the comparison of the two branches' codes and numbers determines; otherwise null |
| `Threading.FoldsEquality` | `data/daq-2.0.7/sfbpf/sf_optimize.c:1372-1425` | Between tests of the same value for equality with constants, fold_edge tells exactly what the edge taken implies for every accumulator |
| `Threading.FoldIsRight` | `data/daq-2.0.7/sfbpf/sf_optimize.c:1372-1425` | After a dominating edge has been taken, the child goes where fold_edge says, on every packet |
| `Threading.DominatingEdgeTaken` | `data/daq-2.0.7/sfbpf/sf_optimize.c:322-344` | A packet that takes an edge has taken every edge in its dominator set |
| `Threading.OptJ` | `data/daq-2.0.7/sfbpf/sf_optimize.c:1427-1484` | When it ends, no dominating edge decides where the edge's successor goes, except where something used there would be another value, and a common target without such a conflict has been taken; it reports a change if and only if the successor has changed, to a lower block without a conflict, so starting over ends; on every packet whose blocks do not fail, the new graph only skips blocks of the old way |
| `Threading.ThreadJumps` | `data/daq-2.0.7/sfbpf/sf_optimize.c:1678-1718` | The bottom-up sweep over all edges keeps the filter result although dominators and values were computed before any redirect, and afterwards no edge of a reachable block can skip its successor any more |
| `Threading.SkippingPreserves` | `data/daq-2.0.7/sfbpf/sf_optimize.c:1427-1484` | A graph that only skips blocks of the way returns what the old one returned |
| `Optimise.ThreadPass` | `data/daq-2.0.7/sfbpf/sf_optimize.c:1678-1718` | Levels, dominators, liveness, in-edges and value numbers computed from scratch, then the sweep of opt_j: over self-contained reachable blocks the filter result stays, on every packet whose way does not fail, and no edge of a reachable block can skip its successor any more |
| `Optimise.FoldAfterPeep` | `data/daq-2.0.7/sfbpf/sf_optimize.c:1372-1425` | Given a block whose last subtraction opt_peep has moved into its equality test, and another that tests the same difference against the moved constant: on the true side fold_edge is right about the other if and only if zero was subtracted, on the false side if and only if A is not the one word for which the other is true |
| `Pullup.OnePredecessor` | `data/daq-2.0.7/sfbpf/sf_optimize.c:1487-1581` | Dominance by the head of the chain and acyclicity leave every later test of the chain exactly one predecessor |
| `Pullup.MovedDag` | `data/daq-2.0.7/sfbpf/sf_optimize.c:1487-1676` | The reordered graph is acyclic |
| `Pullup.PullupExactly` | `data/daq-2.0.7/sfbpf/sf_optimize.c:1487-1676` | On every packet, clean or not, the filter result stays if and only if the way does not enter the reordered part, or the pulled test fails as the filter did, or stays in the chain, or the filter came to what is at the way out of the chain |
| `Pullup.CleanUnharmed` | `data/daq-2.0.7/sfbpf/sf_optimize.c:1487-1676` | On a clean way that condition is: the way does not enter the reordered part, or the pulled test does not fail, or it rejects a packet that was rejected |
| `Pullup.PullupPreserves` | `data/daq-2.0.7/sfbpf/sf_optimize.c:1487-1676` | Over self-contained blocks, on every packet whose way is clean, the filter result stays if and only if this holds: where the way enters the reordered part and the pulled test fails, the test rejects and the result was 0 already |
| `Pullup.PulledTestFails` | `data/daq-2.0.7/sfbpf/sf_optimize.c:1487-1581` | The input on which the result changes: a clean way that accepts, and a pulled test whose second load is out of range |
| `Pullup.OrPullup` | `data/daq-2.0.7/sfbpf/sf_optimize.c:1487-1581` | A test is pulled up if and only if all predecessors leave the same value and the chain has a test of another value followed by a test of that value; it is then the first such, the pointer assignments produce exactly the reordered graph, the graph is acyclic, and the result stays on exactly the packets of `Pullup.PullupExactly` |
| `Pullup.AndPullup` | `data/daq-2.0.7/sfbpf/sf_optimize.c:1583-1676` | The same for the other side |
| `Interning.EqSlist` | `data/daq-2.0.7/sfbpf/sf_optimize.c:1867-1885` | True exactly if the lists are equal but for deleted statements |
| `Interning.EqBlk` | `data/daq-2.0.7/sfbpf/sf_optimize.c:1887-1894` | True exactly if the blocks have equal branches, successors and live statements |
| `Interning.CollapsePreserves` | `data/daq-2.0.7/sfbpf/sf_optimize.c:1896-1942` | Redirecting edges to equal blocks keeps the meaning of every block |
| `Interning.SumRises` | `data/daq-2.0.7/sfbpf/sf_optimize.c:1896-1942` | A pass that changes something strictly raises the sum of successor indices |
| `Interning.InternBlocks` | `data/daq-2.0.7/sfbpf/sf_optimize.c:1896-1942` | Ends; every block keeps its meaning, and no two different reachable blocks are equal afterwards |
| `Checksum.InChksumIp` | `data/snort-2.9.20/src/checksum.h:65-96` | The unrolled sum over the header equals the Internet checksum of its words; the 32-bit sum never wraps |
| `Checksum.InChksumTcp` | `data/snort-2.9.20/src/checksum.h:106-188` | The same over pseudo-header and segment, with 32-, 8- and 2-byte loops and an odd last byte |
| `Checksum.InChksumTcp6` | `data/snort-2.9.20/src/checksum.h:197-291` | The same with the IPv6 pseudo-header |
| `Checksum.InChksumUdp` | `data/snort-2.9.20/src/checksum.h:389-461` | The same for a datagram with an eight-byte header |
| `Checksum.InChksumUdp6` | `data/snort-2.9.20/src/checksum.h:301-385` | The same with the IPv6 pseudo-header |
| `Checksum.InChksumIcmp` | `data/snort-2.9.20/src/checksum.h:466-520` | The same without header, for any length |
| `Checksum.InChksumIcmp6` | `data/snort-2.9.20/src/checksum.h:525-601` | The same with the IPv6 pseudo-header |
| `Checksum.OnesComplChecksum` | `data/snort-2.9.20/src/checksum.h:603-627` | The simple loop, folding until no carry is left, computes the same checksum |
| `Checksum.OnesSumIsFolded` | `data/snort-2.9.20/src/checksum.h:616-624` | One's complement addition word by word is plain addition with the carries folded at the end |
| `Checksum.TwoFolds` | `data/snort-2.9.20/src/checksum.h:515-519` | For every 32-bit sum, two folding steps and truncation to 16 bits are enough |
| `Checksum.FieldVerifies` | `data/snort-2.9.20/src/checksum.h:466-520` | A zeroed field at an even place re-checksums to 0 if and only if it is filled with the checksum, or with all ones when the checksum is 0 (section 1 of RFC 1071) |
| `Checksum.NetworkOrder` | `data/snort-2.9.20/src/checksum.h:466-520` | Stored in host order, the checksum is the one of the words in network order (byte order independence, section 2 of RFC 1071) |

## Left out

- `CompileFilter`: its program is described for code shorter than 2^32 instructions, and byte strings are not empty and end below offset 2^31.
- Statement lists, level lists, in-edge lists, hash chains and bit-vector sets are Dafny sequences and sets, so aliasing of list cells is not modelled.
- `Load`: packets of 2^31 bytes and more, on which the interpreter's signed offset turns negative, are read as if offsets were unsigned.
- `ShiftLeft`: shift counts of 32 and more, undefined in C, clear the word in folder and interpreter alike.
- `FoldEdge`: the code of an edge is read from its predecessor's branch instead of the stored copy in the edge.
- `Promote`: the walk over the words of the edge bit-vector is a walk over the array of edges.
- `PullUp`: one method with the side as a parameter serves both pull-ups. It assumes dominators and in-edges that are exact for the current graph; the C sweep that follows opt_j recomputes the in-edges from the old level lists and does not recompute the dominators, so both may still mention blocks that have become unreachable.
- `GenLoad`: only the link-layer case of gen_load.
- `GenRelation`: operands that carry protocol checks, which gen_relation joins in front with gen_and, are not modelled.
- `OptPeep`: the case of a return block with statements, which the generator does not produce and on which the C code aborts, is excluded.
- `ThreadPass`: rewriting is off in the numbering before the sweep, and threading and pull-ups are stated for self-contained blocks. opt_peep and opt_deadstores are composed with the numbering for one block (`BlockPass.OptBlk`), but a whole round of opt_blks, with opt_j in the same sweep, is not claimed to preserve meaning, and in general does not (`Optimise.FoldAfterPeep`).
- `OptBlk`: a return block has no statements, as the generator makes it.
- `InChksumTcp` and the other checksum functions: buffers of up to 131074 bytes, for which the 32-bit sum cannot wrap, on a little-endian host.
- opt_loop's termination, opt_root and find_closure.
- In-block relative jumps, backward branches, and link types other than Ethernet; gen_load for protocols other than the link layer.
- Memory allocation and its failure, setjmp error exits, the lexer, the parser, name lookup and the printer.
- The kernel branches of the interpreter.
