# A verified model of a SysY compiler and three small C/C++ programs

The repository holds a teaching compiler and three exercise programs:

- **The compiler.** Its front end parses a SysY (C subset) program into an
  AST. The AST keeps a symbol table of `const` and `int` declarations. The
  front end folds constant expressions (`CalcConstExp`), and each node writes
  Koopa IR text into a buffer (`PrintIR`). Koopa is a three-address IR in
  static single-assignment form, with temporaries `%0`, `%1`, ... drawn from
  one counter. An older front end (`compiler/src/AST.hpp`) handles only
  `int main() { return N; }`. The back end walks the in-memory Koopa program
  and prints RISC-V assembly. It memoises each instruction's result register
  in `hasDone`. Its register choice looks only at an instruction's own
  operands, so two sibling subexpressions can get the same register. In
  `(1 + 2) * (3 + 4)` both sums land in `t0`, and the product reads the
  second sum twice. The model reproduces this as the source is written
  (`SiblingsShareRegister`, `ProductOfSums`).
- **task1** reads integers with `getchar`, sorts them with a
  median-of-three quicksort and prints them with `putchar`.
- **task2** multiplies two 1-based matrices held in fixed global arrays and
  prints the product with `%10d`.
- **task3** is a course planner. It reads lines of the form
  `name|credit|prereqs|grade`, where the prerequisites are `;`-separated
  groups of `,`-separated course names. It keeps a table of course names
  that it fills on first sight (`Find`). It prints the GPA, the credit sums
  and the courses a student can take next. The program exists twice: a C
  version (`task3/task3/task3.c`) with parallel global arrays, and a C++
  version (`task3/code/task3.cpp`) with an array of `struct Course`.

## How each module maps to the source

| module | file | what it models |
|---|---|---|
| `Common` | `common.dfy` | the `int` range, C's truncating `/` and `%`, and `std::to_string` with its inverse |
| `SymbolTables` | `symbol_table.dfy` | class `SymbolTable` over a `map` |
| `FrontAst` | `front_ast.dfy` | the AST node kinds. The single-child precedence layers are collapsed. |
| `ConstFold` | `const_fold.dfy` | `CalcConstExp` on every node, with C's undefined behaviour as a precondition, beside a strict evaluation `Eval` |
| `KoopaIr` | `koopa_ir.dfy` | Koopa instructions, their text and an execution semantics |
| `IrEmitter` | `ir_emitter.dfy` | `PrintIR` as class `Emitter` (`buffer`, temp counter), each method proved equal to a code-generation function |
| `EmitterCorrectness` | `emitter_correctness.dfy` | single assignment of temporaries; the emitted code computes `Eval` |
| `OldIr` | `old_ir.dfy` | the older front end's `PrintIR` |
| `RiscvBackend` | `riscv_backend.dfy` | `back_main.cpp` as class `CodeGen` (`out`, `hasDone`) over a graph of instructions, each method proved equal to a function |
| `Quicksort` | `quicksort.dfy` | `swap`, `Median3`, `Quicksort` on an `array<int>` |
| `DecimalIo` | `decimal_io.dfy` | `ReadInt`, `PrintInt`, `ReadLine` and `Print1FDiv` over character sequences |
| `MatMul` | `matmul.dfy` | task2 on `array2<int>` |
| `Planner` | `planner.dfy` | what both task3 versions compute: line parsing, the name table, the records, the credit sums and `NeedToLearn`, plus the shared C routines `GetLen`, `comp` and the name scans |
| `PlannerC` | `planner_c.dfy` | class `Tables` with the C globals `course`, `credit`, `need`, `cnt`, `grade`, `course_input`, `credit_remaining` |
| `PlannerCpp` | `planner_cpp.dfy` | class `Registry` with the C++ `a[]` of `Course`, `course[]` and `course_input[]` |

Both planner classes are proved against the same functions in `Planner`
through a ghost `View()`. So the C and the C++ versions compute the same
tables, line by line.

## Model

| member | source | states |
|---|---|---|
| Common.CDiv | compiler/src/front/AST.hpp:835 | C `/` truncates toward zero: the magnitude is the magnitude quotient, and a non-zero quotient is negative exactly when the operand signs differ |
| Common.CMod | compiler/src/front/AST.hpp:838 | C `%`: `a == b * (a / b) + r`, `\|r\| < \|b\|`, and a non-zero remainder has the dividend's sign |
| Common.NatToString | compiler/src/AST.hpp:120 | `std::to_string` of a non-negative value is all decimal digits, with a leading `0` only for zero and one digit exactly below ten |
| Common.IntToString | compiler/src/AST.hpp:120 | the text starts with `-` exactly for negative values; otherwise it is all digits |
| Common.NatToStringValue | compiler/src/AST.hpp:120 | reading the digits back gives the value (round trip) |
| Common.IntToStringInjective | compiler/src/AST.hpp:120 | different integers print differently |
| Common.NegativeText | compiler/src/AST.hpp:120 | a negative value prints as `-` followed by its magnitude |
| Common.ValueOfText | compiler/src/AST.hpp:120 | equal digit texts mean equal values |
| SymbolTables.SymbolTable.constructor | compiler/src/front/AST.hpp:8-20 | a new table is empty |
| SymbolTables.SymbolTable.AddConstSymbol | compiler/src/front/AST.hpp:22-31 | a name already present is left as it is; otherwise it is bound as a constant with its value |
| SymbolTables.SymbolTable.AddVarSymbol | compiler/src/front/AST.hpp:34-43 | a name already present is left as it is; otherwise it is bound as a variable |
| SymbolTables.SymbolTable.GetSymbolType | compiler/src/front/AST.hpp:50-56 | `Const` exactly for a name bound as a constant; a missing name reads as a variable |
| SymbolTables.SymbolTable.GetConstSymbolValue | compiler/src/front/AST.hpp:58-68 | the stored value of a constant; any non-zero answer comes from a constant binding |
| SymbolTables.SymbolTable.GetVarSymbolValue | compiler/src/front/AST.hpp:70-80 | the stored value of a variable; any non-zero answer comes from a variable binding |
| SymbolTables.DeclareAllKeeps | compiler/src/front/AST.hpp:22-43 | later declarations never change a name already bound |
| SymbolTables.FirstDeclarationWins | compiler/src/front/AST.hpp:22-43 | after a run of declarations, a fresh name holds its first declaration |
| ConstFold.CalcConstExp | compiler/src/front/AST.hpp:632-1275 | folding yields an `int`, 0 or 1 for every comparison and logical form, and a constant's stored value for a name |
| ConstFold.ConstExpValue | compiler/src/front/AST.hpp:562-568 | a value cached by the parser is returned as it is, otherwise the expression is folded; when the cache is sound, as the parser leaves it, the result is the folded value of the expression either way, and an `int` |
| ConstFold.FoldAgreesWithEval | compiler/src/front/AST.hpp:632-1275 | on expressions over constants, wherever the strict evaluation is defined, folding is defined and gives the same value |
| ConstFold.FoldShortCircuitsRunDoesNot | compiler/src/front/AST.hpp:1193-1203 | `0 && 1/0` folds to 0 by short-circuit, while the strict evaluation of the emitted code is undefined |
| KoopaIr.TempName | compiler/src/front/AST.hpp:99-104 | a temporary's name is `%` followed by digits |
| KoopaIr.TempNameInjective | compiler/src/front/AST.hpp:99-104 | different counter values give different temporaries |
| KoopaIr.OrNonZero | compiler/src/front/AST.hpp:1297-1317 | Koopa's bitwise `or` of two `int`s is non-zero exactly when one of them is, which is what `\|\|` lowering relies on |
| KoopaIr.AndTruth | compiler/src/front/AST.hpp:1225-1248 | on 0/1 operands Koopa's bitwise `and` is the logical and, which is what `&&` lowering relies on |
| IrEmitter.ExpCode | compiler/src/front/AST.hpp:606-1317 | an expression's code uses counter values from `n` up, and a temporary result lies in the range it allocated |
| IrEmitter.UnaryCode | compiler/src/front/AST.hpp:774-800 | a unary form never moves the counter back, and a temporary result lies below the new counter |
| IrEmitter.BinaryCode | compiler/src/front/AST.hpp:875-1176 | a binary form allocates one temporary after both operands, which holds the result |
| IrEmitter.LAndCode | compiler/src/front/AST.hpp:1225-1248 | `&&` allocates three temporaries after both operands, and the last holds the result |
| IrEmitter.LOrCode | compiler/src/front/AST.hpp:1297-1317 | `\|\|` allocates two temporaries after both operands, and the last holds the result |
| IrEmitter.VarDefCode | compiler/src/front/AST.hpp:456-468 | a variable definition never moves the counter back |
| IrEmitter.VarDefsCode | compiler/src/front/AST.hpp:416-421 | a declaration list never moves the counter back |
| IrEmitter.DeclCode | compiler/src/front/AST.hpp:300-311 | a declaration never moves the counter back |
| IrEmitter.StmtCode | compiler/src/front/AST.hpp:531-552 | a statement never moves the counter back |
| IrEmitter.BlockItemCode | compiler/src/front/AST.hpp:257-266 | a block item never moves the counter back |
| IrEmitter.BlockItemsCode | compiler/src/front/AST.hpp:217-224 | a block's items never move the counter back |
| IrEmitter.Emitter.constructor | compiler/src/front/AST.hpp:99-104 | empty buffer, counter at 0 |
| IrEmitter.Emitter.NewTempSymbol | compiler/src/front/AST.hpp:99-104 | returns the temporary named by the counter, then increments it, leaving the buffer alone |
| IrEmitter.Emitter.EmitExp | compiler/src/front/AST.hpp:606-609 | appends exactly the expression's code, advances the counter past it and returns the operand text of its value |
| IrEmitter.Emitter.EmitLVal | compiler/src/front/AST.hpp:676-706 | appends exactly `ExpCode`'s instructions for a name (none for a constant, one `load` for a variable) and returns its operand |
| IrEmitter.Emitter.EmitUnary | compiler/src/front/AST.hpp:774-800 | appends exactly `ExpCode`'s instructions for a unary form (the operand's, then `sub 0, x` or `eq 0, x`) and returns its operand |
| IrEmitter.Emitter.EmitOperands | compiler/src/front/AST.hpp:875-904 | appends the left operand's code and then the right's, numbering the right after the left, and returns both operands |
| IrEmitter.Emitter.EmitBinary | compiler/src/front/AST.hpp:875-1176 | appends exactly `ExpCode`'s instructions for a binary form (both operands, then one instruction of the matching Koopa operation) |
| IrEmitter.Emitter.EmitLAnd | compiler/src/front/AST.hpp:1225-1248 | appends exactly `ExpCode`'s instructions for `&&` (both operands, then the `ne`, `ne`, `and` tail) |
| IrEmitter.Emitter.EmitLAndTail | compiler/src/front/AST.hpp:1237-1243 | the three lines that normalise both sides to 0/1 and `and` them |
| IrEmitter.Emitter.EmitLOr | compiler/src/front/AST.hpp:1297-1317 | appends exactly `ExpCode`'s instructions for `\|\|` (both operands, then the `or`, `ne` tail) |
| IrEmitter.Emitter.EmitLOrTail | compiler/src/front/AST.hpp:1308-1312 | the two lines that `or` the sides and normalise the result to 0/1 |
| IrEmitter.Emitter.EmitConstExp | compiler/src/front/AST.hpp:578-581 | once the parser has cached the folded value, the operand text is the decimal text of the folded value of the expression (the literal `ConstExpValue` gives) |
| IrEmitter.Emitter.EmitVarDef | compiler/src/front/AST.hpp:456-468 | appends exactly `VarDefCode`'s instructions: the `alloc` and, for an initialised variable, the initialiser's code and a `store` |
| IrEmitter.Emitter.EmitVarDecl | compiler/src/front/AST.hpp:416-421 | appends each definition's code, in order |
| IrEmitter.Emitter.EmitDecl | compiler/src/front/AST.hpp:300-311 | a variable declaration appends its code; a constant one appends nothing |
| IrEmitter.Emitter.EmitStmt | compiler/src/front/AST.hpp:531-552 | appends exactly `StmtCode`'s instructions: for an assignment the value's code and a `store`, for `return` the value's code and a `ret` |
| IrEmitter.Emitter.EmitBlockItem | compiler/src/front/AST.hpp:257-266 | appends the declaration's or the statement's code |
| IrEmitter.Emitter.EmitBlock | compiler/src/front/AST.hpp:217-224 | appends `%entry:` and every item's code, in order |
| IrEmitter.Emitter.EmitFuncType | compiler/src/front/AST.hpp:189-196 | appends the return type text and leaves the counter alone |
| IrEmitter.Emitter.EmitFuncDef | compiler/src/front/AST.hpp:157-168 | appends the `fun @name(): i32 { ... }` text of the function |
| IrEmitter.Emitter.EmitCompUnit | compiler/src/front/AST.hpp:127-130 | appends the text of the only function |
| IrEmitter.LAndCodeOf | compiler/src/front/AST.hpp:1225-1248 | an `&&` node's code is both operands' code followed by the `&&` tail |
| IrEmitter.LOrCodeOf | compiler/src/front/AST.hpp:1297-1317 | an `\|\|` node's code is both operands' code followed by the `\|\|` tail |
| IrEmitter.LAndLines | compiler/src/front/AST.hpp:1237-1243 | the `&&` tail renders as the three lines the source writes |
| IrEmitter.LOrLines | compiler/src/front/AST.hpp:1308-1312 | the `\|\|` tail renders as the two lines the source writes |
| EmitterCorrectness.ExpTemps | compiler/src/front/AST.hpp:99-104 | the temporaries an expression defines are exactly the counter values it consumed, each once and in order |
| EmitterCorrectness.UnaryCodeTemps | compiler/src/front/AST.hpp:774-800 | a unary form defines exactly the temporaries it consumed |
| EmitterCorrectness.BinaryCodeTemps | compiler/src/front/AST.hpp:875-1176 | a binary form defines exactly the temporaries it consumed |
| EmitterCorrectness.LAndCodeTemps | compiler/src/front/AST.hpp:1225-1248 | `&&` defines exactly the temporaries it consumed |
| EmitterCorrectness.LAndTailDests | compiler/src/front/AST.hpp:1237-1243 | the `&&` tail defines three consecutive temporaries |
| EmitterCorrectness.LOrCodeTemps | compiler/src/front/AST.hpp:1297-1317 | `\|\|` defines exactly the temporaries it consumed |
| EmitterCorrectness.LOrTailDests | compiler/src/front/AST.hpp:1308-1312 | the `\|\|` tail defines two consecutive temporaries |
| EmitterCorrectness.VarDefTemps | compiler/src/front/AST.hpp:456-468 | a variable definition defines exactly the temporaries it consumed |
| EmitterCorrectness.VarDefsTemps | compiler/src/front/AST.hpp:416-421 | a declaration list defines exactly the temporaries it consumed |
| EmitterCorrectness.StmtTemps | compiler/src/front/AST.hpp:531-552 | a statement defines exactly the temporaries it consumed |
| EmitterCorrectness.BlockItemTemps | compiler/src/front/AST.hpp:257-266 | a block item defines exactly the temporaries it consumed |
| EmitterCorrectness.BlockItemsTemps | compiler/src/front/AST.hpp:217-224 | a block defines exactly the temporaries it consumed |
| EmitterCorrectness.SingleAssignment | compiler/src/front/AST.hpp:99-104 | in a function body no temporary is defined twice (static single assignment) |
| EmitterCorrectness.ApplyOpAgrees | compiler/src/front/AST.hpp:875-1176 | where the C operation is defined, the Koopa instruction the emitter picks computes the same value |
| EmitterCorrectness.LAndTailRuns | compiler/src/front/AST.hpp:1237-1243 | the `&&` tail leaves 1 exactly when both sides are non-zero, else 0 |
| EmitterCorrectness.LOrTailRuns | compiler/src/front/AST.hpp:1308-1312 | the `\|\|` tail leaves 1 exactly when a side is non-zero, else 0 |
| EmitterCorrectness.ExpCodeCorrect | compiler/src/front/AST.hpp:606-1317 | whenever an expression's value is defined, its code runs without fault, keeps memory and the older temporaries, and its operand then holds that value |
| EmitterCorrectness.UnaryCorrect | compiler/src/front/AST.hpp:774-800 | the same, for the unary forms |
| EmitterCorrectness.BinaryCorrect | compiler/src/front/AST.hpp:875-1176 | the same, for the binary forms |
| EmitterCorrectness.LAndCorrect | compiler/src/front/AST.hpp:1225-1248 | the same, for `&&`: the result is the logical and, with both sides evaluated |
| EmitterCorrectness.LAndCombine | compiler/src/front/AST.hpp:1225-1248 | running both operands and then the tail yields their logical and |
| EmitterCorrectness.LOrCorrect | compiler/src/front/AST.hpp:1297-1317 | the same, for `\|\|` |
| EmitterCorrectness.LOrCombine | compiler/src/front/AST.hpp:1297-1317 | running both operands and then the tail yields their logical or |
| EmitterCorrectness.VarDefCorrect | compiler/src/front/AST.hpp:456-468 | a definition's code allocates the variable and stores its initial value, as the source-level run does |
| EmitterCorrectness.VarDefsCorrect | compiler/src/front/AST.hpp:416-421 | a declaration's code follows the source-level run, which never returns |
| EmitterCorrectness.StmtCorrect | compiler/src/front/AST.hpp:531-552 | an assignment's code updates memory and `return`'s code returns the value, as the source-level run does |
| EmitterCorrectness.BlockItemCorrect | compiler/src/front/AST.hpp:257-266 | a block item's code follows the source-level run |
| EmitterCorrectness.BlockItemsCorrect | compiler/src/front/AST.hpp:217-224 | a block's code follows the source-level run, stopping at the first `return` |
| EmitterCorrectness.CompUnitReturns | compiler/src/front/AST.hpp:127-168 | a program whose run returns `v` compiles to code that, from empty memory, returns `v` |
| OldIr.StmtIR | compiler/src/AST.hpp:119-121 | the line is the indent, `ret `, the decimal number and a newline |
| OldIr.BlockIR | compiler/src/AST.hpp:98-103 | `%entry:` on its own line, then the statement one tab deeper |
| OldIr.FuncTypeIR | compiler/src/AST.hpp:76-82 | ` i32 ` exactly for `int`, and ` error-type ` for anything else |
| OldIr.FuncDefIR | compiler/src/AST.hpp:47-60 | the text starts with `fun @` and ends with the closing brace line |
| OldIr.StmtIRInjective | compiler/src/AST.hpp:119-121 | different return values give different text |
| OldIr.MainReturnsZero | compiler/src/AST.hpp:25-121 | `int main() { return 0; }` prints `fun @main(): i32 {`, `%entry:`, `ret 0`, `}` |
| OldIr.MainText | compiler/src/AST.hpp:47-60 | the pieces of that text join to the expected listing |
| OldIr.NewFrontEndAgrees | compiler/src/front/AST.hpp:157-168 | on the programs the old front end accepts, the new front end prints the same text |
| RiscvBackend.ResultReg | compiler/src/back/back_main.cpp:232-235 | the result register is above every register operand, and is 0 or one past an operand's register |
| RiscvBackend.InstGen | compiler/src/back/back_main.cpp:136-169 | an instruction already in `hasDone` returns its register and writes nothing; otherwise its register is recorded and output only grows; unsupported kinds and `sar` are fatal |
| RiscvBackend.ReturnGen | compiler/src/back/back_main.cpp:172-196 | `ret` only appends output, keeps every memoised entry and yields 0 |
| RiscvBackend.OperandGen | compiler/src/back/back_main.cpp:214-230 | a literal operand is its value with nothing written; any other operand is visited and yields its memoised register |
| RiscvBackend.BinaryGen | compiler/src/back/back_main.cpp:205-437 | a binary instruction only appends output and memo entries, and `sar` is fatal |
| RiscvBackend.BinaryFinish | compiler/src/back/back_main.cpp:232-437 | fatal exactly for `sar`; otherwise output only grows and the result register is the computed `now` |
| RiscvBackend.LoadsOut | compiler/src/back/back_main.cpp:237-248 | an operand stays a literal exactly when it is the literal 0 (`x0`); a non-zero left literal becomes register `now` and a non-zero right literal register `now+1`, and the text gains `li t<now>, v` and `li t<now+1>, v` for exactly those, in that order; register operands are kept |
| RiscvBackend.OpOut | compiler/src/back/back_main.cpp:255-434 | an instruction is selected for every operation but `sar`, which has none |
| RiscvBackend.OpSelection | compiler/src/back/back_main.cpp:255-429 | comparisons end by masking the register with `andi ..., 0xff`; every other operation is one instruction with its mnemonic |
| RiscvBackend.ComparisonSelection | compiler/src/back/back_main.cpp:255-327 | per comparison, the exact instructions: `!=` is `sub` then `snez`, `==` is `sub` then `seqz`, `>` is `sgt`, `<` is `slt`, `>=` is `slt` then `xori 1`, `<=` is `sgt` then `xori 1`, each followed by `andi 0xff` |
| RiscvBackend.InstsGen | compiler/src/back/back_main.cpp:58-92 | visiting a slice of instructions only appends output and memo entries |
| RiscvBackend.CodeGen.constructor | compiler/src/back/back_main.cpp:43-55 | empty output and empty memo |
| RiscvBackend.CodeGen.VisitInst | compiler/src/back/back_main.cpp:136-169 | output, memo and result are those of `InstGen` |
| RiscvBackend.CodeGen.VisitInstReturn | compiler/src/back/back_main.cpp:172-196 | output, memo and result are those of `ReturnGen` |
| RiscvBackend.CodeGen.VisitOperand | compiler/src/back/back_main.cpp:214-230 | output, memo and result are those of `OperandGen` |
| RiscvBackend.CodeGen.VisitInstBinary | compiler/src/back/back_main.cpp:205-437 | output, memo and result are those of `BinaryGen` |
| RiscvBackend.CodeGen.EmitBinary | compiler/src/back/back_main.cpp:232-437 | output and result are those of `BinaryFinish` |
| RiscvBackend.CodeGen.EmitLoads | compiler/src/back/back_main.cpp:237-248 | output and operands are those of `LoadsOut` |
| RiscvBackend.CodeGen.EmitOp | compiler/src/back/back_main.cpp:255-434 | output is that of `OpOut`; fails exactly for `sar` |
| RiscvBackend.CodeGen.EmitTail | compiler/src/back/back_main.cpp:255-327 | appends the `snez`/`seqz`/`xori` and `andi` lines a comparison needs |
| RiscvBackend.CodeGen.VisitInsts | compiler/src/back/back_main.cpp:58-92 | output and memo are those of `InstsGen` |
| RiscvBackend.CodeGen.VisitBasicBlock | compiler/src/back/back_main.cpp:115-133 | the block label, then its instructions |
| RiscvBackend.CodeGen.VisitBasicBlocks | compiler/src/back/back_main.cpp:58-92 | every block, in order |
| RiscvBackend.CodeGen.VisitFunction | compiler/src/back/back_main.cpp:95-112 | the function label, then its blocks |
| RiscvBackend.CodeGen.VisitFunctions | compiler/src/back/back_main.cpp:58-92 | every function, in order |
| RiscvBackend.CodeGen.VisitProgram | compiler/src/back/back_main.cpp:43-55 | the `.text` header, the values and the functions |
| RiscvBackend.InstsRecorded | compiler/src/back/back_main.cpp:137-147 | after a slice is visited, every instruction of it is in the memo |
| RiscvBackend.InstsAllMemoised | compiler/src/back/back_main.cpp:137 | a slice of memoised instructions writes nothing and changes nothing |
| RiscvBackend.SliceRevisitWritesNothing | compiler/src/back/back_main.cpp:137 | visiting the same slice a second time writes nothing (idempotence) |
| RiscvBackend.RegisterAboveOperands | compiler/src/back/back_main.cpp:232-235 | a binary instruction's register is above the registers of its non-literal operands |
| RiscvBackend.LiteralOperands | compiler/src/back/back_main.cpp:214-235 | with two literal operands the result goes to `t0`, after the loads and the selected instruction |
| RiscvBackend.ReturnOfMemoised | compiler/src/back/back_main.cpp:189-192 | returning a memoised value moves its register into `a0` and emits `ret` |
| RiscvBackend.LiteralBinary | compiler/src/back/back_main.cpp:205-248 | with two literal operands no operand is visited |
| RiscvBackend.InstsTwo | compiler/src/back/back_main.cpp:58-92 | a two-instruction slice visits both in order |
| RiscvBackend.AddOneOne | compiler/src/back/back_main.cpp:331-339 | `1 + 1` loads both literals into `t0` and `t1` and adds them into `t0` |
| RiscvBackend.SubFiveZero | compiler/src/back/back_main.cpp:341-349 | `5 - 0` prints `sub t0, t0, x0, ` without a line break, because the right literal 0 takes the `x0, ` field |
| RiscvBackend.OnePlusOneInsts | compiler/src/back/back_main.cpp:136-196 | `return 1 + 1` prints the `li`, `add`, `mv a0, t0` and `ret` lines |
| RiscvBackend.ReturnOnePlusOne | compiler/src/back/back_main.cpp:43-55 | the complete assembly of `int main() { return 1 + 1; }` |
| RiscvBackend.ProgramSteps | compiler/src/back/back_main.cpp:43-133 | a program of one function and one block prints the header, the labels and the block |
| RiscvBackend.RightZeroRunsOn | compiler/src/back/back_main.cpp:262-263 | after `5 - 0`, the next instruction's text runs on in the same line |
| RiscvBackend.SiblingsShareRegister | compiler/src/back/back_main.cpp:232-235 | in `(1 + 2) * (3 + 4)` both sums go to `t0`, so the second overwrites the first before the product reads it |
| RiscvBackend.ProductOfSums | compiler/src/back/back_main.cpp:232-235 | the product of two sums held in `t0` lands in `t1` |
| Quicksort.Swap | task1/code/task1.cpp:32-36 | the two cells are exchanged, every other cell is unchanged, and the contents are a permutation |
| Quicksort.Median3 | task1/code/task1.cpp:38-52 | afterwards `a[left]` is the least of the three old values, `a[right]` the greatest, and the pivot `a[right-1]` their median; the middle cell receives the old `a[right-1]` when it is a different cell; no other cell moves, and the contents are a permutation |
| Quicksort.Partition | task1/code/task1.cpp:60-71 | the pivot lands at `i`, with nothing larger before it and nothing smaller after it; the contents are a permutation and nothing outside the range changes |
| Quicksort.Cross | task1/code/task1.cpp:65-70 | the scan loop leaves nothing above the pivot before `i` and nothing below it from `i` on |
| Quicksort.ScanUp | task1/code/task1.cpp:66 | `while (a[++i] < pivot)` stops, in range, at the first element not below the pivot |
| Quicksort.ScanDown | task1/code/task1.cpp:67 | `while (a[--j] > pivot)` stops, in range, at the first element not above the pivot |
| Quicksort.Sort | task1/code/task1.cpp:54-74 | the range ends sorted, the contents are a permutation of the original, and nothing outside the range changes; an empty range is untouched and a two-element one becomes min, max |
| Quicksort.SortedParts | task1/code/task1.cpp:71-73 | sorting both sides of a placed pivot sorts the whole range and keeps a permutation |
| Quicksort.BoundsKept | task1/code/task1.cpp:71-73 | permuting a segment keeps every bound that held for all its elements |
| Quicksort.SegmentPermutation | task1/code/task1.cpp:71-73 | a permutation that leaves the outside alone permutes the segment |
| Quicksort.SortedJoin | task1/code/task1.cpp:71-73 | two sorted sides around a placed pivot form a sorted range |
| DecimalIo.NumberStart | task1/code/task1.cpp:9-13 | skipping to the first `-` or digit: every character skipped is neither |
| DecimalIo.DigitsEnd | task1/code/task1.cpp:16-19 | the digit run ends at the first non-digit |
| DecimalIo.RunValueSlice | task1/code/task1.cpp:16-19 | the accumulated value is the decimal value of the digit run |
| DecimalIo.ReadInt | task1/code/task1.cpp:7-21 | the number read, and the position after the character that ended it, are those of the reading specification |
| DecimalIo.PrintInt | task1/code/task1.cpp:23-30 | the characters printed are the decimal text of the value |
| DecimalIo.ReadPrinted | task1/code/task1.cpp:7-30 | reading back a printed number followed by a non-digit gives the number (round trip) |
| DecimalIo.ReadSkipsOthers | task1/code/task1.cpp:9-13 | characters that cannot start a number are skipped without effect on the value |
| DecimalIo.ReadIntAt | task1/code/task1.cpp:7-21 | the number is the signed value of the digit run after the optional `-` |
| DecimalIo.CarryBranchDead | task3/task3/task3.c:43-46 | the rounding-carry branch of `Print1FDiv` can never run, because `(ans + 5) % 100` is below 100 |
| DecimalIo.Print1FDivRounds | task3/task3/task3.c:37-53 | for non-negative arguments the text is `x / y` rounded half up to one decimal |
| DecimalIo.Print1FDivText | task3/task3/task3.c:37-53 | for non-negative arguments the text is the integer part, a point and the tenths digit |
| DecimalIo.TenthsDigits | task3/task3/task3.c:37-53 | the tenths digit is a single decimal digit |
| DecimalIo.LineEnd | task3/task3/task3.c:1-15 | the line ends at the first newline, end of input or non-positive character |
| DecimalIo.ReadLine | task3/task3/task3.c:1-15 | `-1` at end of input; otherwise the line's characters are stored followed by 0 and its length is returned |
| MatMul.Multiply | task2/code/task2.cpp:20-29 | the product is computed exactly when `m1 == n2`; otherwise the result is untouched; each result cell ends as its old value plus the dot product of a row and a column, and a dimension of zero or below runs no loop (an empty dot product is 0) |
| MatMul.DotIdentity | task2/code/task2.cpp:26-29 | multiplying by the identity returns the matrix |
| MatMul.DotZero | task2/code/task2.cpp:26-29 | multiplying by a zero column gives zero |
| MatMul.Spaces | task2/code/task2.cpp:33 | the padding is `n` blanks |
| MatMul.FieldLayout | task2/code/task2.cpp:33 | `%10d` right-aligns the decimal text in a field of at least ten characters, padded with blanks |
| MatMul.PrintMatrix | task2/code/task2.cpp:31-35 | the table is every row's fields followed by a newline |
| MatMul.PrintRow | task2/code/task2.cpp:32-34 | a row is the fields of columns `1..m` |
| MatMul.RowWidth | task2/code/task2.cpp:32-34 | when every value fits ten characters, a row is exactly ten characters per column, and empty when `m <= 0` |
| MatMul.MultiplyAndPrint | task2/code/task2.cpp:20-35 | prints `Incompatible Dimensions` and leaves the result alone when the sizes disagree; otherwise each result cell ends as its old value plus its dot product, and the text printed is the table of that result |
| Planner.IndexOf | task3/task3/task3.c:98-107 | the index of the first occurrence, or the length exactly when the value is absent |
| Planner.IndexFrom | task3/task3/task3.c:98-107 | the first occurrence at or after the start, or the length |
| Planner.Scan | task3/task3/task3.c:127-137 | a scan for a character stops at it or at the bound |
| Planner.ScanSkips | task3/task3/task3.c:127-137 | every character a scan passes differs from the one sought |
| Planner.ScanIndexOf | task3/task3/task3.c:127-137 | a scan ends at the first occurrence in the scanned slice |
| Planner.Split | task3/task3/task3.c:150-175 | splitting a field on a separator gives a piece exactly when the field is non-empty |
| Planner.SplitJoin | task3/task3/task3.c:150-175 | joining the pieces back with the separator restores the field, less one trailing separator |
| Planner.PiecesJoin | task3/task3/task3.c:152-171 | the pieces of a slice join back to the slice, less one trailing separator |
| Planner.FieldGroupsGlue | task3/task3/task3.c:150-175 | each `;`-group's names join with `,` back to that group's text |
| Planner.GroupsGlue | task3/task3/task3.c:150-175 | each `;`-group's names join with `,` back to that group's text, over a whole field |
| Planner.FieldGroupsAvoid | task3/task3/task3.c:150-175 | a character absent from the field is in no parsed name |
| Planner.GradeOf | task3/task3/task3.c:179-191 | a grade is -1 to 4; -1 exactly for a letter other than A-D or F, and positive exactly for A-D |
| Planner.ParseLine | task3/task3/task3.c:112-192 | the parsed name holds no `\|` and no terminator, and the grade is in -1..4 |
| Planner.ParseLineAt | task3/task3/task3.c:127-147 | the credit follows the first `\|`, the prerequisites run from there to the next `\|`, and the grade letter comes after it |
| Planner.ParseLineNames | task3/task3/task3.c:150-175 | no prerequisite name holds the terminator |
| Planner.ParseLineGroups | task3/task3/task3.c:150-175 | the groups are the `;`-pieces of the prerequisite field, and they join back to it |
| Planner.FieldJoin | task3/task3/task3.c:150-175 | the `;`-pieces of a slice join back to it, less one trailing `;` |
| Planner.FindPlan | task3/task3/task3.c:98-107 | `Find` returns the name's index, appending the name with a blank record exactly when it is new |
| Planner.InternFinds | task3/task3/task3.c:98-107 | after `Find` the name is stored at the index returned, and no earlier name moves |
| Planner.InternIdempotent | task3/task3/task3.c:98-107 | a second `Find` of the same name changes nothing |
| Planner.InternKeepsDistinct | task3/task3/task3.c:98-107 | the name table never holds a name twice |
| Planner.LookupExtend | task3/task3/task3.c:98-107 | a name found in the table keeps its index as the table grows |
| Planner.Lookups | task3/task3/task3.c:165-168 | one index per member name |
| Planner.LookupsExtend | task3/task3/task3.c:165-168 | a group's indices do not change as the table grows |
| Planner.AddMembers | task3/task3/task3.c:152-171 | adding a group's members only grows the tables |
| Planner.AddGroups | task3/task3/task3.c:150-175 | adding groups only grows the tables |
| Planner.Admit | task3/task3/task3.c:140-147 | admitting a course returns an index inside the tables |
| Planner.AddMembersRecord | task3/task3/task3.c:152-171 | the members' indices are appended, in order, to the group's slot, and nothing else in the record changes |
| Planner.AddMembersInterns | task3/task3/task3.c:165-168 | after the members are added, every member name is in the table |
| Planner.AddMembersOthers | task3/task3/task3.c:152-171 | adding members changes no other course's record; new names get blank ones |
| Planner.AddMembersInterned | task3/task3/task3.c:152-171 | adding members keeps the name table distinct and the indices in range |
| Planner.OneGroup | task3/task3/task3.c:150-175 | one group fills slot `cnt` and then increments the count |
| Planner.AddGroupsRecord | task3/task3/task3.c:150-175 | the count grows by the number of groups and the credit and grade stay |
| Planner.AddGroupsOthers | task3/task3/task3.c:150-175 | adding groups changes no other course's record |
| Planner.AddGroupsSlots | task3/task3/task3.c:150-175 | the indices of group `j`'s names are appended to slot `cnt + j` |
| Planner.AddGroupsOtherSlots | task3/task3/task3.c:150-175 | slots outside the new groups are unchanged |
| Planner.AddGroupsInterned | task3/task3/task3.c:150-175 | adding groups keeps the name table distinct and the indices in range |
| Planner.AdmitEffect | task3/task3/task3.c:140-147 | the course is interned at `Find`'s index, which is appended to the input order; its record takes the credit and keeps grade and group count; others are untouched |
| Planner.PreworkTables | task3/task3/task3.c:112-147 | a non-empty line appends the course's index to the input order, and the name is at that index |
| Planner.PreworkRecord | task3/task3/task3.c:112-192 | the course then holds the line's credit and grade, and one more group per `;`-group, each holding its names' indices |
| Planner.PreworkOthers | task3/task3/task3.c:112-192 | a line changes no other course's record; new prerequisite names get blank records |
| Planner.PreworkKeepsOk | task3/task3/task3.c:112-192 | every line keeps the tables sound: distinct names, indices in range, groups below the count, grades in -1..4 |
| Planner.CreditBalance | task3/task3/task3.c:239-342 | attempted plus untaken credits equal completed plus remaining credits |
| Planner.CompletedWithinAttempted | task3/task3/task3.c:239-304 | with non-negative credits, completed hours are between 0 and attempted hours |
| Planner.GradePointsBounds | task3/task3/task3.c:195-236 | the grade points are between 0 and 4 times the graded credits, so the GPA is within 0.0..4.0 |
| Planner.RemainingZero | task3/task3/task3.c:308-342 | remaining credits are never negative, and zero exactly when every course not passed has no credit |
| Planner.PassingKeepsOptions | task3/task3/task3.c:345-367 | passing another course never withdraws a suggestion |
| Planner.GetLen | task3/task3/task3.c:76-82 | the length is the position of the first 0 |
| Planner.Comp | task3/task3/task3.c:83-97 | true exactly when both strings are equal up to their terminators |
| Planner.ReadName | task3/task3/task3.c:155-160 | copies characters up to the first `,`, `;`, `\|` or 0 |
| Planner.ReadTitle | task3/task3/task3.c:127-137 | copies the course name up to the first `\|` |
| Planner.LineFields | task3/task3/task3.c:127-150 | a well-formed line's fields lie inside the line |
| Planner.FirstGroup | task3/task3/task3.c:150-175 | the first group of the field ends at the first `;` |
| Planner.NameStep | task3/task3/task3.c:152-171 | a name ends at a `,`, or at the end of its group |
| Planner.Terminated | task3/task3/task3.c:155-160 | a name with the terminator appended has that name as its C string |
| Planner.InternClean | task3/task3/task3.c:98-107 | interning a terminator-free name keeps every stored name terminator-free |
| Planner.BeforeEnd | task3/task3/task3.c:155-160 | characters before the terminator hold none |
| Planner.GroupBeforeEnd | task3/task3/task3.c:150-175 | every group lies before the terminator |
| Planner.ReadGrade | task3/task3/task3.c:179-191 | the grade stored is that of the letter |
| PlannerC.Recs | task3/task3/task3.c:61-66 | one record per course |
| PlannerC.ViewOf | task3/task3/task3.c:61-66 | the parallel arrays read as one record per name |
| PlannerC.ViewGrow | task3/task3/task3.c:67-75 | a new name adds a blank record |
| PlannerC.ViewCredit | task3/task3/task3.c:146 | writing `credit[k]` sets record `k`'s credit |
| PlannerC.ViewGrade | task3/task3/task3.c:179-191 | writing `grade[k]` sets record `k`'s grade |
| PlannerC.ViewCnt | task3/task3/task3.c:172 | incrementing `cnt[k]` increments record `k`'s group count |
| PlannerC.ViewNeed | task3/task3/task3.c:165-168 | writing `need[k][g]` appends to record `k`'s group `g` |
| PlannerC.Tables.constructor | task3/task3/task3.c:61-66 | empty tables, zero remaining credit |
| PlannerC.Tables.Insert | task3/task3/task3.c:67-75 | appends the name and returns its index, changing nothing else |
| PlannerC.Tables.Find | task3/task3/task3.c:98-107 | the name table becomes `Intern` of the name, and the index returned is its position |
| PlannerC.Tables.FindName | task3/task3/task3.c:98-107 | on the record view, `Find` is `FindPlan` |
| PlannerC.Tables.Prework | task3/task3/task3.c:112-192 | the tables become the line's `PreworkSpec` and stay sound |
| PlannerC.Tables.PreworkLine | task3/task3/task3.c:116-192 | a non-empty line does the same |
| PlannerC.Tables.ReadGradeField | task3/task3/task3.c:176-191 | the course's grade becomes that of the letter after the second `\|` |
| PlannerC.Tables.AdmitCourse | task3/task3/task3.c:139-147 | the name is interned, the index is appended to the input order and the credit is stored: `Admit` |
| PlannerC.Tables.SetGradeAt | task3/task3/task3.c:179-191 | sets one record's grade |
| PlannerC.Tables.BumpAt | task3/task3/task3.c:172 | increments one record's group count |
| PlannerC.Tables.AddMember | task3/task3/task3.c:165-168 | interns the member and appends its index to the open group |
| PlannerC.Tables.AppendAt | task3/task3/task3.c:166-168 | appends one index to a group |
| PlannerC.Tables.ReadGroups | task3/task3/task3.c:150-175 | the group loop adds the field's groups: `AddGroups` |
| PlannerC.Tables.ReadOneGroup | task3/task3/task3.c:150-175 | one pass of the group loop adds the first group and moves past its `;` |
| PlannerC.Tables.ReadGroup | task3/task3/task3.c:152-171 | the member loop adds the group's names: `AddMembers` |
| PlannerC.Tables.ReadMember | task3/task3/task3.c:155-170 | one pass of the member loop adds one name and moves past its `,` |
| PlannerC.Tables.SumCredits | task3/task3/task3.c:239-342 | the sum of the credits the filter selects |
| PlannerC.Tables.PrintAttempted | task3/task3/task3.c:239-270 | prints the credits of every graded course |
| PlannerC.Tables.PrintCompleted | task3/task3/task3.c:273-304 | prints the credits of every passed course |
| PlannerC.Tables.PrintRemaining | task3/task3/task3.c:307-342 | stores and prints the credits of every course not passed |
| PlannerC.Tables.PrintGPA | task3/task3/task3.c:195-236 | prints `0.0` with no graded course, else the grade points over the graded credits to one decimal |
| PlannerC.Tables.NeedToLearn | task3/task3/task3.c:345-367 | 1 exactly when the course is not passed and has no groups or a fully passed group; else 0 |
| PlannerCpp.RecsOf | task3/code/task3.cpp:6-11 | one record per course |
| PlannerCpp.RecsPut | task3/code/task3.cpp:6-11 | writing `a[k]` sets record `k` |
| PlannerCpp.RecsGrow | task3/code/task3.cpp:14-22 | a new name adds a blank record |
| PlannerCpp.Registry.View | task3/code/task3.cpp:6-11 | the array of structs read as one record per name |
| PlannerCpp.Registry.constructor | task3/code/task3.cpp:6-11 | empty tables, zero remaining credit |
| PlannerCpp.Registry.Insert | task3/code/task3.cpp:14-22 | appends the name and returns its index, changing nothing else |
| PlannerCpp.Registry.Find | task3/code/task3.cpp:30-34 | the name table becomes `Intern` of the name, and the index returned is its position |
| PlannerCpp.Registry.FindName | task3/code/task3.cpp:30-34 | on the record view, `Find` is `FindPlan`, as in the C version |
| PlannerCpp.Registry.Prework | task3/code/task3.cpp:39-84 | the tables become the line's `PreworkSpec`, as in the C version |
| PlannerCpp.Registry.PreworkLine | task3/code/task3.cpp:39-84 | the same, step by step |
| PlannerCpp.Registry.ReadGradeField | task3/code/task3.cpp:75-83 | the course's grade becomes that of the letter after the second `\|` |
| PlannerCpp.Registry.AdmitCourse | task3/code/task3.cpp:48-53 | `Admit`, as in the C version |
| PlannerCpp.Registry.SetGradeAt | task3/code/task3.cpp:78-83 | sets one record's grade |
| PlannerCpp.Registry.BumpAt | task3/code/task3.cpp:71 | increments one record's group count |
| PlannerCpp.Registry.AddMember | task3/code/task3.cpp:66-67 | interns the member and appends its index to the open group |
| PlannerCpp.Registry.AppendAt | task3/code/task3.cpp:67 | appends one index to a group |
| PlannerCpp.Registry.ReadGroups | task3/code/task3.cpp:56-75 | the group loop adds the field's groups: `AddGroups` |
| PlannerCpp.Registry.ReadOneGroup | task3/code/task3.cpp:56-74 | one pass of the group loop adds the first group and moves past its `;` |
| PlannerCpp.Registry.ReadGroup | task3/code/task3.cpp:58-70 | the member loop adds the group's names: `AddMembers` |
| PlannerCpp.Registry.ReadMember | task3/code/task3.cpp:58-70 | one pass of the member loop adds one name and moves past its `,` |
| PlannerCpp.Registry.SumCredits | task3/code/task3.cpp:115-144 | the sum of the credits the filter selects |
| PlannerCpp.Registry.PrintAttempted | task3/code/task3.cpp:115-122 | prints the credits of every graded course |
| PlannerCpp.Registry.PrintCompleted | task3/code/task3.cpp:125-132 | prints the credits of every passed course |
| PlannerCpp.Registry.PrintRemaining | task3/code/task3.cpp:136-144 | stores and prints the credits of every course not passed |
| PlannerCpp.Registry.NeedToLearn | task3/code/task3.cpp:147-165 | true exactly when the course is not passed and has no groups or a fully passed group |

## Left out

- Characters are `int` codes in the task3 model. I/O (`getchar`,
  `putchar`, `putch`, `scanf`, `printf`, `cout`) becomes input sequences and
  returned strings.
- Capacities are not modelled. These are the 110-entry task3 tables, the
  8x8 `need` rows, the 10010-element task1 buffer and the character
  buffers. task2's `maxn` of 35 is kept, as the array size.
- 32-bit overflow of the running sums in task2 and task3, of `ReadInt`'s
  accumulation and of the front end's temporary counter `count_var` is not
  modelled. The counter is a `nat`, so temporaries never wrap around.
- The compiler's C semantics keeps undefined behaviour out by precondition.
  Folding requires every literal and every operation it performs to fit an
  `int` and never divide by zero (`FoldDefined`). The strict evaluation
  returns `None` in those cases.
- The C `now` name buffer of task3 is modelled as the name accumulated so
  far. In the C++ version `now[0]` holds the length as a `char`; that
  counter is not modelled.
- The group member counter `need[k][g][0]` is modelled as the length of
  the group's sequence.
- The `Prework` methods, in both versions, accept only lines the source
  reads in bounds (`WellFormedLine`). On other lines the source reads past
  its terminator.
- PlannerCpp.Registry.Prework: requires a non-empty line, because the C++
  program reads lines with `scanf("%s")`, which never yields an empty word.
- DecimalIo.ReadInt: requires a digit or `-` ahead (`HasNumberAhead`).
  When none is left, task1's skipping loop never ends: `getchar` returns
  EOF (-1), which is neither a digit nor `-`. `main` gets there whenever the
  input holds fewer than `n` numbers. The model does not capture this
  non-termination.
- IrEmitter.Emitter.EmitConstExp: requires that the parser has folded and
  cached the value, which the source states as a guarantee of parsing. The
  parser is not part of this model.
- MatMul.Multiply: task2's dimensions are only bounded above by `maxn`.
  Zero and negative dimensions are modelled and run no loop.
- DecimalIo.PrintInt: requires an `int` other than `INT_MIN`, because the
  source negates the value.
- PlannerC.Tables.PrintAttempted, PlannerC.Tables.PrintCompleted and
  PlannerC.Tables.PrintRemaining require the same of the printed sums.
- The `main` functions, C's `PrintLine` and the C++ `Debug` are not
  modelled; they only drive I/O.
- The C++ `PrintGPA` prints a `double` with `%.1f`. Floating point is not
  modelled.
- The AST's `PrintAST` methods are not modelled.
- The Koopa library's parsing of the IR text and its raw program
  structures are not modelled. The back end reads an explicit graph of
  instructions instead.
- The back end's diagnostics before each `assert(false)` (the `printf` of
  the unknown kind or operator) are not modelled; such a run ends as
  `Fatal`. A build with `NDEBUG`, where the assertion is compiled out and
  the run continues, is not modelled either.
- Visit_Slice's fatal default for slice kinds other than functions, basic
  blocks and instructions is not modelled.
- Parts of the repository are not part of this model:
  - `main.cpp` and `front_main.cpp`, which parse command-line options,
    call the parser and write files;
  - the lexer and parser;
  - the headers that only declare.
- The Koopa execution semantics (`Exec`) and the source-level run
  (`RunItems`) are reference definitions of this model. They state what
  the emitted code is meant to compute.
- Planner.SplitJoin: proves that joining the pieces restores the field. It
  does not state the reverse, splitting a join.
