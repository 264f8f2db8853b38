# PL/0 compiler and virtual machine — a Dafny model

This project models four parts of a small PL/0 compiler and its stack
machine:

- **Type system** (`Types`). The structural type tree `Integer | Array |
  Pointer` has a structural `==` and `!=`. `GetSize` gives the word count
  as a `uint32_t`. There are two builders: one for multi-level pointers and
  one for N-dimensional arrays.
- **Lexer** (`Lexer`). The scan of the source text into line-tagged
  tokens. Operators are matched longest first, `//` comments are skipped,
  words are classified as keywords or identifiers, digit runs become
  numbers, and every other character is skipped. The main property is a
  round trip: take a list of well-formed tokens that all sit on line 1 and
  render it with a blank between tokens; lexing that text gives the list
  back.
- **Front-end bookkeeping and linker**.
  - `CodeGenerator` models the token cursor (`GetNextTerminatorType` and
    `Match`). It models the per-procedure symbol table, where `AddVariable`
    checks for conflicts and assigns frame offsets. It models `const` and
    `var` declarations and their code, and the `Procedure`/`Program`
    driver.
  - `Linker` models the link half of `GenerateCode`. It lays out
    procedures contiguously in registry order, assigns their entry
    addresses and backpatches every recorded call with a `CAL`.
  - Procedures live in one registry, an arena `seq<Procedure>`. Parents,
    children and call ends are indices into it.
- **Virtual machine** (`VirtualMachine`).
  - The state holds PC, BP, SP, a stack of `int32_t` words, the program
    and the output.
  - `Step` is one iteration of `Run`. It fetches an instruction, executes
    the handler for its opcode, and increments the PC. The result is
    `Running`, `Halted` (return from the main frame) or `Failed`.
  - Activation records hold a dynamic link, a return address and a static
    link. `CAL` and `GetVariableAddress` follow static-link chains.

Machine integers are explicit:

- `u16`/`i16`/`u32`/`i32` are subset types. `ToU32` and `ToI32` are the
  wrap-around conversions of C++ unsigned arithmetic and of a cast to
  `int32_t`.
- `TruncDiv` and `TruncRem` are C++'s truncating `/` and `%`.

The `*Properties` modules hold the lemmas that relate the operations to
one another and to independent reference definitions.

## Model

| member | source | states |
|---|---|---|
| MachineInt.TruncDiv | Interpreter/Pl0VirtualMachine.cpp:106-110 | C++ division: the quotient's magnitude is the quotient of the magnitudes, and its sign is non-negative exactly when the operands' signs agree (truncation toward zero) |
| MachineInt.TruncRem | Interpreter/Pl0VirtualMachine.cpp:144-146 | C++ remainder: `a == q*b + r` with the truncated quotient, `|r| < |b|`, and a nonzero remainder has the dividend's sign |
| Types.EqualIsStructural | Compiler/Type.cpp:4-11 | the recursive `==` on types holds exactly when the two type trees are identical |
| Types.EqualIsEquivalence | Compiler/Type.cpp:4-16 | `!=` holds exactly when the types differ; `==` is reflexive, symmetric and transitive |
| Types.EqualByTag | Compiler/Type.cpp:6-9 | types with different tags are never equal; any two `Integer`s are equal; two arrays are equal iff their sizes match and their element types are equal; two pointers are equal iff their pointee types are equal |
| Types.GetSize | Compiler/Type.cpp:18-24 | the `uint32_t` size is the true word count reduced modulo 2^32, where the true count is 1 for `Integer` and `Pointer` and size times element size for `Array`; every non-array has size 1 |
| Types.BuildMultiLevelPointerType | Compiler/Type.cpp:26-35 | level 0 returns the inner type unchanged; a positive level returns a pointer, whose size is 1 |
| Types.PointerRoundTrip | Compiler/Type.cpp:26-35 | stripping `level` pointer layers from the result gives back the inner type: the builder wraps exactly `level` layers |
| Types.PointerLevelsAdd | Compiler/Type.cpp:26-35 | building `m` levels on top of `n` levels is the same as building `m + n` levels |
| Types.BuildNDimArrayType | Compiler/Type.cpp:37-48 | starting at the end of the dimension list returns the inner type; otherwise the outermost node is an array of size `dims[start]` |
| Types.ArrayRoundTrip | Compiler/Type.cpp:37-48 | for a non-array element type, the dimension list read back from the result is `dims[start..]` and its element type is the inner type |
| Types.ArrayRebuild | Compiler/Type.cpp:37-48 | every type equals the array built from its own dimension list and element type, so the builder reaches every type |
| Types.ArrayBuildShift | Compiler/Type.cpp:37-48 | building from index `|prefix|` of `prefix + dims` gives the same type as building from index 0 of `dims` |
| Types.ArraySizeIsProduct | Compiler/Type.cpp:18-48 | the true size of an N-dimensional array is the product of the dimensions from `start` on, times the element size |
| Types.IntegerArraySize | Compiler/Type.cpp:18-48 | `GetSize` of an N-dimensional `Integer` array is the product of its dimensions reduced modulo 2^32 |
| Types.IntegerArraySizeFits | Compiler/Type.cpp:18-48 | when the product of the dimensions fits in 32 bits, `GetSize` of the `Integer` array is exactly that product |
| Symbols.OffsetsDistinct | Compiler/CodeGenerator.cpp:75 | in a procedure whose i-th name sits at offset i+3, with fewer than 2^32-3 names, the offsets are pairwise distinct and exact |
| Lexer.RunEnd | Compiler/LexicalAnalyzer.cpp:107-110 | the digit or word run taken from a position is maximal: every character in it belongs to the class, and the character after it (if any) does not |
| Lexer.CommentEnd | Compiler/LexicalAnalyzer.cpp:89-92 | a comment runs up to, but not including, the next newline or the end of the input, and contains no newline |
| Lexer.DecimalRoundTrip | Compiler/LexicalAnalyzer.cpp:111 | the decimal value of the decimal spelling of `n` is `n` |
| Lexer.SingleCharSymbol | Compiler/LexicalAnalyzer.cpp:99-102 | each remaining start character of an operator is by itself one of the operator tokens |
| Lexer.ScanOne | Compiler/LexicalAnalyzer.cpp:48-136 | each iteration consumes at least one character; the line counter rises by one exactly on a newline; an emitted token carries the current line and is well formed |
| Lexer.LexFrom | Compiler/LexicalAnalyzer.cpp:43-137 | every token is well formed, no token's line is before the starting line, and token lines never decrease |
| LexerProperties.ScanOperators | Compiler/LexicalAnalyzer.cpp:52-102 | `:` scans as `:=` (2 characters) when `=` follows and is an error otherwise; `<` scans as `<>`, `<=` or `<` and `>` as `>=` or `>` (longest match); the other symbol characters and a lone `/` each scan as a one-character token |
| LexerProperties.ScanComment | Compiler/LexicalAnalyzer.cpp:86-93 | `//` emits no token, stays on the same line and resumes at the next newline (or the end) |
| LexerProperties.ScanNumber | Compiler/LexicalAnalyzer.cpp:105-112 | a maximal digit run scans as one `number` token holding its decimal value; the scan fails with `NumberTooLarge` exactly when that value exceeds `INT32_MAX` |
| LexerProperties.ScanWord | Compiler/LexicalAnalyzer.cpp:114-126 | a maximal word run is a token whose type is the word when it is a keyword, and otherwise `ident` carrying the word |
| LexerProperties.ScanSkips | Compiler/LexicalAnalyzer.cpp:128-135 | a character outside every class emits no token and advances by one; a newline also raises the line by one |
| LexerProperties.KeywordsAreWords | Compiler/LexicalAnalyzer.cpp:13 | every keyword is a lower-case word, so the word scan reaches it |
| LexerProperties.ScanBlank | Compiler/LexicalAnalyzer.cpp:133-135 | a space is skipped without a token and without changing the line |
| LexerProperties.ScanSymbol | Compiler/LexicalAnalyzer.cpp:52-102 | an operator token's spelling, followed by a blank, scans back as that token and consumes exactly its spelling |
| LexerProperties.ScanRenderedNumber | Compiler/LexicalAnalyzer.cpp:105-112 | the decimal spelling of a number token, followed by a blank, scans back as that token |
| LexerProperties.ScanRenderedWord | Compiler/LexicalAnalyzer.cpp:114-126 | the spelling of an identifier or keyword token, followed by a blank, scans back as that token |
| LexerProperties.ScanRendered | Compiler/LexicalAnalyzer.cpp:48-126 | any well-formed token spelt at a position scans back as that token, on the current line, consuming exactly its spelling |
| LexerProperties.LexRendered | Compiler/LexicalAnalyzer.cpp:43-137 | lexing a text that spells out well-formed tokens separated by blanks yields exactly those tokens, all on the current line |
| LexerProperties.LexRoundTrip | Compiler/LexicalAnalyzer.cpp:43-137 | for any list of well-formed tokens on line 1, lexing their blank-separated rendering gives back the list |
| Linker.Layout | Compiler/CodeGenerator.cpp:22-25 | the program is the concatenation of the procedures' code in registry order, and each procedure's address is the total length of the code before it (as `uint32_t`) |
| Linker.Backpatch | Compiler/CodeGenerator.cpp:27-31 | backpatching succeeds iff every call's write lands inside the program, and then gives the program with each call's `CAL` written in order; otherwise it names the first call whose write falls outside |
| Linker.Link | Compiler/CodeGenerator.cpp:21-31 | layout then backpatch: addresses as in the layout, success iff every write lands inside the program, the patched program, and the first bad call on failure |
| Linker.LinkAddressesAt | Compiler/CodeGenerator.cpp:22-25 | the registry with filled-in addresses gives procedure `i` the length of the code of procedures `0..i-1` |
| LinkerProperties.StartOfNext | Compiler/CodeGenerator.cpp:22-25 | the first procedure starts at 0, and each one starts where the previous one's code ends |
| LinkerProperties.StartOfMonotone | Compiler/CodeGenerator.cpp:22-25 | start addresses never decrease along the registry and never pass the program's end |
| LinkerProperties.FlattenIndex | Compiler/CodeGenerator.cpp:22-25 | instruction `off` of procedure `p` is found at `p`'s start plus `off` in the flat program |
| LinkerProperties.PatchKeeps | Compiler/CodeGenerator.cpp:27-31 | an instruction that no call names is left unchanged by backpatching |
| LinkerProperties.PatchWrites | Compiler/CodeGenerator.cpp:27-31 | the position written by call `k` ends up holding `k`'s `CAL` when no later call writes the same position (the last write wins) |
| LinkerProperties.ExactAddress | Compiler/CodeGenerator.cpp:23 | below 2^31 instructions, a procedure's `uint32_t` address is exactly its start |
| LinkerProperties.ExactLink | Compiler/CodeGenerator.cpp:27-30 | below 2^31 instructions, a call at a real offset of its procedure writes at that instruction's place in the flat program, with a `CAL` that carries the recorded level difference and targets the callee's start |
| LinkerProperties.LinkExact | Compiler/CodeGenerator.cpp:21-31 | a registry whose calls all name real instructions always links, into a program as long as all procedures together; each call's `CAL`, where no later call overwrites it, sits at its instruction's place and targets the callee's start |
| LinkerProperties.LinkKeeps | Compiler/CodeGenerator.cpp:21-31 | an instruction of a procedure that no call names is copied unchanged to its place in the linked program |
| CodeGenerator.NextType | Compiler/CodeGenerator.cpp:46-51 | peeking succeeds exactly while the cursor is inside the tokens and then gives the next token's type; at the end it fails with the last token's line, or with no line when there are no tokens |
| CodeGenerator.Match | Compiler/CodeGenerator.cpp:90-108 | matching succeeds exactly when the next token has the expected type, and then advances the cursor by one and yields the number (as `int32_t`) or name for `number`/`ident`; a type mismatch reports expected and found types and the line; the end of the input is an error |
| CodeGenerator.HasVariable | Compiler/CodeGenerator.cpp:58-62 | the duplicate search succeeds iff some variable of the procedure has the name |
| CodeGenerator.HasSubProcedure | Compiler/CodeGenerator.cpp:63-67 | the sub-procedure search succeeds iff some child of the procedure has the name |
| CodeGenerator.AddVariable | Compiler/CodeGenerator.cpp:53-76 | checks run in source order: duplicate variable, then sub-procedure name, then keyword, then the procedure's own name; it succeeds iff none applies, and then appends exactly one variable at offset (count + 3), leaving everything else unchanged |
| CodeGenerator.Emit | Compiler/CodeGenerator.cpp:144 | emission appends one instruction to one procedure and changes no other procedure |
| CodeGenerator.ConstItem | Compiler/CodeGenerator.cpp:138-144 | `ident = number` consumes three tokens, declares the name at the next offset, appends `LIT 0 n` and keeps names distinct |
| CodeGenerator.ConstItems | Compiler/CodeGenerator.cpp:137-153 | the const list adds at least one name, emits only `LIT 0 _` for them, consumes at least four tokens and keeps names distinct |
| CodeGenerator.ConstDeclare | Compiler/CodeGenerator.cpp:131-154 | a `const` declaration starts at a `const` token, consumes at least five tokens, only adds names with `LIT` code and keeps names distinct |
| CodeGenerator.VarItem | Compiler/CodeGenerator.cpp:162-166 | one identifier declares the name at the next offset and appends `INT 0 1` |
| CodeGenerator.VarItems | Compiler/CodeGenerator.cpp:161-175 | the var list adds at least one name, emits only `INT 0 1` for them, consumes at least two tokens and keeps names distinct |
| CodeGenerator.VarDeclare | Compiler/CodeGenerator.cpp:156-176 | a `var` declaration starts at a `var` token, consumes at least three tokens, only adds names with `INT 0 1` code and keeps names distinct |
| CodeGenerator.NamesKept | Compiler/CodeGenerator.cpp:53-76 | a successful `AddVariable` keeps the procedure's names pairwise distinct |
| CodeGenerator.Declarations | Compiler/CodeGenerator.cpp:110-129 | the declaration loop stops at a token that is not `const`/`var`/`procedure`; it only appends to the current procedure, keeps the frame layout (one instruction per name, the i-th name at offset i+3) and keeps names distinct |
| CodeGenerator.ProcedureBody | Compiler/CodeGenerator.cpp:110-129 | a failing declaration stops the procedure with its error; otherwise the statement parser runs once and its result is the procedure's. The state it receives has the cursor on the first token that is not `const`, `var` or `procedure`. Only the current procedure has changed, by appending names at offsets continuing the frame and as many instructions. The frame layout and distinct names are kept |
| CodeGenerator.Program | Compiler/CodeGenerator.cpp:78-108 | the program is accepted iff the main procedure is and the next token is `.`. The result is then the body's state with only the cursor moved past the `.`. Otherwise the error is the body's own, `Expected(".", found, line)` for another token, or the end-of-input error |
| CodeGenerator.GenerateCode | Compiler/CodeGenerator.cpp:14-32 | a parse error is passed through; tokens left after the `.` are an error at their line; otherwise linking succeeds iff every call writes inside the program, and gives the laid-out registry and the patched program, or else the first bad call |
| CodeGeneratorProperties.AddFresh | Compiler/CodeGenerator.cpp:53-76 | a name that is no variable, child, keyword or the procedure's name is accepted and appended at the next offset |
| CodeGeneratorProperties.VarItemFresh | Compiler/CodeGenerator.cpp:162-166 | a fresh identifier declares the name and appends `INT 0 1`, advancing by one token |
| CodeGeneratorProperties.ConstItemFresh | Compiler/CodeGenerator.cpp:138-144 | a fresh `ident = number` declares the name and appends `LIT 0 number`, advancing by three tokens |
| CodeGeneratorProperties.VarItemsRendered | Compiler/CodeGenerator.cpp:161-175 | for tokens spelling `a, b, …;` over fresh names, all on one line, the list succeeds. It consumes two tokens per name and adds exactly those names at consecutive offsets, with one `INT 0 1` per name |
| CodeGeneratorProperties.ConstItemsRendered | Compiler/CodeGenerator.cpp:137-153 | for tokens spelling `a = 1, b = 2, …;` over fresh names, all on one line, the list succeeds. It consumes four tokens per pair and adds exactly those names at consecutive offsets, with `LIT 0 v` per value in order |
| CodeGeneratorProperties.VarDeclareRendered | Compiler/CodeGenerator.cpp:156-176 | `var a, b, …;` with fresh names declares exactly those variables and emits one `INT 0 1` each |
| CodeGeneratorProperties.ConstDeclareRendered | Compiler/CodeGenerator.cpp:131-154 | `const a = 1, …;` with fresh names declares exactly those constants and emits their `LIT`s in order |
| CodeGeneratorProperties.VarRedeclared | Compiler/CodeGenerator.cpp:58-62 | a `var` declaration whose first name is already a variable fails with a duplicate-variable error at that token's line |
| CodeGeneratorProperties.VarListRepeats | Compiler/CodeGenerator.cpp:58-62 | `var x, x` fails with a duplicate-variable error on the tokens' line, even though `x` was fresh |
| CodeGeneratorProperties.MainOnlyConsistent | Compiler/CodeGenerator.cpp:78-85 | the registry holding only the fresh main procedure satisfies the frame layout and name-distinctness invariants |
| CodeGeneratorProperties.MainDeclarations | Compiler/CodeGenerator.cpp:78-129 | after the main program's declarations there is still one procedure and no call; main is nameless, at level 0 and has no parent; its i-th name is at offset i+3 with one instruction per name, and names are distinct |
| CodeGeneratorProperties.VarDeclareState | Compiler/CodeGenerator.cpp:156-176 | `var a, b, …;` over fresh names leaves exactly the input state, except for two changes. The cursor is past the `;`. The current procedure has gained those variables and one `INT 0 1` each |
| CodeGeneratorProperties.DeclarationsStop | Compiler/CodeGenerator.cpp:110-125 | at a token that is not `const`, `var` or `procedure`, the declaration loop ends at once and changes nothing |
| CodeGeneratorProperties.DeclarationsVar | Compiler/CodeGenerator.cpp:110-125 | an accepted `var` declaration followed by a token that starts no declaration is the whole declaration loop |
| CodeGeneratorProperties.VarBody | Compiler/CodeGenerator.cpp:110-129 | for a procedure `var a, b, …;` over fresh names, spelt on one line and followed by a statement, the procedure's result is the statement parser's result. The parser starts from the state with exactly those variables and their `INT 0 1`s, and its cursor on the token after the `;` |
| CodeGeneratorProperties.VarProgram | Compiler/CodeGenerator.cpp:78-129 | the program `var a, b, …; .`, with the declaration on one line and an empty statement, is accepted, with every token consumed. The registry holds main alone, with exactly those variables at offsets 3, 4, … and one `INT 0 1` each, and no call waits to be patched |
| VirtualMachine.Push | Interpreter/Pl0VirtualMachine.cpp:5-9 | a push succeeds iff SP is inside the stack; it writes only cell SP, raises SP by one and changes nothing else |
| VirtualMachine.Pop | Interpreter/Pl0VirtualMachine.cpp:11-15 | a pop lowers SP by one (in `uint32_t`) and yields the cell it then points to; it fails iff that cell is outside the stack |
| VirtualMachine.GetVariableAddress | Interpreter/Pl0VirtualMachine.cpp:17-25 | a non-negative level difference gives BP + offset; a level difference of -k follows k static links from BP and adds the offset; a link outside the stack is a fault |
| VirtualMachine.Step | Interpreter/Pl0VirtualMachine.cpp:233-290 | a PC past the program is a fault; halting leaves the state as it was and happens only on `RET`; an opcode above `LOA` is an unknown instruction; the program never changes |
| VirtualMachineProperties.PushThenPop | Interpreter/Pl0VirtualMachine.cpp:5-15 | a pop right after a push returns the pushed value and restores SP, with only cell SP written |
| VirtualMachineProperties.InitIsThreePushes | Interpreter/Pl0VirtualMachine.cpp:227-230 | the initial machine is the empty stack after three pushes of 0 |
| VirtualMachineProperties.MainFrameReturnHalts | Interpreter/Pl0VirtualMachine.cpp:153-160 | a `RET` in the initial main frame, whose seeded return address is 0, halts the machine |
| VirtualMachineProperties.RunSplit | Interpreter/Pl0VirtualMachine.cpp:233-290 | running `m + n` instructions is running `m` and then `n` more from wherever the machine is, unless it has already stopped |
| VirtualMachineProperties.ResumeSplit | Interpreter/Pl0VirtualMachine.cpp:237-289 | the dispatch loop composes for any step function and any starting outcome, including one that has already stopped |
| VirtualMachineProperties.StepINT | Interpreter/Pl0VirtualMachine.cpp:27-30 | `INT a` adds `a` to SP without touching memory and moves to the next instruction |
| VirtualMachineProperties.StepLIT | Interpreter/Pl0VirtualMachine.cpp:32-35 | `LIT a` pushes `a` |
| VirtualMachineProperties.StepLOD | Interpreter/Pl0VirtualMachine.cpp:37-41 | `LOD l a` pushes the word at the variable's address |
| VirtualMachineProperties.StepSTO | Interpreter/Pl0VirtualMachine.cpp:43-48 | `STO l a` pops the top word into the variable's address |
| VirtualMachineProperties.StepJMP | Interpreter/Pl0VirtualMachine.cpp:78-81 | after the dispatch increment, `JMP a` moves the PC by exactly `a` and changes nothing else |
| VirtualMachineProperties.StepJPC | Interpreter/Pl0VirtualMachine.cpp:83-88 | `JPC a` always pops one word; it moves the PC by `a` when the word is 0 and falls through to the next instruction otherwise |
| VirtualMachineProperties.StepBinaryOpr | Interpreter/Pl0VirtualMachine.cpp:92-143 | a binary `OPR` pops the right operand first and leaves the 32-bit wrap of the mathematical result of `left op right` in the left operand's cell (comparisons give 1 or 0, division truncates), so SP drops by one |
| VirtualMachineProperties.StepDivideByZero | Interpreter/Pl0VirtualMachine.cpp:106-110 | division by zero stops the machine with a fault |
| VirtualMachineProperties.StepUnaryOpr | Interpreter/Pl0VirtualMachine.cpp:111-146 | `Neg` replaces the top word with its wrapped negation and `Odd` with its truncated remainder mod 2, which is nonzero exactly when the word is odd; SP is unchanged |
| VirtualMachineProperties.StepUnknownOpr | Interpreter/Pl0VirtualMachine.cpp:147-150 | an `OPR` code outside 0..11 stops the machine with an unknown-operation fault |
| VirtualMachineProperties.StepRET | Interpreter/Pl0VirtualMachine.cpp:153-165 | `RET` with a nonzero return address sets SP to BP, BP to the saved dynamic link and the PC to the return address |
| VirtualMachineProperties.StepRETHalts | Interpreter/Pl0VirtualMachine.cpp:155-160 | `RET` with a zero return address halts |
| VirtualMachineProperties.StepLOR | Interpreter/Pl0VirtualMachine.cpp:167-171 | `LOR` replaces the top-of-stack address with the word it points to |
| VirtualMachineProperties.StepSTR | Interpreter/Pl0VirtualMachine.cpp:173-180 | `STR` pops the address, then the value, and writes only that cell; SP drops by two |
| VirtualMachineProperties.StepLBP | Interpreter/Pl0VirtualMachine.cpp:182-185 | `LBP` pushes BP |
| VirtualMachineProperties.StepWRT | Interpreter/Pl0VirtualMachine.cpp:187-190 | `WRT` pops the top word and appends it to the output |
| VirtualMachineProperties.StepLOA | Interpreter/Pl0VirtualMachine.cpp:192-196 | `LOA l a` pushes the variable's address without reading memory |
| VirtualMachineProperties.StepUnknownOpcode | Interpreter/Pl0VirtualMachine.cpp:283-285 | an opcode with no handler, including `RAN_N` and `RAN`, stops the machine with an unknown-instruction fault |
| VirtualMachineProperties.StepAdvances | Interpreter/Pl0VirtualMachine.cpp:288 | every instruction other than `CAL`, `JMP`, `JPC` and `RET` that keeps the machine running moves the PC to the next instruction |
| VirtualMachineProperties.OprKeepsPc | Interpreter/Pl0VirtualMachine.cpp:90-151 | no `OPR` handler touches the PC |
| VirtualMachineProperties.WalksAgree | Interpreter/Pl0VirtualMachine.cpp:17-25 | on a static-link chain that stays inside the stack, the `uint32_t` walk of `GetVariableAddress` and the `int32_t` walk of `CAL` reach the same frame |
| VirtualMachineProperties.ChainFrame | Interpreter/Pl0VirtualMachine.cpp:63-70 | writes above a chain's limit do not change where the static-link walk leads |
| VirtualMachineProperties.ChainSplit | Interpreter/Pl0VirtualMachine.cpp:63-70 | following `a + b` static links is following `a` links and then `b` more |
| VirtualMachineProperties.CallFrame | Interpreter/Pl0VirtualMachine.cpp:50-76 | `CAL l a` pushes the old BP, PC+1 and the static link, makes that header the new frame (BP = old SP, SP grows by 3) and continues at `a`; the static link is the caller's own static link for l=0, the caller's BP for l=1, and k+1 links up for l=-k |
| VirtualMachineProperties.CallExec | Interpreter/Pl0VirtualMachine.cpp:50-76 | the `CAL` handler builds the three-word header and sets the PC to `a - 1` before the dispatch increment |
| VirtualMachineProperties.CallThenReturn | Interpreter/Pl0VirtualMachine.cpp:153-165 | `CAL` to a `RET` restores BP and SP, resumes at the instruction after the call, and leaves the stack below SP and the output unchanged |
| VirtualMachineProperties.CalleeScopeChain | Interpreter/Pl0VirtualMachine.cpp:50-76 | in the new frame, following `j >= 1` static links reaches the frame that `LinkHops(l) + j - 1` links reach from the caller |
| VirtualMachineProperties.CalleeSeesEnclosingScope | Interpreter/Pl0VirtualMachine.cpp:17-25 | in the callee, level difference -1 addresses the same cell as the caller's level difference -LinkHops(l): level 0 for a call with l=1, and -1 for a call with l=0 |

## Left out

- File and console I/O. This covers reading the executable file and its size check in the VM constructor, `CodeGenerator::Output`, the lexer's constructor and `GetChar`, and both `main` functions. The lexer works on a `string`. The VM starts from a program `seq<Instr>`. `WRT` appends to an output sequence.
- The debug prints in `STO` and `STR`, and the "Program finished" banner, have no effect on the state and are not modelled.
- `Error` (Compiler/Utils.cpp) and the VM's `exit` calls are not process exits here.
  - In the compiler they become a `Failure` carrying the error.
  - In the VM, `exit(0)` becomes `Halted` and `exit(1)` becomes `Failed`.
- Unchecked accesses in the VM are undefined behaviour in C++. This covers a stack index outside the 1024×1024 words, a PC past the program, and reading the return address outside the stack. They become `Failed` outcomes with a fault naming the access.
- Compiler side, undefined behaviour and unfinished code:
  - When the compiler peeks past the end of an empty token list, `TerminatorSequence.back()` is undefined. It is modelled as `UnexpectedEnd(None)`.
  - A backpatch write outside the program is modelled as the `BadCall` error.
  - `Statement`, `FindVariable`, `FindSubProcedure` and `AddSubProcedure` are declared but not defined anywhere in the code. The statement parser is therefore a parameter of `ProcedureBody`, `Program` and `GenerateCode`. Call sites can only come from that parser, since the modelled declarations record none.
  - `ProcedureDeclare` is empty, so a `procedure` token would make the `Procedure` loop spin forever. `Declarations`, `ProcedureBody`, `Program` and `GenerateCode` require that no `procedure` token occurs from the cursor on.
- Integer width:
  - The compiler's token cursor is a `uint32_t` in the code and an unbounded `nat` here. Wrap-around after 2^32 tokens is not modelled.
  - Signed overflow in `Add`, `Sub`, `Mul` and `Neg` is undefined in C++. It is modelled as two's-complement wrap-around.
  - `INT32_MIN / -1` is modelled as a `DivisionFault`, like division by zero.
  - A digit run above `INT32_MAX` makes `std::stoi` throw. It is modelled as the `NumberTooLarge` error.
- VirtualMachineProperties.StepBinaryOpr: does not cover division by zero or `INT32_MIN / -1`. Both stop the machine with `DivisionFault`; `StepDivideByZero` states the first.
- VirtualMachineProperties.CallFrame: requires the static links the call follows to lie below SP and the new header to fit on the stack. Other calls reach an undefined access in C++ and fail in the model.
- Types.PointerLevelsAdd: requires `m + n` to fit in `uint32_t`, the type of the level parameter.
- CodeGeneratorProperties.VarItemsRendered, ConstItemsRendered, VarDeclareRendered, ConstDeclareRendered, VarBody and VarProgram: the declaration they describe is spelt on one line. The declaration code reads only kinds, names and values, and a line appears only in errors, so a list spread over several lines builds the same state.
- Where the code and the language description differ, the code is followed:
  - Characters outside every class are skipped, not rejected.
  - There is no `print` keyword.
  - The main procedure's name is the empty string. A header comment says "main", but the code never sets it.
  - A `CAL` with level difference 2 or more falls through to the one-hop case, so it behaves like level difference 0.
- `Compiler/Intruction.h` is an older duplicate of the opcode table. The opcodes come from `Shared/Instruction.h`.
