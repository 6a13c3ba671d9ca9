# Verified models of the bootstrap tools

This project models the algorithmic cores of four programs in `programs/` (awk, the C compiler chibicc, bash and bc4linux) and
proves what they are for. Each model follows the source branch by branch; programs that change state are written as Dafny classes
and methods with loops, and are proved against specification functions whose own properties are proved as lemmas.

* **awk compiler and virtual machine** (`awk_syntax` ... `awk_interp`, `awk_precedence`, `awk_values`, `awk_typed`, `awk_laws`).
  The one-pass recursive-descent compiler of `awk.c` reads a token list and emits back-patched zcode; the stack machine runs it.
  The main results: the parser consumes exactly the text of a tree, with parentheses only where the groups of operators demand
  them and with newlines wherever the language allows them, and emits exactly that tree's code; running the code computes the tree's big-step meaning, including
  recursive function calls with too few or too many arguments; and a whole program (BEGIN rules chained by back-patched jumps, and
  functions, in any order) stops exactly when its meaning is defined, with exactly those global variables and an unchanged stack
  depth. It never reaches an unimplemented opcode, a bad jump or a stack slot that is not there. Variables that may yet turn out
  to be arrays are values of their own: where one is compared it counts as text, so that `g(x)` may differ from `x; g(x)`.
  Divergence is covered: if the meaning needs more than n iterations and calls, at least n instructions run.
* **awk arrays** (`awk_probe`, `awk_map`, `awk_zmap`). Perturbed probing visits every cell, a fact the source only quotes: it is
  proved for every table size from the orbit of j -> 5 j + 1. The hash table with deletion markers refines a finite map under
  insertion, lookup, deletion, clearing and rehashing, and a `for (k in a)` scan visits every key once, in insertion order.
* **awk substitution** (`awk_gsub`, `awk_gsub_laws`). The second pass of `gsub` never writes past the size computed by the first,
  and builds the unmatched pieces interleaved with the expanded replacements; what that comes to is told for letters, runs of
  letters, and the beginning and end of the string, for every string and every replacement.
* **awk UTF-8** (`awk_utf8`). Decoding inverts encoding on all Unicode scalar values; exactly the well-formed sequences are
  accepted, so no overlong forms and no surrogates; for any bytes the prefix of n characters has min(n, count) characters, and
  `substr` yields the clamped slice of the characters.
* **chibicc preprocessor** (`cpp_*`). Object-like macro expansion ends for every macro table, is idempotent and equals replacement
  in which a macro is not replaced inside its own expansion; and the loop with its stack of conditionals computes the recursive
  selection of the first true group, exactly if a stated condition on the text holds. The condition is needed: a line of text that
  ends in a macro that expands to nothing swallows the directive on the next line.
* **chibicc hash map** (`cc_table`, `cc_hashmap`). Linear probing never runs off the end, rehashing never recurses, and the map
  refines a finite map as long as no insertion stops at a tombstone before the key's own entry; when one does, deleting the key
  brings its old value back, and a later rehash fails its assertion.
* **chibicc code generator for integers** (`cc_int`, `cc_laws`, `cc_machine`, `cc_gen`, `cc_values`, `cc_expr`, `cc_labels`, `cc_flow`,
  `cc_stmt`, `cc_body`, `cc_codegen`). Every operator is told in numbers, with the widths written out. The compiler inserts the conversions of C11 without changing what a program means, and the
  code it then generates for a function of 32- and 64-bit integer variables, with all operators, assignments in expressions and
  all structured statements, runs on a machine with registers, byte memory and flags to exactly the function's result; it stops if
  and only if the function finishes. All labels are distinct and every push is undone.
* **chibicc calling convention** (`cc_align`, `cc_abi`, `cc_call`, `cc_arggen`). Four loops in the source, two in the caller and
  two in the callee, decide with different counters where an argument goes. They agree for every list of integers, floating-point
  numbers, long doubles and structs of more than 16 bytes, with or without a hidden buffer for the result; in calls nested to any
  depth every parameter receives its own argument, and the stack is aligned to 16 bytes at every call.
* **chibicc structs and bit-fields** (`cc_struct`, `cc_packing`, `cc_bitfield`, `cc_members`). Members are disjoint, aligned and
  packed as tightly as that permits, a bit-field stays in one storage unit inside the struct, and the generated load and store
  read back what was assigned and keep all other members. For fields of 32 bits and more the store's mask is an operand that no
  instruction can have; the condition is stated exactly.
* **bash pipelines** (`bash_pipes`). For every command line and every pattern of failing opens: each command reads from and writes
  to what the line says, each pipe end has one holder, a child keeps nothing else open, and the shell ends with exactly the
  descriptors it began with.
* **bc4linux** (`bc_exact`, `bc_timeconst`). Multiplying by the generated constant and shifting divides exactly, rounding down or
  up, for every argument in the promised range; for HZ from 2 to 2000000 the last of the eight constants does so exactly if HZ *
  gcd(HZ, 10^6) >= 122, and otherwise some argument in the range is rounded wrongly.

Characters are bytes without a sign, as the build line of `programs/awk.c` (line 3, `-funsigned-char`) makes them. Where code and
comments disagree, the model follows the code. `count` in the awk array is documented as the number of occupied slots of the hash
(`programs/awk.c:462`), but counts appended slots: an insertion that reuses a deletion marker raises it without occupying another
cell. `skip_line` (`programs/chibicc.c:6606-6614`) is documented to skip extra tokens, but its loop never runs, so they stay in
the text. A `#` that is followed by a line end is documented as a null directive, but the word that follows on the next line is
taken as its directive name. Mutations of linked token lists, hash buckets, slots and stacks are modelled as fields holding
sequences or arrays.

## Model

| member | source | states |
|---|---|---|
| AwkCompiler.Compiler.constructor | programs/awk.c:1495-1506 | compilation starts at the first token, with one dummy cell and one dummy literal, so that no offset is zero, and with nothing marked |
| AwkCompiler.Compiler.Scan | programs/awk.c:1352-1359 | moves to the next token and remembers the kind of the last one; nothing else changes |
| AwkCompiler.Compiler.Havetok | programs/awk.c:1381-1385 | consumes the current token exactly if it is the one asked for |
| AwkCompiler.Compiler.Expect | programs/awk.c:1605-1614 | an expected token that is there is consumed; newlines may be left to be ignored behind it |
| AwkCompiler.Compiler.Gencd | programs/awk.c:1393-1395 | appends one cell and remembers its position |
| AwkCompiler.Compiler.Gen2cd | programs/awk.c:1388-1391 | appends an instruction and its operand |
| AwkCompiler.Compiler.MakeLiteral | programs/awk.c:1414-1417 | appends a number to the literal table and yields its position |
| AwkCompiler.Compiler.OptionalNl | programs/awk.c:1628-1630 | skips exactly the newlines at the cursor, also one that separates two statements |
| AwkCompiler.Compiler.HaveComma | programs/awk.c:1637-1641 | consumes a comma and all newlines behind it exactly if there is one |
| AwkCompiler.Compiler.ConvertPushToReference | programs/awk.c:1910-1931 | turns the last push of a variable into a push of a reference to it, in place |
| AwkCompiler.Compiler.VarRef | programs/awk.c:1826-1847 | a variable is marked as a scalar and compiled to a push of its value |
| AwkCompiler.Compiler.CheckSetScalar | programs/awk.c:1654-1661 | marks the variable as a scalar, and no other |
| AwkCompiler.Compiler.LoneArgument | programs/awk.c:1808-1814 | a variable that is a whole argument is pushed without being marked, as it may yet be an array |
| AwkCompiler.Compiler.Primary | programs/awk.c:1933-2066 | an operand is consumed exactly, its code and literals are emitted, and -1 is returned exactly for a bare variable |
| AwkCompiler.Compiler.FunctionCall | programs/awk.c:1774-1824 | a call consumes its text and emits frame preparation, arguments from left to right, and the call with their number; it marks what its arguments use other than by passing it on |
| AwkCompiler.Compiler.BinaryOp | programs/awk.c:2068-2132 | an operator and its right operand extend the code of the tree climbed so far; jump distances are patched to the end of the operand |
| AwkCompiler.Compiler.Assignment | programs/awk.c:2182-2187 | the pushed target becomes a reference, the right side is compiled right-associatively, and the assignment follows |
| AwkCompiler.Compiler.Expr | programs/awk.c:2145-2198 | precedence climbing at any binding power consumes exactly the minimally parenthesised text of any tree, emits exactly the code of that tree, and marks exactly the variables it uses as scalars |
| AwkPrecedence.Grouping | programs/awk.c:1528-1575 | the text that the parser takes for a tree, told by its binding powers, is the one that the groups of operators call for: the or operator, `&&`, comparisons, `+ -`, `* / %`, prefix operators, `^`, from the loosest to the tightest; for every tree, with no parentheses too few or too many |
| AwkPrecedence.Chain | programs/awk.c:1528-1575 | `a op1 b op2 c` is grouped by the tighter operator, and to the left in one group, except for `^` |
| AwkPrecedence.PrefixChain | programs/awk.c:2001-2011 | a prefix operator takes in `^` and nothing else, and may stand to the right of any operator |
| AwkPrecedence.CondChain | programs/awk.c:1570-1575 | `?:` is looser than these operators, and groups to the right |
| AwkPrecedence.AsgnChain | programs/awk.c:2180-2185 | assignment groups to the right, and its right side needs no parentheses, whatever it is |
| AwkPrecedence.AsgnInside | programs/awk.c:2171-2185 | to the right of a comparison or a logical operator an assignment needs no parentheses; to the right of arithmetic it does |
| AwkStatements.SimpleStmt | programs/awk.c:2252-2280 | an expression statement drops the value it computes, whether a semicolon, a newline, a brace or a parenthesis follows |
| AwkStatements.Rparen | programs/awk.c:1632-1635 | a right parenthesis is consumed with all newlines behind it, also where one of them separates two statements |
| AwkStatements.IfStmt | programs/awk.c:2282-2315 | `if` with or without `else`: the text is consumed, with the separators looked past for the `else`, and both jumps end up at the right places |
| AwkStatements.WhileStmt | programs/awk.c:2317-2333 | a `while` loop is compiled with its exit and back jumps; the enclosing break and continue targets are restored |
| AwkStatements.DoStmt | programs/awk.c:2335-2364 | a `do` loop is compiled with its three-jump head patched afterwards |
| AwkStatements.ForNotMapIter | programs/awk.c:2366-2394 | a three-clause `for`, any clause of which may be missing, is compiled with condition, increment and body in the source's order |
| AwkStatements.ForStmt | programs/awk.c:2396-2438 | a `for` with parenthesis after it is compiled as a three-clause loop |
| AwkStatements.ReturnStmt | programs/awk.c:2482-2491 | `return` with or without a value is compiled with the number of parameters of the function |
| AwkStatements.BreakStmt | programs/awk.c:2445-2451 | `break` jumps to the innermost loop's exit |
| AwkStatements.ContinueStmt | programs/awk.c:2453-2459 | `continue` jumps to the innermost loop's continuation |
| AwkStatements.Stmt | programs/awk.c:2440-2526 | every legally placed statement, however laid out, consumes exactly its text and emits exactly its code and literals, leaving the loop context as it was; its separator is consumed exactly where an open `if` or a `do` loop ends it; exactly the variables it uses as scalars are marked |
| AwkStatements.OptionalNlOrSemi | programs/awk.c:1624-1626 | skips exactly the newlines and semicolons at the current position |
| AwkStatements.Action | programs/awk.c:2595-2621 | a braced block, whatever newlines and empty statements it holds and with or without a separator at its end, consumes its text and emits the code of its statements |
| AwkProgram.BeginRule | programs/awk.c:2634-2646 | a BEGIN rule is laid out after the code so far, and the jump left open by the previous BEGIN rule is made to lead to it |
| AwkProgram.Parameters | programs/awk.c:2566-2574 | a parameter list of any length is consumed and counted |
| AwkProgram.FunctionDef | programs/awk.c:2542-2593 | a function definition is laid out and entered in the function table, with those of its parameters that are marked, which are unmarked for the next function; earlier functions and rules stay in place |
| AwkProgram.Rule | programs/awk.c:2623-2672 | either kind of item extends the layout of the program |
| AwkCompile.Compile | programs/awk.c:2720-2744 | for any program text, however laid out, the finished code holds every function and the chain of BEGIN rules, the last of which quits, and exactly the variables that are used as scalars anywhere are marked |
| AwkCompile.TokenByToken | programs/awk.c:1365-1366 | every printed text is a layout of itself, so that the theorems about layouts cover it |
| AwkCompile.ExtraNewline | programs/awk.c:1365-1366 | a layout stays one with a further newline behind every token that is not followed tightly |
| AwkCompile.NewlineBehind | programs/awk.c:1365-1366 | the tokens behind which a newline may stand, one by one: `,`, `{`, `}`, `&&`, the or operator, `do`, `else`, the parenthesis after the condition of an `if` or `while`, and a separator |
| AwkLayout.DestIrrelevant | programs/awk.c:2440-2526 | code of a statement that cannot jump outwards does not depend on jump targets left over from elsewhere |
| AwkEffects.SlotLookup | programs/awk.c:4282-4287 | a variable's slot number, negative for a parameter, addresses the stack slot that holds the variable, and writing there changes that variable only |
| AwkFrames.EnterRun | programs/awk.c:4137-4175 | a call and the function's prologue reach the body with parameters filled in order, surplus arguments dropped, and missing ones uninitialised where the function uses them as scalars and possible arrays elsewhere |
| AwkFrames.ReturnRun | programs/awk.c:4177-4196 | a return restores the caller's ip, parmbase and stack, with exactly one more value on top |
| AwkCorrect.SimE | programs/awk.c:3829-4340 | running an expression's code yields its value on top of an otherwise unchanged stack, the globals and parameters of its meaning, and ends just after the code; if the meaning needs more than fuel iterations and calls, at least fuel instructions run; values are numbers, uninitialised scalars or variables that may yet be arrays |
| AwkCorrect.SimLogic | programs/awk.c:4304-4318 | `&&` and `\|\|` evaluate the right side only when needed, and yield 0 or 1 |
| AwkCorrect.SimCond | programs/awk.c:4325-4340 | the conditional expression evaluates exactly one of its branches |
| AwkCorrect.SimAsgn | programs/awk.c:3984-4035 | assignment and compound assignment store and yield the new value |
| AwkCorrect.SimIncDec | programs/awk.c:4037-4066 | pre- and post-increment and decrement store the new value and yield the new or the old one |
| AwkCorrect.SimCall | programs/awk.c:4137-4215 | a call, recursive or not, computes the function's meaning on a fresh frame and leaves exactly the result |
| AwkCorrect.SimS | programs/awk.c:3829-4340 | running a statement's code computes its meaning with the stack depth unchanged, ending after the code, at the break or continue target, or at a return instruction |
| AwkCorrect.SimWhile | programs/awk.c:2317-2333 | the compiled `while` loop computes the iterated meaning |
| AwkCorrect.SimDo | programs/awk.c:2335-2364 | the compiled `do` loop runs its body before each test |
| AwkCorrect.SimFor | programs/awk.c:2366-2394 | the compiled `for` loop computes the meaning of its clauses, `continue` leading to the increment |
| AwkCorrect.SimB | programs/awk.c:2595-2621 | a block computes the meaning of its statements in order |
| AwkEscape.NoEscapeB | programs/awk.c:2445-2459 | legally placed statements never break or continue out of a rule or function, nor return outside a function |
| AwkRun.MeaningRuns | programs/awk.c:4803-4812 | from the initial stack the finished program stops with the globals of its meaning, or runs at least as long as the meaning was followed |
| AwkRun.StopsIffDefined | programs/awk.c:4666-4677 | the program stops with given globals if and only if its meaning is defined with those globals; the stack is otherwise unchanged |
| AwkRun.NeverFaults | programs/awk.c:4649-4657 | no run reaches an unimplemented opcode, a jump out of the code or a missing stack slot |
| AwkRun.CompileAndRun | programs/awk.c:4803-4812 | compiling a program text and interpreting the code leaves the special variables as they were and the globals as the trees' meaning says; globals start as uninitialised scalars or as possible arrays, as the compiler has marked them |
| AwkTyped.ExecTyped | programs/awk.c:2810-2816 | in a program whose functions use each of their parameters as a scalar, a statement started on scalars leaves only scalars and returns one |
| AwkTyped.MeaningTyped | programs/awk.c:4736-4764 | if every variable and every parameter is used as a scalar somewhere in its scope, all variables are scalars from beginning to end |
| AwkValues.ScalarsCompare | programs/awk.c:3894-3968 | scalars, initialised or not, compare as numbers do, provided that zeros compare as equal |
| AwkLaws.CompoundAssignment | programs/awk.c:3984-4019 | `x op= e` does what `x = x op e` does, for each of the six operators, whenever e leaves x unchanged |
| AwkLaws.StepFirst | programs/awk.c:4037-4061 | `++x` does what `x = x + 1` does, and `--x` what `x = x + -1` does |
| AwkLaws.StepAfter | programs/awk.c:4037-4061 | `x++` leaves what `++x` leaves, and yields that less the step |
| AwkLaws.MinusOne | programs/awk.c:4050-4060 | one and minus one as doubles: the same bits but for the sign |
| AwkLaws.ArithmeticOf | programs/awk.c:3854-3880 | each arithmetic operator is applied to the numbers of its operands, the left one first; what has not been assigned to counts as zero |
| AwkLaws.SignOf | programs/awk.c:2001-2011 | minus negates once, plus twice |
| AwkLaws.NumbersCompare | programs/awk.c:3918-3944 | numbers are compared by the operator's own comparison, the left one first, and an uninitialised scalar counts as zero |
| AwkLaws.TextsCompare | programs/awk.c:3945-3964 | without a number all texts are equal, and the text of a number is greater than that of a variable that may yet be an array, operator by operator |
| AwkLaws.ComparisonOf | programs/awk.c:3915-3968 | a comparison yields one or zero |
| AwkLaws.ChoiceOf | programs/awk.c:4325-4332 | a condition chooses by the truth of its number; what has not been assigned to is false |
| AwkLaws.NotIsChoice | programs/awk.c:3841-3843 | `!e` is `e ? 0 : 1` |
| AwkLaws.LogicIsChoice | programs/awk.c:4304-4318 | `l && r` is `l ? (r ? 1 : 0) : 0`, and the or operator likewise |
| AwkLaws.AssignedIsScalar | programs/awk.c:4025-4035 | an assignment yields what it stores, stores a scalar, and changes no other variable |
| AwkTyped.BareArgument | programs/awk.c:3915-3964 | a program in which a variable occurs only as an argument: the function compares it with 0 as text, and the result is 0 whatever comparison of numbers is |
| AwkTyped.AlsoScalar | programs/awk.c:3915-3964 | the same program with one more use of that variable: now it is compared as the number zero |
| AwkInterp.Vm.GetSetLogical | programs/awk.c:3186-3198 | replaces the value on top of the stack by its truth value and returns that |
| AwkInterp.Vm.Unary | programs/awk.c:3845-3855 | `!`, the double negation and unary minus, in place on the top of the stack |
| AwkInterp.Vm.Binary | programs/awk.c:3854-3968 | arithmetic and comparison of the two topmost values: as numbers if one is a number and the other is a number or an uninitialised scalar, and otherwise as strings |
| AwkInterp.Vm.Assign | programs/awk.c:3984-4035 | assignment through the reference below the value, which becomes a scalar |
| AwkInterp.Vm.Increment | programs/awk.c:4037-4066 | increments through the reference on top of the stack |
| AwkInterp.Vm.Test | programs/awk.c:4304-4332 | conditional jumps |
| AwkInterp.Vm.CallFunction | programs/awk.c:4206-4213 | records return address and argument count in the frame and jumps |
| AwkInterp.Vm.EnterFunction | programs/awk.c:4134-4171 | saves and sets parmbase; a loop drops surplus arguments, another pushes missing ones, each as its function uses it |
| AwkInterp.Vm.ReturnFromFunction | programs/awk.c:4173-4192 | the result becomes a scalar and replaces the frame, which is dropped slot by slot |
| AwkInterp.Vm.Instruction | programs/awk.c:3840-4340 | one instruction, in place, is one step of the abstract machine |
| AwkInterp.Vm.Interpx | programs/awk.c:3829-3843 | the interpreter loop ends in the state in which the abstract run ends |
| AwkProbe.IterateSum | programs/awk.c:889-892 | n steps of j -> 5 j + 1 in closed form |
| AwkProbe.SumDivides | programs/awk.c:889-893 | 2^k divides the n-th orbit element of zero if and only if it divides n |
| AwkProbe.CycleOnce | programs/awk.c:889-893 | two iterates agree modulo 2^k if and only if their numbers do, so within 2^k steps no cell repeats |
| AwkProbe.CycleReaches | programs/awk.c:889-893 | from any start every cell is reached within 2^k steps |
| AwkProbe.PerturbGone | programs/awk.c:895-898 | a 32-bit hash is shifted away after seven probes |
| AwkProbe.ProbeReaches | programs/awk.c:877-905 | probing for any hash visits every cell within table size plus six probes |
| AwkProbe.WrapHarmless | programs/awk.c:898 | wrapping at 32 bits before masking makes no difference |
| AwkMap.ZstringHash | programs/awk.c:867-873 | the djb2 hash in 32-bit arithmetic |
| AwkMap.ContentsStore | programs/awk.c:3228-3231 | assigning through a slot changes the value of that key only |
| AwkMap.ContentsRemove | programs/awk.c:986-994 | clearing a slot's key removes that key only |
| AwkMap.LiveSize | programs/awk.c:4573-4574 | the number of live slots is the size of the map |
| AwkMap.KeysOnce | programs/awk.c:4262-4281 | the keys in slot order are the keys of the map, each once |
| AwkMap.KeysInOrder | programs/awk.c:4262-4281 | each key is listed behind as many as there are live slots before its own, so in the order of insertion |
| AwkZMap.UnusedReached | programs/awk.c:877-905 | a table with an unused cell has one on every probe path |
| AwkZMap.Absent | programs/awk.c:877-905 | a search that ends at an unused cell proves the key absent |
| AwkZMap.TableInsert | programs/awk.c:979-985 | entering a slot at the cell where the search may end keeps every key findable and unique |
| AwkZMap.TableRemove | programs/awk.c:990-993 | marking a cell deleted keeps every other key findable |
| AwkZMap.MovedAll | programs/awk.c:944-966 | the rebuilt table serves exactly the same slots and uses no more cells |
| AwkZMap.ZMap.Init | programs/awk.c:912-921 | an empty map with eight cells and limit six |
| AwkZMap.ZMap.DeleteMap | programs/awk.c:939-942 | clearing yields the empty map |
| AwkZMap.ZMap.FindMapslot | programs/awk.c:877-905 | the search ends; it finds the key's slot and cell, or else the key is absent and the cell returned is free and on the probe path |
| AwkZMap.ZMap.Find | programs/awk.c:907-911 | lookup in the finite map |
| AwkZMap.ZMap.Rehash | programs/awk.c:944-966 | doubling keeps the map and leaves room |
| AwkZMap.ZMap.FindOrInsertKey | programs/awk.c:968-985 | the key's slot; a new key is appended with an empty value and nothing else changes |
| AwkZMap.ZMap.SetValue | programs/awk.c:3228-3231 | stores a value for a key |
| AwkZMap.ZMap.Delete | programs/awk.c:986-994 | removes the key from the map, if present |
| AwkZMap.ZMap.Length | programs/awk.c:4573-4574 | count minus deleted is the size of the map |
| AwkZMap.ZMap.MapIterNext | programs/awk.c:4262-4272 | moves to the next live slot |
| AwkZMap.ZMap.Scan | programs/awk.c:4262-4281 | a scan visits every key exactly once, in slot order |
| AwkZMap.StableKeyVisited | programs/awk.c:4262-4281 | whatever the loop body does to the array, a key that keeps its slot is visited |
| AwkZMap.SlotsVisitedOnce | programs/awk.c:4262-4281 | no slot is visited twice |
| AwkGsub.Measure | programs/awk.c:3741-3756 | the first pass ends and adds up the growth for every match it meets |
| AwkGsub.SizeEnough | programs/awk.c:3741-3790 | the size counted suffices although escaped ampersands are counted and empty matches may be skipped |
| AwkGsub.ReplacedApart | programs/awk.c:3761-3762 | replaced matches are in order, do not overlap, and an empty one never touches the one before |
| AwkGsub.ExpandBound | programs/awk.c:3764-3785 | a replacement takes at most its own length and one copy of the match per ampersand |
| AwkGsub.BackslashRun | programs/awk.c:3768-3782 | what an ampersand after a run of n backslashes stands for, for every n |
| AwkGsub.BackslashPiece | programs/awk.c:3768-3782 | the escapes starting with a backslash |
| AwkGsub.CopyReplacement | programs/awk.c:3764-3785 | the replacement is written within its bound |
| AwkGsub.Gsub | programs/awk.c:3731-3806 | no write is out of bounds; the result is the unmatched pieces with the replaced matches expanded, and their number is returned |
| AwkGsubLaws.PlainText | programs/awk.c:3783-3784 | text without ampersands and backslashes stands for itself wherever it is in a replacement |
| AwkGsubLaws.Ampersand | programs/awk.c:3765-3767 | an ampersand stands for the match |
| AwkGsubLaws.PlainSlashes | programs/awk.c:3768-3782 | any number of backslashes that no ampersand follows stands for itself |
| AwkGsubLaws.LetterEverywhere | programs/awk.c:3731-3806 | for a letter as the regular expression, every occurrence of it is replaced, and nothing else |
| AwkGsubLaws.LetterByText | programs/awk.c:3731-3806 | ... by the replacement itself if that has no special characters |
| AwkGsubLaws.LetterOnce | programs/awk.c:3790 | `sub` replaces the first occurrence only |
| AwkGsubLaws.StartOnce | programs/awk.c:3791 | the beginning of the string is found once, as later searches are told that they are not there |
| AwkGsubLaws.EndOnce | programs/awk.c:3761-3762 | the end of the string is replaced once, although it is found twice |
| AwkGsubLaws.RunsEverywhere | programs/awk.c:3731-3806 | for any number of a letter as the regular expression, each run of it is replaced once, and the empty string wherever no run has just ended |
| CppExpand.BodyRank | programs/chibicc.c:6533-6545 | expanding a macro leaves fewer macros to expand: the reason why expansion ends |
| CppExpand.Idempotent | programs/chibicc.c:7172-7197 | expanding a result again changes nothing |
| CppExpand.FromReplaced | programs/chibicc.c:7172-7197 | hidesets realise replacement in which no macro is replaced inside its own replacement |
| CppExpand.ExpandCat | programs/chibicc.c:7404-7420 | a list expands piece by piece |
| CppExpand.FirstPosition | programs/chibicc.c:7189-7197 | what is output first takes over the line start and white space of the first token, through macros that expand to nothing |
| CppStep.TextExpands | programs/chibicc.c:7404-7420 | for every macro table and every text without `#`, the worklist loop ends with the recursive expansion |
| CppStep.RunText | programs/chibicc.c:7404-7420 | the loop replaces text by its expansion whatever follows, and leaves its last position mark on the next token |
| CppStep.RunExtends | programs/chibicc.c:7416-7419 | output is only appended to |
| CppTree.SkipFlat | programs/chibicc.c:6689-6722 | skipping passes over whole groups, with everything nested in them |
| CppTree.SkipRest | programs/chibicc.c:6689-6722 | skipping stops at the `#elif`, `#else` or `#endif` of its own level, and skips a nested conditional to its end |
| CppCorrect.LeaveRest | programs/chibicc.c:7501-7531 | after an included group the remaining groups are passed over without evaluating their conditions, and the stack is popped |
| CppCorrect.RunGroup | programs/chibicc.c:7476-7531 | an included group computes its meaning, and the stack returns to what it was |
| CppCorrect.RunRest | programs/chibicc.c:7501-7531 | a conditional whose groups were not included so far selects the first true one |
| CppCorrect.RunItems | programs/chibicc.c:7404-7531 | items in a row compute their meaning if all directives are kept, and otherwise output a `#` or misread a definition |
| CppMain.PreprocessIff | programs/chibicc.c:7404-7531 | a translation unit is preprocessed to its meaning if and only if every directive is kept |
| CppMain.FailureReported | programs/chibicc.c:6788-6823 | an error in an expression that has to be evaluated is reported |
| CppMain.LineKeepsNext | programs/chibicc.c:7189-7197 | a line of text keeps the directive after it if and only if it expands to nothing or does not end in a macro that expands to nothing |
| CppMain.DirectiveLost | programs/chibicc.c:7194 | with E defined as nothing, the line `x E` makes `#undef E` after it come out as text |
| CppMain.DefinitionMisread | programs/chibicc.c:6898 | an empty definition followed by a line that starts with an unspaced parenthesis is taken for a function-like one |
| CppMachine.AddHideset | programs/chibicc.c:6663-6673 | every token of a body gets the hideset |
| CppMachine.SkipCondIncl2 | programs/chibicc.c:6689-6702 | skips to the end of a nested conditional |
| CppMachine.SkipCondIncl | programs/chibicc.c:6704-6722 | skips to the next continuation of this level |
| CppMachine.CopyLine | programs/chibicc.c:6753-6763 | splits off the rest of the line |
| CppMachine.Preprocessor.ExpandMacro | programs/chibicc.c:7172-7197 | replaces an expandable token by its body in place, handing its position to whatever comes first |
| CppMachine.Preprocessor.PushCondIncl | programs/chibicc.c:6825-6833 | opens a conditional |
| CppMachine.Preprocessor.ReadMacroDefinition | programs/chibicc.c:6893-6913 | an object-like definition takes the rest of its line |
| CppMachine.Preprocessor.RunElif | programs/chibicc.c:7501-7511 | `#elif` evaluates its expression only if no group was included |
| CppMachine.Preprocessor.RunDirective | programs/chibicc.c:7423-7564 | one directive, in place |
| CppMachine.Preprocessor.Preprocess2 | programs/chibicc.c:7404-7568 | the loop ends in the state in which the abstract run ends |
| CppMachine.Preprocess | programs/chibicc.c:7404-7568 | a unit whose directives are kept yields the words and macros of its meaning |
| CcTable.WrapHarmless | programs/chibicc.c:2917 | wrapping the 64-bit sum makes no difference for a power-of-two capacity |
| CcTable.FindNone | programs/chibicc.c:2911-2924 | a search finds nothing if and only if there is no entry |
| CcTable.PutGet | programs/chibicc.c:2926-2958 | after an insertion the key has the new value |
| CcTable.PutOthers | programs/chibicc.c:2926-2958 | an insertion leaves the values of other keys alone |
| CcTable.PutUnique | programs/chibicc.c:2944-2948 | an insertion keeps one entry per key if and only if it does not stop at a tombstone before the key's entry |
| CcTable.DeleteGet | programs/chibicc.c:2987-2991 | a deletion removes the key if and only if it had at most one entry, and leaves other keys alone |
| CcTable.OldValueReturns | programs/chibicc.c:2944-2948 | putting a key that sits behind a tombstone and deleting it brings the old value back |
| CcHashMap.MovedPut | programs/chibicc.c:2892-2896 | reinserting an entry into the new table |
| CcHashMap.BelowWatermark | programs/chibicc.c:2884-2896 | rehashing never makes the new table rehash |
| CcHashMap.HashMap.Get | programs/chibicc.c:2911-2924 | the end of the probe loop is never reached; the result is the first match on the path |
| CcHashMap.HashMap.NewCapacity | programs/chibicc.c:2876-2886 | the capacity is a power of two at which the keys take less than half |
| CcHashMap.HashMap.Rehash | programs/chibicc.c:2868-2903 | the assertion on the number of keys holds if and only if keys are unique, and then every value is kept |
| CcHashMap.InsertEntry | programs/chibicc.c:2936-2958 | writes the first bucket that matches, is a tombstone or is empty |
| CcHashMap.HashMap.Put | programs/chibicc.c:2926-2980 | the key gets the value, others keep theirs; keys stay unique exactly under the stated condition, and always while nothing was deleted |
| CcHashMap.HashMap.Delete | programs/chibicc.c:2987-2991 | the key is gone if and only if it had at most one entry |
| BcExact.GcdGreatest | programs/bc4linux.c:227-235 | Euclid's loop yields the greatest common divisor |
| BcExact.FloorExact | programs/bc4linux.c:211-214 | multiply and shift rounds down exactly when x (d/g - 1) < 2^s |
| BcExact.CeilExact | programs/bc4linux.c:237-242 | multiply, add and shift rounds up exactly in the same range |
| BcTimeconst.Fmul64Exact | programs/bc4linux.c:211-214 | the 64-bit multiplier is the exact one when nothing wraps |
| BcTimeconst.Fadj64Exact | programs/bc4linux.c:237-242 | the 64-bit rounding term is the exact one if and only if its product fits |
| BcTimeconst.GcdLoop | programs/bc4linux.c:227-235 | the loop computes the greatest common divisor |
| BcTimeconst.Fmuls | programs/bc4linux.c:216-225 | the search ends with the least shift that reaches the threshold, and nothing wraps on the way |
| BcTimeconst.MultiplierRange | programs/bc4linux.c:216-225 | the multiplier then lies between 2^31 and 2^32 |
| BcTimeconst.ConvertsAll | programs/bc4linux.c:211-242 | the constants convert every x up to (2^31 - 1) g / n, rounding down and up |
| BcTimeconst.FromMicrosFits | programs/bc4linux.c:310-323 | the last rounding term overflows if and only if HZ * gcd(HZ, 10^6) < 122 |
| BcTimeconst.TableRight | programs/bc4linux.c:246-358 | three of the four conversions are right, rounding down and up, for every x in range; the fourth is if and only if HZ * gcd(HZ, 10^6) >= 122 |
| BcTimeconst.RatioRight | programs/bc4linux.c:290-318 | the printed numerators and denominators are the ratio of the units, in lowest terms |
| BcTimeconst.Inverse | programs/bc4linux.c:227-242 | coprime numbers have an inverse, from which a failing argument is built |
| BcTimeconst.WrapFails | programs/bc4linux.c:310-323 | where the rounding term has overflowed, some argument in the promised range is not rounded up |
| BcTimeconst.Timeconst | programs/bc4linux.c:246-358 | for every HZ that `main` lets through (lines 420-425), up to 2000000: the four sets of constants and the three ratios, in the order printed |
| CcInt.CommonTypeIsStandard | programs/chibicc.c:8756-8783 | the type chosen for two operands is the one that the usual arithmetic conversions of C11, stated by which type can represent which, call for |
| CcLaws.TypingLaw | programs/chibicc.c:8785-8877 | the type of every expression, from the types of its operands by the usual arithmetic conversions of C11 (section 6.3.1.8) |
| CcLaws.MeetIsStandard | programs/chibicc.c:8756-8783 | the type in which two operands meet is the first of unsigned long, long, unsigned and int that one of them has, or int |
| CcLaws.ArithmeticValue | programs/chibicc.c:8819-8829 | sums, differences and products are the mathematical ones, reduced to 32 or 64 bits, signed or unsigned, as that type calls for |
| CcLaws.DivisionValue | programs/chibicc.c:8819-8829 | quotient and remainder belong together, and the remainder has the sign of the dividend; there are none for zero or where the quotient does not fit |
| CcLaws.NegationValue | programs/chibicc.c:8830-8835 | a minus sign negates in the type in which the operand meets int |
| CcLaws.BitwiseValue | programs/chibicc.c:8819-8829 | bitwise operators work bit by bit on the operands' two's complement |
| CcLaws.ComplementValue | programs/chibicc.c:8858-8862 | the complement flips every bit |
| CcLaws.ShiftedValue | programs/chibicc.c:8858-8862 | a shift multiplies, or divides and rounds down, in the type of its left operand; by a negative number or the whole width there is none |
| CcLaws.ComparedValue | programs/chibicc.c:8843-8849 | operands are compared as values of the type in which they meet, and the result is one or zero |
| CcLaws.ChosenValue | programs/chibicc.c:8867-8874 | a condition is false exactly if it is zero; the branch's value is converted to the type in which both branches meet |
| CcLaws.LogicIsChoice | programs/chibicc.c:8853-8857 | `!e` is `e ? 0 : 1`, `l && r` is `l ? !!r : 0`, and the or operator likewise |
| CcLaws.AssignedValue | programs/chibicc.c:8836-8842 | an assignment stores and yields its right side converted to the variable's type |
| CcLaws.CastValue | programs/chibicc.c:1628-1643 | a cast converts, and a comma drops its left value |
| CcInt.AddTypeTyped | programs/chibicc.c:8792-8870 | after conversions have been inserted, the operands of every operator have the types that the generated code relies on, and the whole expression has its own type |
| CcInt.AddTypeKeeps | programs/chibicc.c:8785-8870 | inserting conversions changes neither the value, nor the effects, nor the definedness of an expression |
| CcValues.CastRep | programs/chibicc.c:1628-1643 | for all pairs of types, the entry of the cast table turns any register that stands for a value into one that stands for the converted value |
| CcValues.AluRep | programs/chibicc.c:2377-2410 | the machine's add, subtract, multiply and bitwise instructions on registers with arbitrary upper halves compute the C operation |
| CcValues.DivRep | programs/chibicc.c:2386-2401 | after sign extension or zeroing of the upper half, the register pair is the dividend, and the quotient fits exactly where the C division is defined |
| CcValues.FlagRep | programs/chibicc.c:2411-2434 | the signed or unsigned condition that is selected holds exactly if the C comparison does |
| CcValues.ShiftRep | programs/chibicc.c:2435-2446 | logical or arithmetic shifts compute the C shifts of signed and unsigned values |
| CcLabels.LabelsOnce | programs/chibicc.c:2105-2138 | the code of an expression defines no label twice, and only labels with its own numbers |
| CcLabels.LabelsOnceS | programs/chibicc.c:2451-2495 | the same for statements, for every nesting of loops and branches |
| CcLabels.BodyUnique | programs/chibicc.c:2840-2854 | all labels of a function's code are distinct |
| CcExpr.SimLogic | programs/chibicc.c:2109-2138 | the code of && and of the or operator runs the right operand only if the left one does not decide, and yields 0 or 1 |
| CcExpr.SimCond | programs/chibicc.c:2087-2098 | the code of ?: runs exactly one branch |
| CcExpr.SimBinary | programs/chibicc.c:2359-2446 | an operator pushes its right operand across the evaluation of the left one and then combines them, whatever the left one does to the stack in between |
| CcExpr.SimAssign | programs/chibicc.c:2039-2067 | an assignment changes its variable's bytes and no other variable, and has the assigned value |
| CcExpr.SimE | programs/chibicc.c:1955-2449 | running the code of any expression whose meaning is defined yields its value and its variables' new values, with stack pointer, frame pointer and all memory above the stack pointer but the variables as before |
| CcFlow.TypeSTyped | programs/chibicc.c:8792-8820 | conversion reaches every expression of a statement |
| CcFlow.TypeSKeeps | programs/chibicc.c:8792-8870 | inserting conversions throughout a statement, return values included, does not change what it does |
| CcStmt.SimLoop | programs/chibicc.c:2468-2496 | the common scheme of loops: head, body, continuation label, tail and exit label iterate as the loop's meaning does; needing more iterations than n means running at least n instructions |
| CcStmt.SimIf | programs/chibicc.c:2455-2467 | exactly one branch runs, with or without an else |
| CcStmt.SimFor | programs/chibicc.c:2468-2485 | continue leads to the increment and break behind the loop, for every combination of missing clauses |
| CcStmt.SimDo | programs/chibicc.c:2486-2496 | the body runs ahead of each test, and continue leads to the test |
| CcStmt.SimS | programs/chibicc.c:2451-2570 | running the code of any statement ends where its meaning says: behind it, at the exit or continuation of the innermost loop, or at the return label, with those values of the variables |
| CcBody.BodyRuns | programs/chibicc.c:2840-2854 | inside any program with distinct labels, a function's code returns the function's value with its variables in memory; if the function needs more than n iterations, at least n instructions run |
| CcBody.StopsRight | programs/chibicc.c:2840-2854 | if the code stops, then the function finishes, and the code has computed what the function returns |
| CcBody.StopsIffFinishes | programs/chibicc.c:2840-2854 | the code of a function that does nothing undefined stops if and only if the function finishes |
| CcCodegen.CodeGen.Count | programs/chibicc.c:1279-1282 | every label number is given once |
| CcCodegen.CodeGen.EmitPush | programs/chibicc.c:1284-1287 | emits the push and counts it |
| CcCodegen.CodeGen.EmitPop | programs/chibicc.c:1289-1292 | emits the pop and counts it |
| CcCodegen.CodeGen.EmitLoad | programs/chibicc.c:2014-2017 | the address of a variable and a load of its size |
| CcCodegen.CodeGen.EmitStore | programs/chibicc.c:1482-1512 | the address is popped and the value stored there with its size |
| CcCodegen.CodeGen.EmitTest | programs/chibicc.c:1514-1536 | a comparison with zero of the operand's size, and a conditional jump |
| CcCodegen.CodeGen.CastNumber | programs/chibicc.c:1628-1660 | emits the entry of the cast table |
| CcCodegen.CodeGen.GenExpr | programs/chibicc.c:1955-2449 | emits the code of any expression with consecutive label numbers, and ends with as many words on the stack as it began with |
| CcCodegen.CodeGen.GenIf | programs/chibicc.c:2455-2467 | the same for if statements |
| CcCodegen.CodeGen.GenFor | programs/chibicc.c:2468-2485 | the same for for and while loops, with any clause missing |
| CcCodegen.CodeGen.GenDo | programs/chibicc.c:2486-2496 | the same for do loops |
| CcCodegen.CodeGen.GenStmt | programs/chibicc.c:2451-2570 | the same for any statement |
| CcCodegen.GenFunction | programs/chibicc.c:2840-2854 | a function's code is the one that the theorems are about, and every push has been undone at its end |
| CcAlign.AlignNearest | programs/chibicc.c:1308-1310 | rounding up or down finds the nearest multiple in that direction |
| CcAbi.RegistersDistinct | programs/chibicc.c:2149-2188 | no two arguments of a call are given the same register |
| CcAbi.LocsCounted | programs/chibicc.c:2149-2188 | the n-th integer argument is in the n-th of six registers, the n-th floating-point one in the n-th of eight, and every other one on the stack |
| CcAbi.WordsLeast | programs/chibicc.c:1711-1739 | an argument takes the least number of words that hold it |
| CcAbi.FlagsAgree | programs/chibicc.c:1768-1808 | counters that go on beyond the last register leave the same arguments on the stack as the ABI's assignment |
| CcAbi.Classify | programs/chibicc.c:1762-1808 | exactly the arguments that the System V ABI gives no register are marked for the stack, and their words are counted |
| CcAbi.LoadRegisters | programs/chibicc.c:2149-2188 | the second loop pops exactly the other arguments, each into its register |
| CcAbi.SlotsApart | programs/chibicc.c:2619-2636 | slots of different variables do not overlap |
| CcAbi.AssignStackOffsets | programs/chibicc.c:2580-2616 | parameters on the stack are looked for where the caller's pushes leave them |
| CcAbi.AssignOffsets | programs/chibicc.c:2573-2639 | every parameter has its place, on the stack exactly if it gets no register, and the frame size is a multiple of 16 |
| CcAbi.SaveRegisters | programs/chibicc.c:2806-2838 | the third loop stores exactly the registers that carry arguments, each to its own parameter's slot |
| CcAbi.AllAgree | programs/chibicc.c:1762-1808 | all four loops, with their different counters and criteria, give every argument the same register or the stack, with or without a hidden result buffer |
| CcCall.RunLoads | programs/chibicc.c:2149-2188 | popping in argument order empties the words that were pushed in reverse order into the right registers |
| CcCall.EnterRight | programs/chibicc.c:2806-2838 | after the registers have been saved, every parameter of the callee reads as its own argument, byte by byte |
| CcCall.RunPushAll | programs/chibicc.c:1711-1739 | one pass evaluates and pushes the chosen arguments, last one first, however many calls they contain |
| CcCall.RunTree | programs/chibicc.c:2139-2196 | for calls nested to any depth with any arguments, each parameter receives its own argument, the stack is aligned to 16 bytes at every call, and it is left as it was |
| CcCall.CallsAligned | programs/chibicc.c:1809-1813 | whatever the depth at which a call's code begins and whatever the function's frame, the padding makes the call with a stack pointer divisible by 16 |
| CcArgGen.CallGen.PushArgs | programs/chibicc.c:1759-1826 | emits a padding word exactly if the depth at the call would be odd, and then both passes and the result buffer |
| CcArgGen.CallGen.PushArgs2 | programs/chibicc.c:1711-1739 | the recursion emits the pass for the flag and counts its words |
| CcArgGen.CallGen.GenFuncall | programs/chibicc.c:2139-2196 | a call emits the code that the theorems are about and leaves the depth as it was |
| CcArgGen.GenCallCode | programs/chibicc.c:2139-2196 | at depth 0 the whole nest of calls ends at depth 0 |
| CcStruct.PlaceMember | programs/chibicc.c:5791-5810 | one step of the layout loop |
| CcStruct.StructDecl | programs/chibicc.c:5781-5817 | the loop gives every member its slot, and the struct its size and alignment |
| CcStruct.MemberSits | programs/chibicc.c:5791-5810 | every member starts where its slot says, aligned, and a bit-field stays inside one storage unit of its type |
| CcStruct.MembersApart | programs/chibicc.c:5791-5810 | members occupy bits in the order of declaration and no bit twice |
| CcStruct.SizeRight | programs/chibicc.c:5812-5816 | the size is a multiple of the alignment and covers all members |
| CcStruct.UnitInside | programs/chibicc.c:5796-5803 | every byte of a bit-field's storage unit belongs to the struct, so that reading and writing it stays inside |
| CcPacking.Packed | programs/chibicc.c:5788-5810 | every member begins at the first bit behind the members before it at which it can begin: a bit-field where it lies inside one unit, any other member where it is aligned |
| CcPacking.EndTaken | programs/chibicc.c:5788-5810 | what the struct has to cover ends with its last member |
| CcPacking.SizeLeast | programs/chibicc.c:5816-5816 | the size is the least multiple of the alignment that covers it |
| CcPacking.LgAttained | programs/chibicc.c:5812-5813 | the alignment is that of a member, or the one that an attribute has set |
| CcPacking.TwoFields | programs/chibicc.c:5798-5805 | `struct { int a : 3; int b : 5; }` has four bytes, and b begins at bit 3 |
| CcBitField.ReadsField | programs/chibicc.c:2022-2030 | the two shifts extract the field and extend its sign, whatever the load puts into the upper half |
| CcBitField.StoresField | programs/chibicc.c:2044-2066 | masking and merging replaces exactly the field's bits of the unit |
| CcMembers.AssignSets | programs/chibicc.c:2044-2066 | seen on the whole struct, an assignment to a bit-field replaces exactly that member's bits, and touches no byte outside |
| CcMembers.ReadBack | programs/chibicc.c:2022-2066 | the operation as printed: a bit-field reads as the assigned value, cut to its width and extended as its type calls for |
| CcMembers.OthersKept | programs/chibicc.c:2044-2066 | the operation as printed: every other member, sharing the storage unit or not, reads as before |
| CcMembers.MaskEncodable | programs/chibicc.c:2051-2051 | the printed mask is an operand that the instruction can have if and only if the field has at most 31 bits |
| CcMembers.MaskTooWide | programs/chibicc.c:2051-2051 | for a field of 32 bits it is not |
| CcMembers.StoreRight | programs/chibicc.c:2044-2066 | where the mask has an encoding, the generated store is right for its member and for all others |
| CcMembers.AssignedValue | programs/chibicc.c:2044-2064 | the assignment expression has the value assigned, which is the one stored exactly if it fits the field |
| BashPipes.Shell.Open | programs/bash.c:1695-1717 | opening fails exactly where the kernel hands out nothing new, and then changes nothing; otherwise the new descriptor refers to what was opened |
| BashPipes.Shell.OpenPipe | programs/bash.c:2498-2504 | both ends of a pipe are new descriptors, or it fails and changes nothing |
| BashPipes.Shell.OpenPipes | programs/bash.c:2498-2504 | every bar has a pipe of its own, and what is open is what was open and all their ends, each once; the shell goes on exactly if no pipe has failed |
| BashPipes.PendingSplit | programs/bash.c:1687-1693 | a segment takes the read end in front of it and the write end behind it, and the rest is what the later segments need |
| BashPipes.Shell.HandlePipes | programs/bash.c:1687-1693 | a command takes those ends |
| BashPipes.Shell.CheckAndRedirect | programs/bash.c:2531-2536 | a file takes the place of what was there, which is closed |
| BashPipes.Shell.Redirect | programs/bash.c:1695-1717 | one file is opened; a redirection succeeds exactly if that does, and then changes one side and leaves the other; otherwise nothing changes |
| BashPipes.Shell.HandleRedirection | programs/bash.c:1719-1736 | redirections are tried in order up to the first that fails, and succeed exactly if none does; of several of a side the last one holds, none leaks, and file names are marked |
| BashPipes.Shell.HandleCmd | programs/bash.c:1741-1763 | the arguments are the words that are no file names |
| BashPipes.Shell.NextPipe | programs/bash.c:2506-2514 | finds the next bar behind the segment |
| BashPipes.Shell.CloseFds | programs/bash.c:1788-1793 | a command that cannot be set up gives back all it held |
| BashPipes.Shell.AddCmd | programs/bash.c:1825-1843 | one segment becomes a command exactly if none of its redirections fails, and otherwise leaves nothing open; the books stay balanced |
| BashPipes.Shell.FillCmd | programs/bash.c:1825-1843 | a new command gets its pipe ends, redirections and arguments, or gives everything back |
| BashPipes.Shell.ConvertToCmds | programs/bash.c:1765-1775 | for every line and every pattern of failures there are commands for exactly the segments none of whose redirections has failed, in order; each reads from and writes to what its segment says; open are the descriptors from before and those the commands hold, each once; and no call is made beyond the first failure of a segment |
| BashPipes.ChosenIff | programs/bash.c:1833-1842 | a segment has a command if and only if none of its redirections has failed |
| BashPipes.ChosenAll | programs/bash.c:1833-1842 | if nothing fails, there is one command for each segment |
| BashPipes.OnlyHolder | programs/bash.c:1687-1693 | each pipe end that is open is held once, the write end by the command in front of the bar as its output, the read end by the one behind it as its input |
| BashPipes.Shell.CloseAllFds | programs/bash.c:907-918 | closes each held descriptor exactly once |
| BashPipes.Shell.RunPipeline | programs/bash.c:907-918 | afterwards the shell has open exactly what it had open before |
| BashPipes.Shell.Child | programs/bash.c:921-935 | a child has its input and output at 0 and 1 and nothing else of the pipeline, so that readers see the end of their input |
| AwkUtf8.EncodeDecodes | programs/awk.c:543-563 | the bytes written for a Unicode scalar value are well-formed UTF-8 (table 3-7 of the Unicode standard) and stand for it |
| AwkUtf8.DecodeEncodes | programs/awk.c:566-596 | well-formed bytes are the encoding of the scalar value they stand for |
| AwkUtf8.OneReading | programs/awk.c:566-596 | bytes begin with at most one character |
| AwkUtf8.WcToUtf8 | programs/awk.c:543-563 | the loop from the last byte to the first writes the encoding, and no other byte |
| AwkUtf8.Utf8ToWc | programs/awk.c:566-596 | accepts exactly the well-formed sequences, so no overlong form, surrogate or number out of range, with their value; tells a cut-off sequence from a wrong one |
| AwkUtf8.RoundTrip | programs/awk.c:543-596 | what is written for a scalar value is read back as it, whatever follows |
| AwkUtf8.NotReadBack | programs/awk.c:543-596 | surrogates and numbers beyond U+10FFFF are written but never read back |
| AwkUtf8.CharsPrefix | programs/awk.c:686-696 | the prefix that n characters take consists of the first n characters, for any bytes |
| AwkUtf8.CharsSuffix | programs/awk.c:686-696 | what follows consists of the other characters |
| AwkUtf8.CountOfBytes | programs/awk.c:686-709 | that prefix has min(n, count) characters |
| AwkUtf8.Utf8Cnt | programs/awk.c:698-709 | the number of characters, where a byte that begins none counts as one |
| AwkUtf8.BytesInUtf8 | programs/awk.c:686-696 | the length of the first n characters |
| AwkUtf8.Substr | programs/awk.c:4485-4499 | the characters of the substring are the clamped slice of the string's characters |
| AwkUtf8.SliceWanted | programs/awk.c:4485-4490 | the slice holds exactly the characters from m on, or n of them; positions before the first character do not use up any of the n |

## Left out

- awk: strings, coercions between strings and numbers, concatenation, regular expressions, fields, special variables, `print`,
  `getline`, `delete`, `in`, `for (k in a)` as a compiled statement, builtin functions, `exit`, `next`, record rules and END rules.
- awk symbol tables: tokens carry the slot or function number that the name resolves to, so undeclared, duplicate and
  map-versus-scalar names are not diagnosed.
- awk white space between a variable that is a whole argument and the comma or parenthesis behind it: the source then compiles it like
  any other expression, which marks it as a scalar.
- awk syntax errors and the recovery from them: the parser is given well-formed text.
- AwkCompiler.Compiler.Expect: a missing token, which the source reports before it searches for the next one, is not modelled.
- AwkStatements.SimpleStmt: `print` and `delete` statements are not part of the language that is modelled.
- awk floating point: operations are arbitrary total functions on doubles of which only their bits are known; of the text of a
  number only that it is not empty; numbers the
  machine keeps for bookkeeping are kept apart from them.
- awk stack growth (`add_stack`) and reference counts.
- awk arrays of 2^27 cells and more, where the source's `int` arithmetic on sizes overflows.
- AwkGsub.Gsub: the regular expression matcher is a parameter; strings with embedded NUL characters are not covered.
- chibicc function-like macros, `#`, `##`, `__VA_OPT__`, `#include`, `#line`, `#pragma`, builtin macros, and text or bodies that
  contain `#`; evaluation of `#if` expressions is a parameter that may report an error.
- CppMachine.Preprocess: the macro table is an ideal finite map, not the hash map of `cc_hashmap`, and the end of the input carries no
  position mark.
- chibicc hash map: the hash is an arbitrary function, of which `fnv_hash` is one; capacities at which the source's `int` arithmetic
  overflows are not covered.
- bc4linux: reading HZ, printing, `itoa` and `atoi`.
- BcTimeconst.Timeconst: HZ above 2000000 is not covered.
- chibicc parser: the code generator is given trees. The labels of loops are numbered by the generator, not by the parser.
- chibicc expressions outside the integer model: `char`, `short`, `_Bool`, enumerations, floating point, pointers, arrays,
  members, statement expressions, atomic operations; and calls, which are modelled on their own, without arithmetic.
- chibicc statements outside it: `switch`, `goto`, labels, `asm`; and the 0 that `main` returns at its end.
- CcExpr.SimE: addresses and the stack are unbounded. Signed overflow wraps, right operands are evaluated first, and division
  that traps or a shift by at least the width of its type has no meaning.
- CcCall.RunTree: structs of up to 16 bytes as arguments (the caller's two loops and the callee count their floating-point
  halves differently), variadic functions and `alloca` are not part of the model. Long doubles are passed at addresses divisible by 8, as the
  source does on both sides, where the ABI asks for 16.
- chibicc structs: packed structs, `_Alignas`, flexible array members and unions.
- CcMembers.ReadBack: bit-fields of 64 bits are not covered.
- bash: expansion, here-documents, builtins, signals, and the commands themselves; descriptor 0 is never handed out by `open` or
  `pipe`; and lists of commands other than one pipeline.
- all other programs.
