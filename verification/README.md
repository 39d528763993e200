# KJPL back end in Dafny

This project models the two passes at the back of the KJPL compiler, which translates a small Python-like language into C:

- the **code generator** (`CodeGenerator`) lowers a program tree to C source lines. It declares each variable on its first assignment and rewrites `while` loops into labels and `goto`s. It fully parenthesises expressions. Its output has three parts: forward declarations, `main`, then the function bodies.
- the **semantic analyzer** (`SemanticAnalyzer`) walks the top-level statements. It builds a name-to-type table and collects diagnostics in the order it detects them, without ever stopping early.

Both passes are pure functions that thread an immutable state record through the walk.

- The generator's record `Gen` holds the output lines, the indentation depth, the name-to-type table and the label counter. A `Result` carries `CodegenError`.
- The analyzer's record `Analyzer` holds its table and its diagnostic list. The two records share nothing.

Files:

- `wrappers.dfy`: `Option` and `Result`.
- `text.dfy`: indentation, newline joining, and decimal rendering of integers with its parser, used to state round trips.
- `ast.dfy`: the program tree, one closed datatype for both passes, with the name and loop counts the contracts use.
- `codegen.dfy`: the generator.
- `codegen_props.dfy`: properties that relate several generator calls. These cover label freshness, declare-once, the whole-program layout and parenthesisation, and how each compound statement's lines are built from its blocks' lowerings, plus four worked lowerings.
- `codegen_lines.dfy`: reading the generated lines back. It recognises a declaration line `int x = …;` and a label line `label_n:`, and proves that a whole translation unit declares no name twice and defines no label twice.
- `codegen_decls.dfy`: the other half of declare-once. Every name a program assigns is declared on some line, so each assigned name is declared exactly once in the translation unit.
- `semantic.dfy`: the analyzer, its properties, the loop-based walk and worked analyses.
- `semantic_messages.dfy`: a reader for the analyzer's four message formats, with the round trip from diagnostic to message and back.

The model follows the code as written:

- The analyzer does not recurse into `if`, `while` or function bodies (semantic.py:17-22).
- The analyzer infers the type of an assignment's own target before registering it (semantic.py:29). So as written, `x = 5 + 3; print(x)` is rejected with `Undefined variable 'x'.`. The code itself shows this is unintended: the inferred `var_type` is never read, and the next branch calls the first assignment an implicit declaration (semantic.py:34). See Findings.
- `main`'s `return 0;` is emitted after the depth is decreased, so it sits at the outer depth (codegen.py:48-50).

## Model

| member | source | states |
|---|---|---|
| `CodeGen.AddLine` | codegen.py:146-147 | the new line is the current depth's four-space indentation followed by the text; it is appended, earlier lines are kept, and depth, table and counter are unchanged |
| `CodeGen.NewLabel` | codegen.py:149-151 | the counter goes up by one and the label is named after the new value; nothing else changes |
| `CodeGen.LowerExpr` | codegen.py:125-141 | lowering succeeds exactly when every identifier is in the table and there is no string literal; a failure names a missing identifier, or a string literal for which there is no handler; an identifier lowers to its name, a number to a numeral that parses back to its value, and an operation or condition to a text opening with `(` and closing with `)` |
| `CodeGen.GenStmt` | codegen.py:20-23 | on success a statement keeps earlier lines, indents every new line at least to its own depth, and restores the depth; the table gains exactly the names the statement assigns and keeps the types already recorded, and the counter moves by two per loop |
| `CodeGen.GenBlock` | codegen.py:64-65 | the same guarantees for a block run statement by statement, with the assigned names and loops of the whole block |
| `CodeGen.GenAssignment` | codegen.py:77-86 | succeeds exactly when the right-hand side lowers; a name not in the table is entered with type `int` and gets `int x = e;`; a name already there gets `x = e;` and the table is unchanged |
| `CodeGen.GenPrint` | codegen.py:88-90 | succeeds exactly when the expression lowers, and adds the single line `printf("%d\n", e);` |
| `CodeGen.GenIf` | codegen.py:92-107 | on success the condition lowered, the first new line is `if (c) {` and the last is `}`, both at the entry depth, and the depth is restored |
| `CodeGen.IfLines` | codegen.py:92-107 | every line between an `if`'s head and its closing brace is one level deeper, except a `} else {` at the entry depth; with an empty else-block all of them are one level deeper |
| `CodeGen.GenElse` | codegen.py:101-106 | an empty else-block adds nothing; otherwise `} else {` comes first at the entry depth and every later line is one level deeper |
| `CodeGen.GenWhile` | codegen.py:109-123 | takes label n+1 as start and n+2 as end; emits `start:` and `if (!(c)) goto end;` at the entry depth, the body and `goto start;` one level deeper, then `end:` at the entry depth; the counter moves by two plus two per nested loop |
| `CodeGen.GenFunction` | codegen.py:57-75 | the header line `\nint name(int a, …) {` at the entry depth, then every line up to the last one level deeper, ending with `return 0;` when there is no return expression and with `return e;` for the lowered expression otherwise, then `}` at the entry depth; parameters are not entered into the table |
| `CodeGen.GenReturn` | codegen.py:67-71 | with no return expression it always succeeds with `return 0;`; with one it succeeds exactly when the expression lowers, and emits `return e;` |
| `CodeGen.ForwardDecls` | codegen.py:35-38 | one declaration line `int name(int a, …);` per function, in source order, and nothing else changes |
| `CodeGen.Prologue` | codegen.py:31-41 | the two includes, the forward declarations, the `// Main Program` comment and `int main() {`, in that order |
| `CodeGen.GenMain` | codegen.py:42-50 | the non-function statements one level deeper, then `return 0;` and `}\n` back at the entry depth |
| `CodeGenProps.ParamListShape` | codegen.py:153-154 | no parameters give an empty list; otherwise the list opens with `int ` and the first parameter, and a single parameter gives exactly `int a` |
| `CodeGenProps.ParamListSnoc` | codegen.py:153-154 | each further parameter adds `, int ` and its name at the end, so `[a, b]` gives `int a, int b` |
| `CodeGen.GenProgram` | codegen.py:31-55 | on success the prologue is a prefix of the output, the depth is restored, and the table gains exactly the names assigned anywhere in the program |
| `CodeGen.Generate` | codegen.py:13-15 | succeeds exactly when lowering does, and the text is the output lines joined with newlines |
| `CodeGenProps.LabelNamesDistinct` | codegen.py:149-151 | different counter values give different label names |
| `CodeGenProps.IssueLabels` | codegen.py:149-151 | `n` labels in a row advance the counter by `n`, and the k-th label is named after counter value `start + k + 1` |
| `CodeGenProps.FreshRunLabels` | codegen.py:8 | from a fresh generator the k-th label is `label_k`, and no two labels of a run coincide |
| `CodeGenProps.GenBlockAppend` | codegen.py:64-65 | lowering `a + b` is lowering `a` and then `b`, and an error in `a` stops the walk |
| `CodeGenProps.LaterAssignmentStores` | codegen.py:85-86 | once a block has assigned a name, a later assignment of it is a bare store and the table does not change |
| `CodeGenProps.FirstAssignmentDeclares` | codegen.py:82-84 | the first assignment of a new name emits its declaration and records it as `int` |
| `CodeGenProps.ReturnedParamIsUndefined` | codegen.py:59-69 | a function returning a parameter that is never assigned fails with an undefined-variable error, because parameters are not in the table |
| `CodeGenProps.FunctionChunk` | codegen.py:61-74 | one definition adds at least three lines, from its header to its closing brace |
| `CodeGenProps.FunctionsLayout` | codegen.py:52-55 | the definitions after `main` are consecutive chunks in source order, each from header to `}`, all at the same depth |
| `CodeGenProps.ProgramLayout` | codegen.py:31-55 | the whole output is the prologue with one forward declaration per function, then `main`'s statements one level deeper, `return 0;` and `}\n`, then the function definitions in order |
| `CodeGenProps.PrologueTextLines` | codegen.py:32-41 | the prologue line by line: the includes, declaration i for function i, the comment, `int main() {` |
| `CodeGenProps.ProgramWithoutFunctions` | codegen.py:52-55 | without functions a program is its prologue followed by `main` |
| `CodeGenProps.GeneratedTextOrder` | codegen.py:15 | in the text, line i comes right after the lines before it, joined by a newline |
| `CodeGenProps.LowerSplits` | codegen.py:125-141 | for an expression whose names and operators contain no space or parenthesis, a lowered operation or condition is exactly `(`, the left operand's text, a space, the operator, a space, the right operand's text and `)`: cutting it at its first space outside parentheses and then at the next space gives back the left operand's lowering, the operator and the right operand's lowering, in that order |
| `CodeGenProps.LowerFailsAtFirstBadLeaf` | codegen.py:125-141 | lowering fails exactly when some leaf is an undeclared name or a string literal, and the error is the one for the first such leaf from the left, because the left operand is lowered before the right |
| `CodeGenProps.LoweredParenthesised` | codegen.py:125-141 | for an expression whose names and operators contain no parenthesis, the lowered text has balanced parentheses, and an operation or condition is a single parenthesised group, so its operator binds exactly its two operands |
| `CodeGenProps.IfSteps` | codegen.py:92-107 | unfolds `GenIf` into its steps: when the condition, the then-block one level deeper and the else part all succeed, the conditional is their lines followed by `}`; the content claims are in `IfBody` |
| `CodeGenLines.IfSucceeds` | codegen.py:92-107 | unfolds `GenIf` in the other direction: a conditional that succeeds had its condition, its then-block one level below the head, and its else part succeed, and is the else part's result plus `}` |
| `CodeGenProps.IfBody` | codegen.py:92-107 | a conditional's output is its head, the then-block's own lowering one level deeper, then, for a non-empty else-block, `} else {` and the else-block's lowering one level deeper, then `}`; with an empty else-block nothing comes between the then-block and `}` |
| `CodeGenProps.ElseSteps` | codegen.py:101-106 | unfolds `GenElse`: a non-empty else part is `} else {` followed by the else-block lowered one level deeper, with the depth restored; the content claims are in `ElseBody` |
| `CodeGenProps.ElseBody` | codegen.py:101-106 | an empty else-block adds nothing; a non-empty one's output is exactly the `} else {` line followed by the else-block's own lowering one level deeper |
| `CodeGenProps.FunctionSteps` | codegen.py:57-75 | unfolds `GenFunction`: when the body lowers one level below the header and the return line succeeds, the definition is those lines followed by `}` at the entry depth; the content claims are in `FunctionBody` |
| `CodeGenProps.FunctionBody` | codegen.py:57-75 | a definition's lines up to its return line are exactly the header followed by the body's own lowering one level deeper; only the return line and `}` follow |
| `CodeGenProps.WhileSteps` | codegen.py:109-123 | unfolds `GenWhile`: when the condition and the body one level deeper succeed, the loop is the two labels taken, `start:` and the guard, the body, `goto start;`, and `end:` back at the entry depth |
| `CodeGenProps.MainAround` | codegen.py:42-50 | unfolds `GenMain`: `main` is the block of non-function statements lowered one level deeper, followed by `return 0;` and `}\n` at the entry depth |
| `CodeGenProps.BranchLowering` | codegen.py:88-107 | `if x < 1: print(x) else: print(0)` inside `main` lowers to `if ((x < 1)) {`, the first `printf` two levels deep, `} else {`, the second `printf` and `}` |
| `CodeGenProps.FunctionLowering` | codegen.py:57-90 | `def f(a): print(1)` lowers to `\nint f(int a) {`, the `printf` one level deeper, `return 0;` and `}` |
| `CodeGenProps.SumProgramLowering` | codegen.py:31-90 | `x = 5 + 3; print(x)` lowers to the includes, `int main() {`, `int x = (5 + 3);`, the `printf` line, `return 0;` and `}` |
| `CodeGenProps.CountProgramLowering` | codegen.py:31-123 | `x = 0; while x < 10: x = x + 1` lowers to a declaration, then `label_1:`, `if (!((x < 10))) goto label_2;`, the store, `goto label_1;` and `label_2:` |
| `CodeGenLines.DeclLine` | codegen.py:82-84 | a first assignment's line reads back as a declaration of exactly that name, and not as a label |
| `CodeGenLines.StoreLine` | codegen.py:85-86 | a later assignment's line `x = e;` reads back as no declaration and no label |
| `CodeGenLines.LabelLine` | codegen.py:149-151 | a label line `label_n:` reads back as label `n` and declares nothing |
| `CodeGenLines.ForwardDeclLine` | codegen.py:37-38 | a forward declaration `int f(int a, …);` is not read as a variable declaration |
| `CodeGenLines.MainLine` | codegen.py:41 | `int main() {` is not read as a variable declaration |
| `CodeGenLines.StmtUnrepeated` | codegen.py:77-123 | the lines one statement adds declare only names new to the table, each once, and define only labels taken from the counter during the statement, each once |
| `CodeGenLines.BlockUnrepeated` | codegen.py:64-65 | the same for a block, statement after statement |
| `CodeGenLines.WhileLabelsFresh` | codegen.py:109-123 | a loop's first line defines its start label n+1 and its last line its end label n+2; every label defined in between belongs to a nested loop, is above n+2 and at most the final counter |
| `CodeGenLines.PrologueUnrepeated` | codegen.py:31-41 | the includes, forward declarations, comment and `int main() {` declare no variable and define no label |
| `CodeGenLines.ProgramDeclaresOnce` | codegen.py:31-86 | in a whole translation unit every declared variable is one the program assigns somewhere, and no name is declared on two lines, although functions and `main` share one table |
| `CodeGenDecls.StmtCovers` | codegen.py:77-123 | every name a statement adds to the table is declared on one of the lines it adds |
| `CodeGenDecls.BlockCovers` | codegen.py:64-65 | the same for a block, statement after statement |
| `CodeGenDecls.ProgramDeclaresEvery` | codegen.py:31-86 | every name the program assigns, at any depth and in any function, is declared on some line of the translation unit |
| `CodeGenDecls.ProgramDeclaresExactlyOnce` | codegen.py:31-86 | a name is declared on some line exactly when the program assigns it, and then on no later line: each assigned name is declared exactly once |
| `CodeGenLines.ProgramLabelsOnce` | codegen.py:109-123 | in a whole translation unit every label is among `label_1` to `label_2m` for `m` loops, and no label is defined on two lines |
| `Text.IntToStringRoundTrip` | codegen.py:130-131 | the decimal text of a number is a numeral that parses back to the number |
| `Text.NatToStringInjective` | codegen.py:151 | different counter values have different decimal texts |
| `Text.JoinSplit` | codegen.py:15 | joining is associative around any split point |
| `Text.JoinLength` | codegen.py:15 | the joined text is as long as the lines plus one separator between each pair |
| `Ast.AssignedPartition` | codegen.py:44-55 | splitting a program into non-function statements and functions loses no assigned name |
| `Ast.LoopsPartition` | codegen.py:44-55 | the same split loses no loop |
| `Ast.SplitPermutes` | codegen.py:44-55 | the function definitions and the other statements together are the program's statements, each as often as in the program: the two loops over `node.statements` visit every statement exactly once |
| `Semantic.Infer` | semantic.py:52-76 | a number is `int`, a string `str`, and an unrecognised node `unknown` with no report; a declared name has its recorded type; an undeclared one is `unknown` with exactly one `Undefined variable` report; inference only ever reports undefined names and operand mismatches |
| `Semantic.InferBinary` | semantic.py:66-74 | an operation reports its left operand's findings, then its right operand's, then at most one mismatch; the mismatch is present exactly when the operand types differ, and then the type is `error`, otherwise the left type |
| `Semantic.InferReportsUnbound` | semantic.py:60-72 | the names reported undefined are exactly the undeclared occurrences, left to right |
| `Semantic.InferErrorType` | semantic.py:66-74 | an expression is typed `error` exactly when a mismatch was reported inside it or it reads a name recorded as `error`, so the sentinel spreads to every enclosing operation |
| `Semantic.CheckAssignment` | semantic.py:24-40 | a new name is registered with the right-hand side's type, after the target itself (as written) has been reported undefined; a declared name keeps its stored type, and gets one `Type mismatch` report exactly when the types differ |
| `Semantic.TargetReports` | semantic.py:29 | inferring the target identifier reports it only when it is not yet declared, and only as written |
| `Semantic.PrintReports` | semantic.py:46-49 | at most one report per argument, and every report is an `in print statement` report of an undeclared name |
| `Semantic.PrintReportsCount` | semantic.py:46-49 | an undeclared name is reported as many times as it occurs as an argument |
| `Semantic.PrintReportsNames` | semantic.py:46-49 | a name is reported exactly when it is an argument and undeclared |
| `Semantic.PrintReportsSplit` | semantic.py:46-49 | the reports for the leading arguments come before those for the rest, so reports follow argument order |
| `Semantic.PrintReportsSnoc` | semantic.py:46-49 | the reports for one more argument are the earlier reports followed by that argument's report, if any |
| `Semantic.CheckPrint` | semantic.py:42-50 | a print never changes the table and only appends `in print statement` reports |
| `Semantic.CheckStatement` | semantic.py:17-22 | statements other than assignments and prints change nothing; errors are only appended, recorded types are never replaced, and only an assignment adds a name |
| `Semantic.CheckStatements` | semantic.py:13-22 | over a list: errors only grow, recorded types stay, and the table's names are the initial ones plus the top-level targets |
| `Semantic.AnalyzeProgram` | semantic.py:6-11 | the loop over statements and print arguments returns the same list as the walk |
| `Semantic.CheckPrintLoop` | semantic.py:46-49 | the loop over print arguments appends the same reports |
| `Semantic.StatementsSplit` | semantic.py:17-21 | checking `s1 + s2` is checking `s1` and then `s2`, so reports keep detection order |
| `Semantic.OtherStatementsIgnored` | semantic.py:17-22 | dropping every conditional, loop and function definition leaves the result unchanged |
| `Semantic.NoAssignmentKeepsTable` | semantic.py:17-22 | without assignments the table does not change |
| `Semantic.AsWrittenRejectsAssignments` | semantic.py:28-34 | as written, any program with a top-level assignment gets at least one report, namely `Undefined variable` for the first assigned name |
| `Semantic.IntendedAcceptsDeclaredInts` | semantic.py:28-34 | without the target inference, a program whose assignments store integer expressions over earlier names, and which prints only earlier names, gets no report |
| `Semantic.ModesCount` | semantic.py:17-40 | run from the same table, the two readings keep the same table, and the reports as written are, as a multiset, those without the target inference plus one `Undefined variable` report per assignment to a name not yet declared |
| `Semantic.TargetStepReportsCount` | semantic.py:28-34 | there are as many of those extra reports as top-level targets not declared at the start, each naming one of them |
| `Semantic.AnalyzeAddsTargetReports` | semantic.py:6-11 | `analyze` returns as many messages as the analysis without the target inference plus one per distinct top-level target, so it returns nothing exactly when that analysis returns nothing and the program assigns nothing at the top level |
| `SemanticMessages.ParseRender` | semantic.py:39 | every message reads back as the diagnostic it was formatted from; the type-mismatch format `Type mismatch: '<name>' is <type>, but assigned <type>.` gives back the name and both type names |
| `SemanticMessages.ReadsUndefinedInPrint` | semantic.py:49 | `Undefined variable '<name>' in print statement.` reads back as a print report of exactly that name |
| `SemanticMessages.ReadsUndefined` | semantic.py:64 | `Undefined variable '<name>'.` reads back as an undefined-variable report of exactly that name, never as a print report |
| `SemanticMessages.ReadsOperandMismatch` | semantic.py:71 | `Type mismatch in operation: <type> vs <type>.` reads back as an operand mismatch of exactly those two types |
| `SemanticMessages.RenderInjective` | semantic.py:39-71 | two diagnostics have the same message exactly when they are the same diagnostic |
| `SemanticMessages.ParseRendered` | semantic.py:6-11 | the returned list has one message per diagnostic, and message i reads back as diagnostic i |
| `Semantic.ModesDiffer` | semantic.py:29 | the two readings differ only by the one report for a name being declared |
| `Semantic.SumProgramReported` | semantic.py:24-34 | as written, `x = 5 + 3; print(x)` gives exactly `["Undefined variable 'x'."]` |
| `Semantic.UndeclaredPrintReported` | semantic.py:46-49 | `print(y)` alone gives exactly `["Undefined variable 'y' in print statement."]` |
| `Semantic.RetypingReported` | semantic.py:35-40 | without the target inference, `x = 1; x = "a"` gives exactly `["Type mismatch: 'x' is int, but assigned str."]` |
| `Semantic.RetypingReportedAsWritten` | semantic.py:28-40 | as written, `x = 1; x = "a"` gives exactly `["Undefined variable 'x'.", "Type mismatch: 'x' is int, but assigned str."]` |
| `Semantic.OperandMismatchReported` | semantic.py:69-73 | `1 + "a"` is `error` with `Type mismatch in operation: int vs str.` |

## Left out

- `CodeGenLines.ProgramDeclaresOnce`, `CodeGenLines.ProgramLabelsOnce`, `CodeGenDecls.ProgramDeclaresEvery`, `CodeGenDecls.ProgramDeclaresExactlyOnce`, `CodeGenDecls.StmtCovers`, `CodeGenDecls.BlockCovers`, `CodeGenLines.DeclLine`, `CodeGenLines.StoreLine`, `CodeGenLines.ForwardDeclLine`, `CodeGenLines.StmtUnrepeated`, `CodeGenLines.BlockUnrepeated`, `CodeGenLines.PrologueUnrepeated`: they require every assigned name and function name to be a `Name`, a non-empty text without a space, `(` or `=`.
- `CodeGenProps.LowerSplits`, `CodeGenProps.LoweredParenthesised`: they require the identifiers and operators inside the expression to contain no parenthesis (`PlainText`), and for `LowerSplits` no space either (`Tokens`). The model's tree admits any text there, and `Identifier("a(")` lowers to unbalanced text.
- These requirements exclude nothing the source can receive: identifiers as the lexer produces them match `[a-zA-Z_][a-zA-Z0-9_]*` (lexer.py:81-84), so they contain no space, parenthesis or `=`, and the operators are the fixed symbols of lexer.py:51-63, none of which contains a space or a parenthesis. The tree type itself does not enforce this.
- The tokenizer (lexer.py) and the parser grammar are not part of this model. Their behaviour lives in the PLY library's regex and LALR engines. The model starts from the tree. An assignment's target is a plain name string.
- The tree is a union of what the two passes read, not the parser's node classes. parser.py:128-171 defines no function node and no string node. Function definitions take the fields `visit_FunctionNode` reads (codegen.py:57-75), and string literals come from the analyzer's `"string"` tag (semantic.py:58-59).
- codegen.py imports `ast_nodes` only inside its `__main__` block (codegen.py:167). When it is imported as a module, the `isinstance` tests at codegen.py:37, 45 and 54 raise `NameError`, so `visit_ProgramNode` fails at its first statement. The model assumes the name resolves to the node classes.
- `generic_visit` raises a plain `Exception` (codegen.py:26), while an undeclared name raises `CodegenError` (codegen.py:135). The model represents both as constructors of its `CodegenError` datatype and does not model Python's exception classes.
- The compiler driver (compiler.py), which does logging, file handling and exception re-raising, is not part of this model.
- Dynamic `getattr` dispatch and `generic_visit` (codegen.py:20-26) are replaced by a total match over the closed tree type. The one node kind the generator has no handler for, a string literal, fails with `NoVisitMethod`.
- The `__main__` demo in codegen.py is left out. It builds a `ReturnNode`, a class that is not defined anywhere.
- `current_function` (codegen.py:58, 75) is written but never read, so it is left out.
- Number literals are integers. Float values and their text form are left out.
- The analyzer reads nodes through `.type` tags. These are mapped to constructors:
  - `Assignment` is `"assignment"`, `Print` is `"print"`, `Number` is `"number"` and `StringLit` is `"string"`.
  - `Identifier` is `"identifier"` and `BinaryOp` is `"binary_op"`.
  - `Condition` has no tag the analyzer recognises, so it infers to `unknown`.
- A print node carries one expression. The analyzer's `args` is that one-element list.
- Messages are rendered from a diagnostic datatype at the end of the walk. The source formats each message when it detects it; the list and its order are the same.
- The else-block is a sequence: a missing else-block and an empty one are the same value. Both are falsy in the source (codegen.py:101).

## Findings

| source | as written | input that shows it | evidently intended | confidence | as-written member | corrected member |
|---|---|---|---|---|---|---|
| semantic.py:29 | the type of an assignment's own target is inferred before the target is registered; for a new name this reports `Undefined variable` | `x = 5 + 3; print(x)` gives `["Undefined variable 'x'."]` | declaring a name by assigning it reports nothing; a program whose assignments store integer expressions over names assigned earlier, and which prints only names assigned earlier, is accepted | not executed | `Semantic.AsWrittenRejectsAssignments` | `Semantic.IntendedAcceptsDeclaredInts` |
