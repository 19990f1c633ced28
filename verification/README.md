# Kaleidoscope front end in Dafny

This project models the Kaleidoscope compiler in `kaleidoscope/toy.cpp` from
the point where characters come in to the point where a finished module goes
to the JIT. It covers five parts:

- **Lexer.** `gettok` splits the input into keywords, identifiers, number
  lexemes, `#` comments and single characters.
- **Parser.** A recursive-descent parser with `CurTok`/`getNextToken`. Binary
  expressions are parsed by precedence climbing over the run-time table
  `BinopPrecedence`.
- **Codegen tables.** Code generation is reduced to its effect on the
  compiler's tables:
  - `NamedValues`, with the shadowing and restoring done by `for` and `var`;
  - the functions of the current module, and `FunctionProtos`;
  - the allocas and stores emitted;
  - `BinopPrecedence`, which a `def binary` installs into.
- **`getFunction`.** It finds a function in the module, or declares it from a
  registered prototype.
- **Argument names.** `PrototypeAST::codegen` names each argument after its
  parameter. The function's symbol table numbers a repeated name, so
  `def f(x x)` has the arguments `x` and `x1`. The body binds these names.
- **Driver.** `main` and `MainLoop` dispatch on `CurTok`. `HandleDefinition`,
  `HandleExtern` and `HandleTopLevelExpression` hand modules to the JIT and
  recover from a parse error by skipping one token.

Every routine exists twice:

- as a function over values, which is the reference definition, in modules
  `Lexer`, `Grammar`, `Generation` and `Toplevel`;
- as a method of a class whose fields the source updates in place:
  `Lexer.Lexer`, `Operators.OperatorTable`, `Parsing.Parser`,
  `Codegen.CodeGen` and `Driver.Interpreter`.

Each method is proved to leave exactly the state, and return exactly the
result, that its reference definition gives. The properties are lemmas about
the reference definitions, in `GrammarFacts`, `GenerationFacts` and
`Toplevel`.

Values are represented as follows:

- An LLVM `Value*` becomes a symbolic value `Val`, and null becomes `None`.
- An alloca becomes a numbered slot.
- The instruction stream becomes the list of stores.
- The JIT becomes the sequence of modules added to it, each a map from name to
  declaration.
- `NumVal` is kept as its lexeme. Where the parser needs the number's value
  (the precedence of `binary`), it applies a parameter `num` that stands for
  `strtod`.

Where the code and the language's documented behaviour differ, the model
follows the code:

- **Initializers see earlier siblings.** The initializer of a `var` binding
  sees the bindings made earlier in the same group.
- **No redefinition check.** Redefining a function succeeds. Each generated
  definition leaves in its own module, so a second `def f` starts from the
  declaration that `FunctionProtos` gives, and the JIT ends up with two
  modules that define `f`.
- **Failures leave bindings.** A `for` body that fails leaves the loop variable
  bound. So does a failure inside a `var` group for its names.
- **Restore order.** `var` writes the saved bindings back first to last, not
  in reverse. With a repeated name this leaves the name bound.
- **Unknown variables.** An unknown variable is reported, but its load is
  still emitted.
- **Assignment.** An assignment `=` never yields a value. When its right side
  fails, the null result is stored into the target.
- **Missing operator functions.** A missing binary operator function is an
  assertion in the code; a missing unary operator function is a reported
  error.
- **Definitions.** Every successful definition is handed to the JIT in a
  module of its own, and a fresh module is opened.
- **Top-level expressions.** A top-level expression is compiled as a function
  named `main`, but the JIT is asked for `__anon_expr`. The lookup therefore
  always fails, and the `assert` on line 1144 ends the process the first time
  a top-level expression compiles.

## Model

| member | source | states |
|---|---|---|
| Tokens.WordToken | kaleidoscope/toy.cpp:101-121 | a word lexes as `tok_identifier` exactly when it is not one of the ten keywords; it is never EOF, a number or a raw character |
| Operators.Prec | kaleidoscope/toy.cpp:542-551 | a precedence is -1 or positive; it is positive exactly for an ASCII token with a positive table entry, and then equals that entry |
| Operators.TouchSamePrec | kaleidoscope/toy.cpp:548 | the zero entry that `operator[]` inserts for an unseen character changes no token's precedence |
| Operators.SetSamePrec | kaleidoscope/toy.cpp:1020-1021 | installing one operator into two tables that give the same precedences keeps them in agreement |
| Operators.InitialPrecedences | kaleidoscope/toy.cpp:1194-1198 | the initial table gives `=` 2, `<` 10, `+` 20, `-` 30 and `*` 40; every other character is no operator |
| Operators.OperatorTable.constructor | kaleidoscope/toy.cpp:1194-1198 | the table starts as the five standard operators |
| Lexer.SkipSpaces | kaleidoscope/toy.cpp:93-94 | what remains starts with no whitespace, and everything dropped was whitespace |
| Lexer.AlnumRun | kaleidoscope/toy.cpp:97-99 | the run is the longest alphanumeric prefix: every character in it is alphanumeric and the next one is not |
| Lexer.NumRun | kaleidoscope/toy.cpp:126-129 | the run is the longest prefix of digits and `.` |
| Lexer.CommentEnd | kaleidoscope/toy.cpp:137-139 | a comment drops every character up to the first newline or carriage return, which is kept; at EOF it drops everything |
| Lexer.Lex | kaleidoscope/toy.cpp:89-151 | `tok_eof` leaves nothing to read; every other token consumes at least one character; only `tok_number` changes the number lexeme |
| Lexer.LexAt | kaleidoscope/toy.cpp:96-150 | the same facts as `Lex`, for a stream with no leading whitespace |
| Lexer.LexWord | kaleidoscope/toy.cpp:96-122 | a letter starts the maximal alphanumeric run, which becomes `IdentifierStr` and is consumed; the token is its keyword, or `tok_identifier` exactly when it is no keyword |
| Lexer.LexNumber | kaleidoscope/toy.cpp:124-133 | a digit or `.` starts the maximal `[0-9.]` run, which is consumed and returned as `tok_number` with that lexeme; `1.2.3` is one number |
| Lexer.LexComment | kaleidoscope/toy.cpp:135-143 | `#` drops the rest of the line and lexing resumes at the line end; at EOF the result is `tok_eof` |
| Lexer.LexIdentWord | kaleidoscope/toy.cpp:96-122 | `tok_identifier` always comes with an `IdentifierStr` that starts with a letter and is no keyword |
| Lexer.LexOther | kaleidoscope/toy.cpp:148-150 | any other character is consumed and returned as itself |
| Lexer.LexSkipsSpaces | kaleidoscope/toy.cpp:93-94 | leading whitespace never affects the token |
| Lexer.AllSpaces | kaleidoscope/toy.cpp:93-94 | a stream of whitespace is skipped entirely |
| Lexer.LexEof | kaleidoscope/toy.cpp:145-146 | a stream holding only whitespace yields `tok_eof` and is used up |
| Lexer.Lexer.constructor | kaleidoscope/toy.cpp:86-90 | `LastChar` starts as a space and the globals start empty |
| Lexer.Lexer.GetChar | kaleidoscope/toy.cpp:94 | `getchar` returns the next input character, or EOF once the input is used up and on every later call |
| Lexer.Lexer.ReadNext | kaleidoscope/toy.cpp:94 | `LastChar = getchar()` removes the first character of the stream still to be lexed |
| Lexer.Lexer.SkipWhitespace | kaleidoscope/toy.cpp:93-94 | the loop leaves the stream `SkipSpaces` gives |
| Lexer.Lexer.ReadWord | kaleidoscope/toy.cpp:97-99 | the loop sets `IdentifierStr` to the maximal alphanumeric run and consumes it |
| Lexer.Lexer.ReadNumber | kaleidoscope/toy.cpp:126-129 | the loop sets the lexeme to the maximal `[0-9.]` run and consumes it |
| Lexer.Lexer.SkipComment | kaleidoscope/toy.cpp:137-139 | the loop leaves the stream `CommentEnd` gives |
| Lexer.Lexer.GetTok | kaleidoscope/toy.cpp:89-151 | `gettok` returns the token `Lex` gives and leaves the lexer in the state `Lex` gives |
| Lexer.Lexer.LexAtToken | kaleidoscope/toy.cpp:96-150 | the same as `GetTok`, once the whitespace is skipped |
| Lexer.Lexer.WordTok | kaleidoscope/toy.cpp:96-122 | an identifier or keyword, as `Lex` gives it |
| Lexer.Lexer.NumberTok | kaleidoscope/toy.cpp:124-133 | a number, as `Lex` gives it |
| Ast.Prototype.IsUnaryOp | kaleidoscope/toy.cpp:267 | a unary operator prototype is an operator and never also a binary one; `GrammarFacts.UnaryPrototype` shows that `unary c` always parses to one |
| Ast.Prototype.IsBinaryOp | kaleidoscope/toy.cpp:268 | no contract of its own; `GrammarFacts.BinaryPrototype` shows that `binary c` always parses to a binary operator prototype |
| Ast.Prototype.BinaryPrecedence | kaleidoscope/toy.cpp:275 | no contract of its own; `GrammarFacts.BinaryPrototype` bounds it to 1..100 and `GrammarFacts.BinaryPrecedenceValue` gives its value |
| Ast.Prototype.OperatorName | kaleidoscope/toy.cpp:270-273 | the operator is a character of the prototype's name; `GrammarFacts.UnaryPrototype` and `GrammarFacts.BinaryPrototype` show it is the character written after `unary`/`binary` |
| Grammar.Advance | kaleidoscope/toy.cpp:296-298 | `getNextToken` keeps the parser state well formed, never moves away from the end, and consumes input unless `CurTok` is EOF |
| Grammar.PExpression | kaleidoscope/toy.cpp:589-595 | parsing never moves away from the end, and a successful parse consumes input |
| Grammar.PUnary | kaleidoscope/toy.cpp:328-339 | the same, for a unary expression |
| GrammarFacts.PrefixBindsTighter | kaleidoscope/toy.cpp:328-339 | a prefix operator binds more tightly than any binary operator: `!a + b` parses as `(!a) + b`, never as `!(a + b)` |
| Grammar.PPrimary | kaleidoscope/toy.cpp:517-535 | the same, for a primary expression |
| Grammar.PParen | kaleidoscope/toy.cpp:465-475 | the same, for a parenthesised expression |
| Grammar.PIdentifier | kaleidoscope/toy.cpp:480-511 | the same, for a variable reference or call |
| Grammar.PArgs | kaleidoscope/toy.cpp:491-505 | the same, for the argument loop |
| Grammar.PIf | kaleidoscope/toy.cpp:341-365 | the same, for `if`/`then`/`else` |
| Grammar.POptional | kaleidoscope/toy.cpp:393-399 | the optional step never moves away from the end |
| Grammar.PInBody | kaleidoscope/toy.cpp:401-407 | `in` and the body never move away from the end, and a success consumes input |
| Grammar.PFor | kaleidoscope/toy.cpp:368-413 | the same, for a `for` loop |
| Grammar.PVar | kaleidoscope/toy.cpp:417-461 | the same, for a `var` group |
| Grammar.PVarList | kaleidoscope/toy.cpp:426-450 | the same, for the binding loop |
| Grammar.PVarRest | kaleidoscope/toy.cpp:443-450 | the same, for the bindings after the first |
| Grammar.PBinOpRHS | kaleidoscope/toy.cpp:555-587 | precedence climbing never moves away from the end; `GrammarFacts.BinOpRHSStops` and `GrammarFacts.BinOpRHSFolds` state what it returns |
| Grammar.POperand | kaleidoscope/toy.cpp:570-581 | the right operand never moves away from the end, and a success consumes input |
| Grammar.PParamNames | kaleidoscope/toy.cpp:646-648 | the parameter loop stops at the first non-identifier; with no identifier it reads nothing |
| Grammar.PProtoArgs | kaleidoscope/toy.cpp:642-660 | the end of a prototype never moves away from the end, and a success consumes input |
| Grammar.PPrototype | kaleidoscope/toy.cpp:600-661 | a prototype never moves away from the end, and a success consumes input |
| Grammar.PDefinition | kaleidoscope/toy.cpp:664-672 | the same, for a definition |
| Grammar.PExtern | kaleidoscope/toy.cpp:675-678 | the same, for an `extern` |
| Grammar.PTopLevel | kaleidoscope/toy.cpp:681-688 | the same, for a top-level expression |
| GrammarFacts.PrimaryRejects | kaleidoscope/toy.cpp:517-520 | a token that starts no primary expression fails and consumes nothing; so does a unary expression, unless the token is a prefix operator |
| GrammarFacts.BinOpRHSStops | kaleidoscope/toy.cpp:559-564 | precedence climbing consumes nothing exactly when the current token binds less tightly than `exprPrec`, and then returns `lhs` unchanged |
| GrammarFacts.BinOpRHSFolds | kaleidoscope/toy.cpp:555-587 | precedence climbing stops at an operator binding less tightly than `exprPrec`, and returns `lhs` with the operators it consumed folded on, each binding at least as tightly |
| GrammarFacts.FoldedTrans | kaleidoscope/toy.cpp:583-586 | folding onto `lhs op rhs` is folding onto `lhs` |
| GrammarFacts.OperandStops | kaleidoscope/toy.cpp:570-581 | the right operand of an operator absorbs every operator that binds more tightly |
| GrammarFacts.ClimbLeft | kaleidoscope/toy.cpp:555-587 | `a op1 b op2 c`, with op1 binding at least as tightly as op2, groups as `(a op1 b) op2 c` |
| GrammarFacts.ClimbRight | kaleidoscope/toy.cpp:555-587 | with op2 binding more tightly it groups as `a op1 (b op2 c)` |
| GrammarFacts.ArgsInOrder | kaleidoscope/toy.cpp:491-505 | the arguments of a call are kept in source order: those read already, then the expression at the cursor, then the rest |
| GrammarFacts.IdentifierShape | kaleidoscope/toy.cpp:480-511 | an identifier not followed by `(` is a variable reference; followed by `(` it is a call of that name, with no arguments when `)` comes next |
| GrammarFacts.VarListInOrder | kaleidoscope/toy.cpp:426-450 | the bindings of a `var` group are kept in source order, each named by an identifier |
| GrammarFacts.VarRestInOrder | kaleidoscope/toy.cpp:443-450 | the bindings after a `,` extend those read so far and are named by identifiers |
| GrammarFacts.VarShape | kaleidoscope/toy.cpp:417-461 | a `var` group binds at least one name; the first is the identifier after `var`, and every name starts with a letter |
| GrammarFacts.OptionalAbsent | kaleidoscope/toy.cpp:393-399 | the step is absent exactly when no `,` follows, and then nothing is consumed |
| GrammarFacts.ParamNamesNamed | kaleidoscope/toy.cpp:646-648 | the parameter loop keeps the names read already and adds only identifiers |
| GrammarFacts.ProtoArgsShape | kaleidoscope/toy.cpp:642-660 | an accepted prototype keeps its name, kind and precedence; an operator has exactly as many parameters as its kind; all parameters are identifiers |
| GrammarFacts.PlainPrototype | kaleidoscope/toy.cpp:604-613 | a plain prototype is named by its identifier, is no operator, and has precedence 30 |
| GrammarFacts.UnaryPrototype | kaleidoscope/toy.cpp:614-622 | `unary c` needs an ASCII token c; it yields a one-parameter operator named `unary` followed by c, whose operator name is c |
| GrammarFacts.BinaryPrototype | kaleidoscope/toy.cpp:623-640 | `binary c` yields a two-parameter operator named `binary` followed by c, whose operator name is c, with precedence in 1..100 |
| GrammarFacts.PrototypeNamed | kaleidoscope/toy.cpp:600-661 | a prototype is accepted only after an identifier, `unary` or `binary`, and its name starts with a letter |
| GrammarFacts.TopLevelNamed | kaleidoscope/toy.cpp:664-688 | definitions and externs have names that start with a letter; every top-level expression is wrapped in the prototype `main` |
| GrammarFacts.BinaryPrecedenceOutOfRange | kaleidoscope/toy.cpp:633-635 | a `binary` prototype whose explicit precedence is outside 1..100 is rejected |
| GrammarFacts.BinaryPrecedenceValue | kaleidoscope/toy.cpp:604-640 | an accepted `binary` prototype has the explicit number, truncated, as its precedence, or 30 when no number follows |
| GrammarFacts.PrototypeAccepted | kaleidoscope/toy.cpp:600-660 | a prototype is accepted exactly when `(` identifiers `)` follow its name (and a `binary` operator's precedence in 1..100, when one is written) and an operator has as many identifiers as operands; a plain prototype takes any number. The accepted prototype has those identifiers as parameters and the parse ends after `)` |
| Parsing.Parser.constructor | kaleidoscope/toy.cpp:295 | `CurTok` starts as the zero character |
| Parsing.Parser.GetNextToken | kaleidoscope/toy.cpp:296-298 | `CurTok = gettok()`, as `Advance` gives it |
| Parsing.Parser.GetTokPrecedence | kaleidoscope/toy.cpp:542-551 | returns the token's precedence and inserts only an entry that changes no precedence |
| Parsing.Parser.ParseExpression | kaleidoscope/toy.cpp:589-595 | the result and parser state are those of `PExpression` |
| Parsing.Parser.ParseUnary | kaleidoscope/toy.cpp:328-339 | the result and parser state are those of `PUnary` |
| Parsing.Parser.ParsePrimary | kaleidoscope/toy.cpp:316-320 | the result and parser state are those of `PPrimary`; this covers `ParsePrimary` at lines 517-535 and `ParseNumberExpr` inline |
| Parsing.Parser.ParseParenExpr | kaleidoscope/toy.cpp:465-475 | the result and parser state are those of `PParen` |
| Parsing.Parser.ParseIdentifierExpr | kaleidoscope/toy.cpp:480-511 | the result and parser state are those of `PIdentifier`; the loop pushes the arguments in order |
| Parsing.Parser.ParseIfExpr | kaleidoscope/toy.cpp:341-365 | the result and parser state are those of `PIf` |
| Parsing.Parser.ParseForExpr | kaleidoscope/toy.cpp:368-413 | the result and parser state are those of `PFor` |
| Parsing.Parser.ParseOptional | kaleidoscope/toy.cpp:393-399 | the result and parser state are those of `POptional` |
| Parsing.Parser.ParseInBody | kaleidoscope/toy.cpp:401-407 | the result and parser state are those of `PInBody` |
| Parsing.Parser.ParseVarExpr | kaleidoscope/toy.cpp:417-461 | the result and parser state are those of `PVar`; the loop pushes the bindings in order |
| Parsing.Parser.ParseBinOpRHS | kaleidoscope/toy.cpp:555-587 | the result and parser state are those of `PBinOpRHS` |
| Parsing.Parser.ParseOperand | kaleidoscope/toy.cpp:570-581 | the result and parser state are those of `POperand` |
| Parsing.Parser.ParsePrototype | kaleidoscope/toy.cpp:600-661 | the result and parser state are those of `PPrototype` |
| Parsing.Parser.ParseProtoArgs | kaleidoscope/toy.cpp:642-660 | the result and parser state are those of `PProtoArgs`; the loop pushes the parameter names in order |
| Parsing.Parser.ParseDefinition | kaleidoscope/toy.cpp:664-672 | the result and parser state are those of `PDefinition` |
| Parsing.Parser.ParseExtern | kaleidoscope/toy.cpp:675-678 | the result and parser state are those of `PExtern` |
| Parsing.Parser.ParseTopLevelExpr | kaleidoscope/toy.cpp:681-688 | the result and parser state are those of `PTopLevel` |
| Generation.Bound | kaleidoscope/toy.cpp:53 | an absent name and a null entry of `NamedValues` both mean unbound |
| Generation.Lookup | kaleidoscope/toy.cpp:742 | `NamedValues[x]` reads the binding and leaves every name bound as before, but `x` now has an entry |
| Generation.Alloc | kaleidoscope/toy.cpp:694-699 | an alloca takes the next slot and appends one store into it; nothing else changes |
| Generation.GetFn | kaleidoscope/toy.cpp:701-712 | the module's own function is found first; otherwise a registered prototype is declared in the module, with its arguments named as `PrototypeAST::codegen` names them, and returned; otherwise the result is null and nothing changes |
| Generation.Gen | kaleidoscope/toy.cpp:718-990 | no contract of its own: the dispatch over the node kinds; `GenerationFacts.GenFrame` states what it does to the tables and `GenerationFacts.ScopeRestored` what it does to the scope |
| Generation.GenVariable | kaleidoscope/toy.cpp:718-726 | a variable yields a load of the slot the name is bound to, or of none; it changes no binding, emits no store and leaves the module alone (`GenerationFacts.UnknownVariableLoads` for an unbound name) |
| Generation.GenUnary | kaleidoscope/toy.cpp:827-837 | a unary operator is always a call of one argument to `unary`+opcode, which is then in the module; there is no built-in unary operator |
| Generation.GenBinary | kaleidoscope/toy.cpp:728-777 | `=` never yields a value (`GenerationFacts.AssignmentYieldsNothing` gives the stores); `+ - * <` yield their own instruction; any other operator yields a two-argument call of `binary`+op, which is then in the module |
| Generation.GenIf | kaleidoscope/toy.cpp:839-889 | a successful `if` yields a phi, and only after its condition generated; `GenerationFacts.IfFrame` and `GenerationFacts.ScopeRestored` state its effects |
| Generation.GenFor | kaleidoscope/toy.cpp:891-969 | a successful `for` yields 0.0; `GenerationFacts.ForScope`, `GenerationFacts.ForYieldsZero` and `GenerationFacts.ForFailureLeaks` state its effect on the scope |
| Generation.GenLoop | kaleidoscope/toy.cpp:915-968 | a successful loop part yields 0.0 and leaves the loop variable on its saved entry |
| Generation.GenVar | kaleidoscope/toy.cpp:779-825 | no contract of its own; `GenerationFacts.VarScope`, `GenerationFacts.VarFrame`, `GenerationFacts.VarInitSeesOuter`, `GenerationFacts.VarInitSeesEarlierSibling`, `GenerationFacts.DuplicateVarLeaks` and `GenerationFacts.VarFailureLeaks` state its effects |
| Generation.GenCall | kaleidoscope/toy.cpp:972-990 | a successful call found its callee with as many parameters as arguments, and yields a call of that callee with one value per argument (`GenerationFacts.CallArity` adds the failure cases) |
| Generation.GenBindings | kaleidoscope/toy.cpp:785-812 | a successful binding loop saves one old entry per binding |
| Generation.Restore | kaleidoscope/toy.cpp:820-821 | writing the saved entries back gives every name of the group an entry |
| Generation.GenArgs | kaleidoscope/toy.cpp:983-987 | successful arguments give one value per argument, after those already computed |
| Generation.GenProto | kaleidoscope/toy.cpp:992-1007 | declares the prototype in the module, its arguments named by `ArgNames`, unless the name is there already; nothing else changes |
| Generation.BindParams | kaleidoscope/toy.cpp:1028-1038 | one slot per parameter; the module and `FunctionProtos` are untouched |
| Generation.EntryParams | kaleidoscope/toy.cpp:1015 | without an existing function, the names bound are the argument names of the new declaration |
| Generation.GenFunction | kaleidoscope/toy.cpp:1009-1055 | a body that generates completes the function, one that fails removes it; a binary operator's precedence is installed either way, and any other prototype leaves `BinopPrecedence` as it was (`GenerationFacts.GenFunctionEffects` adds the frame) |
| Generation.FunctionEntry | kaleidoscope/toy.cpp:1013-1038 | the prototype is registered, and the function is in the module with the parameters bound |
| Naming.DecimalRoundTrip | kaleidoscope/toy.cpp:1004 | the numeral appended to a repeated name reads back as the number it was written for |
| Naming.Unique | kaleidoscope/toy.cpp:1004 | the name found is free, and is the base followed by the numeral of a number no smaller than where the search started |
| Naming.SetName | kaleidoscope/toy.cpp:1004 | the name given is free; a free name is kept; the counter never goes down |
| Naming.Rename | kaleidoscope/toy.cpp:1002-1004 | one name per argument, each distinct from the others and from the names already in the table |
| Naming.ArgNames | kaleidoscope/toy.cpp:1002-1004 | a new function's argument names are distinct, one per parameter |
| Naming.RenameNumbered | kaleidoscope/toy.cpp:1002-1004 | each name is its parameter's name, or that name followed by a numeral |
| Naming.ArgNamesNumbered | kaleidoscope/toy.cpp:1002-1004 | each argument is named after its parameter, a repeated one with a numeral appended |
| Naming.ArgNamesDistinct | kaleidoscope/toy.cpp:1002-1004 | distinct parameter names are the argument names unchanged |
| Naming.ArgNamesRepeat | kaleidoscope/toy.cpp:1002-1004 | `f(x x)` has the arguments `x` and `x1` |
| Naming.ArgNamesSharedCounter | kaleidoscope/toy.cpp:1002-1004 | the counter is shared by all arguments: `f(x x x1)` has the arguments `x`, `x1` and `x12` |
| GenerationFacts.GenFrame | kaleidoscope/toy.cpp:718-990 | expression codegen leaves `FunctionProtos` alone, keeps every function of the module unchanged, and adds only declarations of registered prototypes with their argument names; slots are only allocated and stores only appended |
| GenerationFacts.FrameDeclared | kaleidoscope/toy.cpp:718-990 | expression codegen keeps the argument names of every function distinct |
| GenerationFacts.UnaryFrame | kaleidoscope/toy.cpp:827-837 | the unary case of `GenFrame` |
| GenerationFacts.BinaryFrame | kaleidoscope/toy.cpp:728-777 | the binary case of `GenFrame` |
| GenerationFacts.IfFrame | kaleidoscope/toy.cpp:839-889 | the `if` case of `GenFrame` |
| GenerationFacts.VarFrame | kaleidoscope/toy.cpp:779-825 | the `var` case of `GenFrame` |
| GenerationFacts.ForFrame | kaleidoscope/toy.cpp:891-969 | the `for` case of `GenFrame` |
| GenerationFacts.LoopFrame | kaleidoscope/toy.cpp:915-968 | the loop part of a `for` stays within the frame |
| GenerationFacts.BindingsFrame | kaleidoscope/toy.cpp:785-812 | the binding loop of a `var` group stays within the frame |
| GenerationFacts.ArgsFrame | kaleidoscope/toy.cpp:983-987 | the argument loop stays within the frame |
| GenerationFacts.ScopeRestored | kaleidoscope/toy.cpp:779-969 | after a successful expression every name is bound as before: `for` and `var` put back what they shadowed |
| GenerationFacts.ForScope | kaleidoscope/toy.cpp:891-969 | a successful `for` gives the loop variable back its old binding, or none |
| GenerationFacts.LoopScope | kaleidoscope/toy.cpp:915-968 | a successful loop part ends with the loop variable on its saved entry and every other name as before |
| GenerationFacts.VarScope | kaleidoscope/toy.cpp:779-825 | a successful `var` group restores the outer scope |
| GenerationFacts.BindingsScope | kaleidoscope/toy.cpp:785-812 | each saved entry is the name's binding outside the group, and names outside the group keep their outer binding |
| GenerationFacts.RestoreBinds | kaleidoscope/toy.cpp:820-821 | with distinct names, each name ends on its own saved entry and every other name is untouched |
| GenerationFacts.ArgsScope | kaleidoscope/toy.cpp:983-987 | successful arguments leave the scope as before |
| GenerationFacts.AssignmentYieldsNothing | kaleidoscope/toy.cpp:730-749 | `=` always yields null; a right side that generates returns at once with no store; a failed one has its null value stored into a bound target, and nothing is stored when the target is unbound |
| GenerationFacts.UnknownVariableLoads | kaleidoscope/toy.cpp:718-726 | an unbound name still yields a load, from the null entry that is now present |
| GenerationFacts.ForYieldsZero | kaleidoscope/toy.cpp:967-968 | a successful `for` yields 0.0 |
| GenerationFacts.VarInitSeesOuter | kaleidoscope/toy.cpp:785-812 | `var x = x` initializes from the outer `x` |
| GenerationFacts.VarInitSeesEarlierSibling | kaleidoscope/toy.cpp:785-812 | in `var a = 1, b = a` the initializer of `b` loads the slot just made for `a` |
| GenerationFacts.DuplicateVarLeaks | kaleidoscope/toy.cpp:820-821 | `var x, x` on an unbound `x` leaves `x` bound to the group's first slot |
| GenerationFacts.ForFailureLeaks | kaleidoscope/toy.cpp:917-924 | a `for` whose body fails returns with the loop variable still bound to the loop's slot |
| GenerationFacts.VarFailureLeaks | kaleidoscope/toy.cpp:785-811 | a `var` group whose second initializer fails returns with its first name still bound to the slot the group allocated |
| GenerationFacts.GetFnIdempotent | kaleidoscope/toy.cpp:701-712 | once `getFunction` finds a name, looking it up again finds the same function and changes nothing |
| GenerationFacts.CallArity | kaleidoscope/toy.cpp:972-990 | a call succeeds only when the callee is found with as many parameters as arguments, and then yields a call with one value per argument; a wrong count fails before any argument is generated |
| GenerationFacts.BindParamsSlots | kaleidoscope/toy.cpp:1028-1038 | each name is bound to the slot of its last occurrence, parameter j's slot being next+j, and no other name is touched |
| GenerationFacts.BindParamsStores | kaleidoscope/toy.cpp:1028-1038 | incoming argument j is stored into parameter j's slot, after the stores already emitted |
| GenerationFacts.EntryScope | kaleidoscope/toy.cpp:1013-1038 | the argument names of the function found are distinct; the body is generated in a fresh scope binding exactly those names, argument j to slot next+j, which holds incoming argument j |
| GenerationFacts.RepeatedParameter | kaleidoscope/toy.cpp:1001-1004 | in `def f(x x)` the body sees `x` as the first argument and `x1` as the second |
| GenerationFacts.GenFunctionEffects | kaleidoscope/toy.cpp:1009-1055 | the prototype is always registered and a binary operator's precedence always installed; a successful body completes the function, a failed one removes it; every other function is kept as it was, the only ones added are declarations of registered prototypes, and argument names stay distinct |
| GenerationFacts.NoRedefinitionCheck | kaleidoscope/toy.cpp:1013-1017 | `FunctionAST::codegen` taken alone: a module function that already has a body is replaced by a new definition whose body generates. In a session this state does not arise, since every generated definition leaves in its own module; `Toplevel.RedefinitionJitted` states the session-level fact |
| Codegen.CodeGen.constructor | kaleidoscope/toy.cpp:52-53 | empty tables that share `BinopPrecedence` |
| Codegen.CodeGen.InitializeModule | kaleidoscope/toy.cpp:1057-1075 | a fresh empty module; every other table is kept |
| Codegen.CodeGen.LookupNamed | kaleidoscope/toy.cpp:742 | `NamedValues[x]`, as `Lookup` gives it |
| Codegen.CodeGen.Alloca | kaleidoscope/toy.cpp:694-699 | the slot and state that `Alloc` gives |
| Codegen.CodeGen.GetFunction | kaleidoscope/toy.cpp:701-712 | the result and state that `GetFn` gives |
| Codegen.CodeGen.Codegen | kaleidoscope/toy.cpp:718-990 | the value and state that `Gen` gives |
| Codegen.CodeGen.CodegenVariable | kaleidoscope/toy.cpp:718-726 | the value and state that `GenVariable` gives |
| Codegen.CodeGen.CodegenUnary | kaleidoscope/toy.cpp:827-837 | the value and state that `GenUnary` gives |
| Codegen.CodeGen.CodegenBinary | kaleidoscope/toy.cpp:728-777 | the value and state that `GenBinary` gives |
| Codegen.CodeGen.CodegenIf | kaleidoscope/toy.cpp:839-889 | the value and state that `GenIf` gives |
| Codegen.CodeGen.CodegenFor | kaleidoscope/toy.cpp:891-969 | the value and state that `GenFor` gives |
| Codegen.CodeGen.CodegenLoop | kaleidoscope/toy.cpp:915-968 | the value and state that `GenLoop` gives |
| Codegen.CodeGen.CodegenVar | kaleidoscope/toy.cpp:779-825 | the value and state that `GenVar` gives |
| Codegen.CodeGen.CodegenBindings | kaleidoscope/toy.cpp:785-812 | the saved entries and state that `GenBindings` gives |
| Codegen.CodeGen.RestoreBindings | kaleidoscope/toy.cpp:820-821 | `NamedValues` becomes what `Restore` gives; nothing else changes |
| Codegen.CodeGen.CodegenCall | kaleidoscope/toy.cpp:972-990 | the value and state that `GenCall` gives |
| Codegen.CodeGen.CodegenProto | kaleidoscope/toy.cpp:992-1007 | the state that `GenProto` gives |
| Codegen.CodeGen.NameArguments | kaleidoscope/toy.cpp:1001-1004 | the argument names the naming loop gives are `ArgNames` of the parameters |
| Codegen.CodeGen.EnterFunction | kaleidoscope/toy.cpp:1013-1038 | the state that `FunctionEntry` gives, and the parameters `EntryParams` names |
| Codegen.CodeGen.AddProto | kaleidoscope/toy.cpp:1099 | `FunctionProtos[name] = proto`; nothing else changes |
| Codegen.CodeGen.CodegenFunction | kaleidoscope/toy.cpp:1009-1055 | the result, tables and `BinopPrecedence` that `GenFunction` gives |
| Toplevel.Start | kaleidoscope/toy.cpp:1186-1205 | the session starts running with the standard operators, empty tables, no JIT modules, and the first token read |
| Toplevel.NewModule | kaleidoscope/toy.cpp:1057-1075 | an empty module; every other table is kept |
| Toplevel.HandleDefinition | kaleidoscope/toy.cpp:1078-1091 | handling a definition keeps the parser well formed, consumes input and keeps the status |
| Toplevel.HandleExtern | kaleidoscope/toy.cpp:1093-1105 | handling an extern consumes input and changes neither `BinopPrecedence`, the JIT nor the status |
| Toplevel.HandleTopLevel | kaleidoscope/toy.cpp:1129-1159 | handling a top-level expression consumes input; it keeps the status or aborts |
| Toplevel.Step | kaleidoscope/toy.cpp:1163-1178 | a pass finishes exactly at EOF, consuming nothing then; otherwise it consumes input |
| Toplevel.Run | kaleidoscope/toy.cpp:1161-1180 | the loop always ends, either finished at EOF or aborted |
| Toplevel.ParseErrorSkipsOne | kaleidoscope/toy.cpp:1078-1159 | an item whose parse fails changes nothing but the input, which moves one token past where the parser stopped |
| Toplevel.GenFunctionTable | kaleidoscope/toy.cpp:1009-1055 | function codegen's result and tables do not depend on the precedence table, and agreeing tables stay in agreement |
| Toplevel.DefinitionNamed | kaleidoscope/toy.cpp:1078-1091 | a definition keeps every module, registered and JIT name starting with a letter |
| Toplevel.ExternNamed | kaleidoscope/toy.cpp:1093-1105 | an extern keeps every name starting with a letter |
| Toplevel.TopLevelExprNamed | kaleidoscope/toy.cpp:1129-1159 | a top-level expression keeps every name starting with a letter |
| Toplevel.StepNamed | kaleidoscope/toy.cpp:1163-1178 | every pass keeps every name starting with a letter |
| Toplevel.RunNamed | kaleidoscope/toy.cpp:1161-1180 | a whole run keeps every name starting with a letter |
| Toplevel.StepDeclared | kaleidoscope/toy.cpp:1163-1178 | every pass keeps the argument names of each function of the module distinct |
| Toplevel.RunDeclared | kaleidoscope/toy.cpp:1161-1180 | a whole run keeps the argument names of each function distinct |
| Toplevel.AnonNeverFound | kaleidoscope/toy.cpp:1143 | a JIT holding only names that start with a letter never yields `__anon_expr` |
| Toplevel.TopLevelAborts | kaleidoscope/toy.cpp:1136-1145 | a top-level expression aborts the process exactly when it parses and generates |
| Toplevel.RedefinitionJitted | kaleidoscope/toy.cpp:1078-1086 | a definition of a name that a JIT module already defines is generated and handed to the JIT like any other, which then holds two modules defining it |
| Toplevel.DefinitionJitted | kaleidoscope/toy.cpp:1080-1086 | a generated definition goes to the JIT in a module of its own; the next item starts in an empty module, where the function is found as a declaration from `FunctionProtos` with its numbered argument names |
| Toplevel.DefinitionInstallsOperator | kaleidoscope/toy.cpp:1020-1021 | in the session after `def binary c p`, c is a binary operator of precedence p, whether or not the body generates |
| Toplevel.StepPrecedence | kaleidoscope/toy.cpp:1020-1021 | `BinopPrecedence` changes only when a definition of a binary operator parses; then exactly its operator gets its precedence |
| Driver.Interpreter.constructor | kaleidoscope/toy.cpp:1186-1205 | the interpreter starts in the state `Start` gives |
| Driver.Interpreter.HandleDefinition | kaleidoscope/toy.cpp:1078-1091 | the new session is what `Toplevel.HandleDefinition` gives |
| Driver.Interpreter.HandleExtern | kaleidoscope/toy.cpp:1093-1105 | the new session is what `Toplevel.HandleExtern` gives |
| Driver.Interpreter.HandleTopLevelExpression | kaleidoscope/toy.cpp:1129-1159 | the new session is what `Toplevel.HandleTopLevel` gives |
| Driver.Interpreter.Dispatch | kaleidoscope/toy.cpp:1163-1178 | one pass of the switch, as `Step` gives it |
| Driver.Interpreter.MainLoop | kaleidoscope/toy.cpp:1161-1180 | the loop ends in the session `Run` gives |

## Left out

- LLVM IR is not modelled. The instructions, basic blocks, the pass manager, the optimisation passes and `verifyFunction` are absent; only the tables and the list of stores are kept.
- What the JIT does when a second module defines a symbol it already holds is not modelled. `addModule`'s result is not checked at line 1084, and the model keeps both modules.
- The JIT does not execute code. The value of a top-level expression is never computed, because the lookup that precedes execution always fails.
- Object-file emission after `MainLoop` returns is not modelled. That code is outside the front end.
- Double-precision arithmetic is not modelled. A number is kept as its lexeme. `strtod` is the parameter `num`, used only for the precedence of `binary`.
- Standard input is not modelled as a device. It is a finite sequence of characters, and EOF is its end.
- The error messages printed by `LogError` and the `fprintf` calls in the handlers are not modelled. An error is the null result only.
- `putchard` and `printd`, the library functions called from compiled code, are not modelled.
- LLVM renames a second function created under a name already in the module. `Generation.GenProto` keeps the existing entry instead.
- A `=` whose left side is not a variable uses the result of a `static_cast` to the wrong type. That is undefined behaviour, modelled as a failure.
- A load from a null `NamedValues` entry is kept as the symbolic value `Load(None)`. The store of a failed assignment's null value is kept as `NullStore`. What LLVM would do with either is not modelled.
- A binary operator without a `binary` function triggers a failed `assert` in the source. It is modelled as a codegen failure, not a process abort.
- `Generation.GenFunction` installs a binary operator's precedence only when the name is non-empty. `getOperatorName` would read before the name otherwise. The parser never produces such a prototype.
- GenerationFacts.ScopeRestored: requires that no `var` group binds a name twice. With a repeated name the scope is not restored; `GenerationFacts.DuplicateVarLeaks` shows this.
- GenerationFacts.ForScope: requires the same.
- GenerationFacts.VarScope: requires the same.
- GenerationFacts.LoopScope: requires the same.
- GenerationFacts.ArgsScope: requires the same.
- GenerationFacts.BindingsScope: requires the same.
- LLVM truncates a local name longer than 1024 characters before numbering it. `Naming.SetName` does not.
- Naming.SetName: numbers an empty argument name. LLVM leaves such an argument unnamed. The parser never produces one, because identifiers are non-empty.
- Ast.Prototype.OperatorName: states only that the operator is a character of the name. That it is the operator character the prototype was written with is the content of `GrammarFacts.UnaryPrototype` and `GrammarFacts.BinaryPrototype`.
- Grammar.PExpression and the other parser functions: their own contracts state only progress and well-formedness. The lemmas of `GrammarFacts` state the shapes of prototypes, identifiers and calls, `var` groups, binary chains and prefix operators. The shapes of `if`, `for` and parenthesised expressions have no lemma of their own.
- The `IBM_tutorial` copies of the program are not part of this model.
