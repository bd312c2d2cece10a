# NSL, verified

A Dafny model of NSL, the NeX Skill Language: its parser, compiler and interpreter, and the
protocols built around the interpreter. `dafny verify dfyconfig.toml` checks all of it.

A skill is a small program with declared inputs, context values, tools, resource limits and an
output schema. Its body lets names, loops, checks conditions and emits rows; its expressions read
tools. The compiler resolves names to numbered symbols, types every expression, classifies every
value and bounds what a run can spend. The interpreter trusts none of it and checks
everything again. The model proves that the two agree, for every program, every
input and every behaviour of the tools.

- **The language.** `Lexer` and `Parser` turn text into expressions; `Lexemes` says what each token
  spells, `Grammar` and `Strata` which token lists stand for which trees, the second in a grammar that
  names its levels and operators, and `Rendering` goes from trees to text and back. `Symbols`,
  `Compiler` and `Bounds` lower and bound a skill; `Acceptance` says which skills the compiler takes, and
  `Unlowering` that what it makes of them reads back as they were. `Semantics` says what running code
  does to the bindings and the ledger of a run; `Runtime` is the interpreter itself, classes with
  frames, meters and counters, proved to do what `Semantics` says. `SourceSemantics` gives the same
  program a meaning by names and lexical scopes alone, and `LoweringCorrect` and `CompiledSkills` show
  that the compiled code has that meaning.
- **What values and runs mean.** Compiler, interpreter and source semantics share the operators, the
  built-ins, the order of classifications and the verdicts of checks. `OperatorLaws` and `BuiltinLaws` say
  what those compute, in terms of numbers and orders alone; `ClassificationFlow` and `ProvenanceFlow`
  follow data from its sources to the outputs, in an order of classifications spelled out; `Verdicts`
  ties every recorded check to its condition; `RunLimits` says when calls are made and accepted, when a
  run starts, where it stops and what it reports. `Typing`, `Bounds` and `CompletenessProofs` prove types,
  limits and completeness tags sound; `CheckIds` says when a run has a result at all.
- **Runs kept for later.** `Replay` records and replays a run; `Diff` compares the two results;
  `Numerals`, `Json`, `Codec` and `Checkpoint` encode numbers, values, code and suspended runs;
  `Suspension` shows that a run cannot tell that it was suspended, and `SuspendedSkills` when an
  accepted skill's runs can be.
- **The controlled WRITE.** `Links` are the rules that tie a WRITE to its approval, checked once by
  the compiler and once by the schema; `Claims` and `Resume` are the resume protocol over two
  files; `WriteExecution` is the guarded call of the provider, with its evidence and journal;
  `ControlledExecution` splits a body at the WRITE and finishes it after the commit, and
  `ControlledScope` says which symbols each part can rely on, and `ControlledTyping` that each part is
  type-safe.
- **Beside it.** `Includes` is the include traversal; `Audit` is the append-only audit store.

Tools, providers, evidence stores, the clock and the verifier of approval evidence are arbitrary:
each is a function, or an answer, that every theorem is stated for all values of.

## What turned out to hold only under a condition

Each is proved as an if-and-only-if with the condition spelled out, or is a run or an input that
shows the failure.

- A value survives its encoding exactly when no record in it looks like a typed scalar, that is,
  carries a recognised `$type`, and every decimal in it has a finite text
  (`Json.ValueSurvivesExactly`). The same condition on literals decides whether code survives
  (`Codec.BlockSurvivesExactly`), and, with the required texts being there, whether a suspended run
  can be restored (`Checkpoint.StateSurvivesExactly`). In runs of accepted skills whose declared types
  are free of `$type` only a decimal is ever in the way (`SuspendedSkills.RunsAreSuspendable`).
- An accepted include stays below the include root exactly when that root is relative or normalises to
  no parts at all; under `/` the canonical path begins with two slashes, and a further include from
  there is refused
  (`IncludePaths.CanonicalPathStaysInside`, `IncludePaths.AbsoluteRootIsLost`).
- A run of version 0.2 has a result exactly when no check id was recorded twice or is blank. For an
  accepted skill whose CHECKs stand outside loops only blank ids are in the way
  (`CheckIds.ResultsExist`); a completed run that comes twice to one CHECK, at any depth of loops, or to
  two CHECKs of one id, has none (`CheckIds.RepeatedCheckHasNoResult`), and what follows does not
  help (`CheckIds.RepetitionIsFinal`).
- Parsing undoes printing exactly when no call's first operand begins with the string literal `")"`
  (`Parser.PrintingIsUndoneExactly`), because the parser compares tokens by text.
- The difference report is empty exactly when the two trees are equal up to `true` and `1`, `false`
  and `0` (`Diff.Compare`, `Diff.TruthAndOneAreTakenForEqual`).
- The link rules of the compiler and of the schema agree exactly when no approval stands inside a
  loop, which the schema does not look at (`Links.LinkChecksSurviveLowering`).
- A controlled plan's parts make up the body exactly when the WRITE directly follows the approval
  (`ControlledExecution.PlanCoversAdjacentOnly`). The WRITE's arguments and the rest of the skill
  know all their symbols exactly when they use none that was introduced between the two
  (`ControlledScope.PlanScopes`, `ControlledScope.ControlledRunsKnowTheirSymbols`).
- A resume returns a restored context even when its verdict used nothing up; the approval is then
  still pending, and nothing after the WRITE can run from it (`Resume.ApprovalStandsOnlyOnceConsumed`).
- A commit decision comes with a provider call behind durable evidence, except when the evidence port
  itself reports an uncertain commit: then nothing was called and reconciliation is required
  (`WriteExecution.DecisionsWithoutACall`).
- A taken audit event keeps a file that loads loadable exactly when the cache knew the true end of its
  chain and the last line was ended (`Audit.JsonlAuditStore.Append`). A store stays sound exactly as
  long as no append fails after beginning its line (`Audit.AppendingKeepsSound`, `Audit.EmitAll`)
  and no rewrite fails after touching the file; a rewritten file loads exactly when the rewrite did
  not stop inside a line (`Audit.JsonlAuditStore.DeleteExecution`). `Audit.StaleCacheRun` is a run that
  ends with a file that does not load, `Audit.Operate` any run in which no write stops half way.
- A value is as classified as its most classified source, and what it refers to was answered within that
  classification, except behind a check: the record of a check is INTERNAL whatever its condition
  was, so it is less classified than its condition exactly when that is above INTERNAL
  (`ProvenanceFlow.VerdictsAreInternal`, `ProvenanceFlow.EmittedReferencesAreBacked`).
- A claim can still be taken after its checkpoint was consumed, and then stays behind
  (`Claims.ClaimCanOutliveConsumption`): exactly when some process was past its look at the consumed
  file, and the claim file is free or its holder can still remove it (`Claims.LateClaims`). It never
  leads to a second resume.

## Model

| member | source | states |
|---|---|---|
| Lexer.Scan | nsl/syntax.py:400-648 | The scanning loop, with its running line and column, computes exactly the reference scan. |
| Lexer.ScanString | nsl/syntax.py:436-503 | Inside a string, escapes and line breaks included, line and column stay those of the offset; the value is what the text between the quotes spells. |
| Lexer.ScanNumber | nsl/syntax.py:504-561 | Integers, decimals and durations are told apart, and a duration stands for its milliseconds. |
| Lexer.CleanScanTiles | nsl/syntax.py:400-648 | A scan without diagnostics tiles the text: lexemes are their slices, in order and disjoint, with only white space and whole comments between them, and every line and column follows from the offset. |
| Lexer.LayoutIsImmaterial | nsl/syntax.py:400-648 | The lexemes of a text, written out one space apart, scan to the same tokens with the same kinds and values. |
| Lexer.PieceShifts | nsl/syntax.py:504-627 | Cut out and followed by a space, a lexeme is the same lexeme wherever it stands. |
| Lexemes.TokensFitTheirLexemes | nsl/syntax.py:400-648 | Every token of every scan, clean or not, has the kind and the value its lexeme spells: each mark by name, escapes one by one, milliseconds, seconds and minutes by their lengths, keywords listed. |
| Parser.PrintingIsUndoneExactly | nsl/syntax.py:1259-1359 | Parsing the minimally parenthesised print of a tree, followed by anything that ends an expression, gives the tree and that rest exactly when no call's first operand starts with the string `")"`. |
| Parser.ParsedLiteralsAreProper | nsl/syntax.py:1271-1359 | Whatever the parser accepts has only literals whose type is that of the token they came from. |
| Parser.OperatorNamed | nsl/syntax.py:815-826 | The ten operator texts name the ten operators, one to one. |
| Parser.ExpressionParser.Expression | nsl/syntax.py:1259-1269 | The climbing loop, advancing through the tokens, parses what the recursive parser parses; which trees those are, `Strata.ParserReadsTheStrata` says without its table of precedences. |
| Parser.ExpressionParser.Primary | nsl/syntax.py:1271-1359 | Literals, parentheses, calls, reads, writes and paths are parsed as the grammar says. |
| Parser.ExpressionParser.Accept | nsl/syntax.py:876-880 | A token is taken by its text, whatever its kind. |
| Parser.ExpressionParser.QualifiedName | nsl/syntax.py:902-906 | A name is its parts joined by dots. |
| Grammar.ParserFollowsTheGrammar | nsl/syntax.py:1259-1359 | For every token list, accepted or not: the parser reads the whole list as a tree exactly when the list derives that tree in the layered grammar, where a right operand stands one level above its operator. |
| Grammar.ConsumedTokensDerive | nsl/syntax.py:1259-1359 | Whatever the parser consumes derives the tree it returns at the level asked for, the rest is a suffix of the input, and no operator of that level was left to take. |
| Strata.ParserReadsTheStrata | nsl/syntax.py:815-826 | For every token list: the parser reads all of it as a tree exactly when the list derives that tree in the grammar equality, comparison, sum, product, primary, with `==` `!=`, the four comparisons, `+` `-` and `*` `/` each at its own level and to the left; no precedence number appears. |
| Rendering.TextRoundTrip | nsl/syntax.py:1259-1359 | From tree to text and back: the written print of a tree whose names and decimals can be spelt scans without diagnostics, and its tokens parse to the tree exactly when no call's first operand starts with the string `")"`. |
| Rendering.RenderedScans | nsl/syntax.py:400-648 | Tokens written one space apart scan back to the same tokens, wherever in a text they stand. |
| IncludePaths.CanonicalIncludePath | nsl/includes.py:49-96 | The path computed step by step is the canonical path, or none when the source refuses the include. |
| IncludePaths.CanonicalPathStaysInside | nsl/includes.py:49-96 | For every including path and root: an accepted include steps up nowhere, and stays below the include root exactly when that root is empty or relative. |
| IncludePaths.UnsafeIncludesAreRefused | nsl/includes.py:54-64 | An include is accepted only as a relative path with the language's extension, without backslashes, drive or null character. |
| IncludePaths.AbsoluteRootIsLost | nsl/includes.py:49-96 | Under the root `/` an accepted include has a path that is not below the root, and a further include from it is refused. |
| IncludePaths.PartsOfJoin | nsl/includes.py:49-96 | Writing plain parts as a path and reading them back gives the same parts. |
| Includes.Build | nsl/includes.py:195-321 | On success the fragments are exactly the sources reachable from the root, each once, the edges exactly their declarations, all limits kept and the include graph acyclic; every refusal is justified by what is reachable. |
| Includes.CompletionIsAcyclic | nsl/includes.py:215-312 | An order in which every source comes after what it includes holds everything reachable and leaves no source that includes itself, however indirectly. |
| Includes.ActiveTargetCloses | nsl/includes.py:270-276 | Meeting a source that is still being visited is a real cycle. |
| Includes.Traversal.Visit | nsl/includes.py:215-310 | One source's declarations are recorded in order and everything they lead to is finished; the stack of active sources is as before. |
| Includes.Traversal.VisitDeclaration | nsl/includes.py:221-310 | One declaration adds its edge, and either meets a finished source, visits a new one, or is refused with cause. |
| Symbols.SymbolTable.Declare | nsl/symbols.py:74-102 | A name not yet visible gets the next symbol number in the innermost scope; a visible one changes nothing. |
| Symbols.SymbolTable.LeaveScope | nsl/symbols.py:67-72 | Scopes are left in stack order and the root scope never. |
| Symbols.FindIsTheOnlyBinding | nsl/symbols.py:130-149 | Without shadowing, the innermost-first search finds the one visible binding of a name. |
| Symbols.DeclaringStaysUnambiguous | nsl/symbols.py:74-102 | Declaring keeps every name in one scope and every symbol number used once. |
| Compiler.ResolveTools | nsl/compiler.py:508-563 | Required tools are numbered from one, one entry each, and a tool required twice is refused. |
| Acceptance.CompilerAcceptsTheWellTyped | nsl/compiler.py:479-678 | The compiler accepts exactly the skills whose tools are given, whose names and outputs are distinct, whose body is well typed by name, in rules without tables, numbers or nodes, and whose bound is within the limits. |
| Acceptance.BlockIsAccepted | nsl/compiler.py:680-793 | A block is lowered exactly when it is well typed by name, and the table then shows just the names the rules give it. |
| Acceptance.ToolsAreResolved | nsl/compiler.py:508-563 | Tools resolve exactly when each is in the catalogue and none is required twice, and then to the catalogue's entries, numbered in order. |
| Unlowering.CompiledSkillReadsBack | nsl/compiler.py:479-678 | With the names of its symbols and tools, a compiled skill reads back as the skill it was compiled from: declarations, every expression, bound, severity, message and approval. |
| Unlowering.LoweringIsInjective | nsl/compiler.py:680-793 | Two bodies that are lowered alike, with the same names for the same numbers, are the same body. |
| LoweringTyped.LoweredExprIsTyped | nsl/compiler.py:795-909 | Every lowered expression is well typed, and its classification is the one the compiler recorded for it; that this is the highest of its sources is `ClassificationFlow.CompilerRecordsTheHighest`. |
| LoweringTyped.LoweredBlockIsTyped | nsl/compiler.py:680-793 | Every lowered block is well typed in the scope it was lowered in, and the symbol table afterwards describes the scope after it. |
| LoweringTyped.DeclaringDescribes | nsl/compiler.py:461-477 | A new name's symbol is one no value is bound to yet. |
| LoweringTyped.LeavingDescribes | nsl/symbols.py:67-72 | After a loop the table describes the scope it described before the loop. |
| LoweringCorrect.ExprMeansTheSame | nsl/compiler.py:795-909 | A lowered expression evaluates to the value, failure and ledger that the named expression has in lexical scopes. |
| LoweringCorrect.BlockMeansTheSame | nsl/compiler.py:680-793 | A lowered block stops as its source does, with the same ledger, and every visible name holds what its symbol resolves to. |
| LoweringCorrect.LoopMeansTheSame | nsl/runtime.py:1096-1130 | A loop's symbols, numbered once, are bound afresh in every iteration, as the source's scope is. |
| LoweringCorrect.NameResolves | nsl/runtime_models.py:724-734 | Resolving a name's symbol finds what the innermost scope holds for the name. |
| CompiledSkills.CompilationPreservesMeaning | nsl/compiler.py:479-678 | A compiled skill and its source accept the same requests, stop alike, and leave the same checks, rows, meters, completeness and tool calls. |
| CompiledSkills.CompiledSkillIsTypeSafe | nsl/compiler.py:479-678 | In any run of an accepted skill no name, binding, type, classification or schema error can occur, and on conforming requests no conformance error either; emitted rows fit the output schema. |
| CompiledSkills.CompiledSkillKeepsItsLimits | nsl/compiler.py:621-649 | No run of an accepted skill meets its tool-call, iteration or row limit; it spends at most the static bounds. |
| CompiledSkills.CompiledSymbolsDistinct | nsl/compiler.py:461-477 | Inputs and context values of an accepted skill have distinct symbols, so binding them cannot fail. |
| CompiledSkills.RunsStartAlike | nsl/runtime.py:867-913 | A run starts with exactly the declared symbols bound, tagged as declared. |
| Bounds.AnalyzeBlock | nsl/bounds.py:37-74 | The accumulating pass over a block computes its bound. |
| Bounds.BlockBoundIsSound | nsl/bounds.py:37-97 | From any meter, to completion or failure, a block spends at most its bound and meets no count limit while that much is left; a completed loop-free block spends exactly its bound. |
| Bounds.LoopBoundIsSound | nsl/runtime.py:1096-1130 | A loop over so many items spends at most so many times one more than its body. |
| Bounds.AcceptedBodyKeepsItsLimits | nsl/compiler.py:621-649 | A body whose bound is within the limits never stops on one of the three counts. |
| Typing.ExprIsSafe | nsl/runtime.py:1144-1295 | A well-typed expression yields a value of its static type and exactly its static classification, or fails in a way that a division, a minimum or maximum, or a read in it explains. |
| Typing.BlockIsSafe | nsl/runtime.py:944-974 | A well-typed block keeps the types and classifications of its scope, emits only rows that fit the schema, and fails only in ways its own statements explain. |
| Typing.WellTypedRunIsSafe | nsl/runtime.py:976-1142 | Unknown symbols, second bindings, type and classification mismatches and schema errors are unreachable, across every iteration. |
| Typing.PlainBodyCompletes | nsl/runtime.py:944-974 | A body without division, minimum, maximum and reads completes, or meets a resource limit. |
| Typing.CheckEnvelopeTyped | nsl/runtime.py:1039-1075 | A check's result has the type and classification the compiler gives it. |
| OperatorLaws.OperatorsCompute | nsl/runtime.py:1265-1288 | On two numbers of one type every operator yields the operation of real arithmetic on what they stand for, of the type the static rules give it; only a quotient by zero fails. |
| OperatorLaws.BinaryComputes | nsl/runtime.py:1258-1292 | So a well-typed binary expression over numbers evaluates to that operation on the values of its sides, the left one evaluated first. |
| OperatorLaws.AdditionAssociates | nsl/core.py:180-186 | Sums of ints, decimals and money of one currency do not depend on where they are bracketed. |
| OperatorLaws.SubtractionUndoes | nsl/core.py:180-186 | Subtracting what was added gives back what there was, and a value minus itself is zero. |
| OperatorLaws.MultiplicationDistributes | nsl/runtime.py:1265-1288 | Products of ints and of decimals distribute over sums. |
| OperatorLaws.DivisionUndoes | nsl/runtime.py:1265-1288 | Dividing a product by a factor that is not zero gives the other factor, as a decimal. |
| OperatorLaws.LessIsAnOrder | nsl/core.py:188-194 | On numbers of one type `<` is a strict total order, and holds exactly when the difference is positive. |
| OperatorLaws.ReadFreeIsStateless | nsl/runtime.py:1144-1295 | An expression without a read has one value under given bindings, whatever the run has done before. |
| OperatorLaws.TermsCommute | nsl/runtime.py:1258-1292 | In a well-typed sum or product of numbers without a read, exchanging the sides leaves the value as it is. |
| OperatorLaws.BracketsDoNotMatter | nsl/runtime.py:1258-1292 | A well-typed sum of three expressions without a read evaluates to the same value however it is bracketed. |
| OperatorLaws.LessMeansPositive | nsl/runtime.py:1258-1292 | A well-typed comparison `a < b` without a read evaluates to true exactly when `b - a` evaluates to something positive. |
| BuiltinLaws.ComparisonIsExact | nsl/builtins.py:88-93 | On all values the comparison behind minimum and maximum answers exactly when they compare, lists by their first difference, instants with and without zones never, and then by the order spelled out. |
| BuiltinLaws.ValuesAreOrdered | nsl/builtins.py:88-93 | On the values of one orderable type, nested lists included, that order is total. |
| BuiltinLaws.BuiltinsCompute | nsl/builtins.py:65-99 | `count` is the length, `sum` the total of the amounts, `min` and `max` an item with none before it, or none after it. |
| BuiltinLaws.CallComputes | nsl/runtime.py:1233-1257 | A well-typed call evaluates to what its built-in yields on the list its operand evaluates to. |
| BuiltinLaws.FieldsAreTaken | nsl/runtime.py:1207-1232 | A field is the value under its name, present; a projection is that of every item, in order, and EMPTY exactly for an empty list. |
| BuiltinLaws.LoopsKeepOrder | nsl/runtime.py:1096-1130 | A loop that emits its variable emits the items in order, each with the type of an item and the completeness, classification and references of the list. |
| Operators.BinaryIsSafe | nsl/type_system.py:96-126 | On operands of its types a well-typed operator yields a value of the result type; only dividing by zero fails. |
| Operators.BuiltinIsSafe | nsl/builtins.py:65-99 | A well-typed built-in yields a value of its result type; only an empty or incomparable minimum or maximum fails. |
| Operators.LessOnOneType | nsl/core.py:181-189 | Two values of one type never disagree on currency, and compare whenever the type is orderable. |
| Operators.FieldLookupConforms | nsl/type_system.py:50-67 | The field a well-typed access names is there, with the static type. |
| Semantics.RowOf | nsl/runtime.py:1017-1019 | An emitted row holds exactly the statement's fields, each with its value. |
| Semantics.Resolve | nsl/runtime_models.py:724-734 | A symbol resolves exactly when some frame, context value or input binds it. |
| Effects.BindResolves | nsl/runtime_models.py:692-712 | A symbol that was free resolves to its new value, and every other symbol as before. |
| Effects.LoopStep | nsl/runtime.py:1096-1130 | What an iteration binds is gone after it. |
| Runtime.ResourceGuard.BeforeToolCall | nsl/runtime_models.py:572-578 | A call is counted exactly when the limit allows it. |
| Runtime.ResourceGuard.ObserveCollection | nsl/runtime_models.py:601-605 | The size of a collection is recorded whether or not it is within the limit. |
| Runtime.ExecutionContext.BindValue | nsl/runtime_models.py:692-709 | A symbol is bound once, in the innermost frame; a second binding changes nothing. |
| Runtime.ExecutionContext.ResolveSymbol | nsl/runtime_models.py:724-734 | The search through frames, checks, context and inputs finds what the symbol resolves to. |
| Runtime.ExecutionContext.PopFrame | nsl/runtime_models.py:718-722 | Frames are popped in pairs and the root frame stays. |
| Runtime.ExecutionContext.ObserveCompleteness | nsl/runtime_models.py:736-743 | The run's completeness absorbs what was seen and never improves. |
| Runtime.RuntimeEngine.Evaluate | nsl/runtime.py:1144-1192 | Evaluation returns the reference value or failure and leaves the reference ledger. |
| Runtime.RuntimeEngine.EvaluateNode | nsl/runtime.py:1194-1295 | Each kind of expression is evaluated as the reference says, operands in order; what the shared operators, built-ins and tags come to is stated in `OperatorLaws`, `BuiltinLaws` and `ClassificationFlow`. |
| Runtime.RuntimeEngine.ExecuteRead | nsl/runtime.py:1297-1529 | A read checks arguments and authorisation, counts and numbers its call, and accepts only a result that fits its contract. |
| Runtime.RuntimeEngine.ExecuteBlock | nsl/runtime.py:944-974 | A block run on the context leaves the reference state, whether it completes or fails. |
| Runtime.RuntimeEngine.ExecuteEmit | nsl/runtime.py:976-1037 | A row is appended and counted only after every field has passed its checks; that these let no source through that is more classified than its output is `ClassificationFlow.EmittedSourcesMay`. |
| Runtime.RuntimeEngine.ExecuteCheck | nsl/runtime.py:1039-1075 | A check is recorded before its result is bound; which verdict is recorded and bound, `Verdicts.CheckJudgesItsCondition` says. |
| Runtime.RuntimeEngine.ExecuteForeach | nsl/runtime.py:1077-1130 | The nesting counter comes back down and every iteration's frame is popped, on every path. |
| Runtime.RuntimeEngine.BindDeclared | nsl/runtime.py:867-913 | Every declared value is checked before any is bound. |
| Runtime.RuntimeEngine.ExecuteSkill | nsl/runtime.py:511-751 | A whole run in a fresh context is the reference run. |
| ClassificationFlow.ValueCarriesItsLeaves | nsl/runtime.py:1201-1295 | A value's classification is that of one of the literals, symbols and answers its data comes from, and no lower than any, in the order PUBLIC, INTERNAL, CONFIDENTIAL, RESTRICTED spelled out; and its references are exactly theirs. |
| ClassificationFlow.EmittedSourcesMay | nsl/runtime.py:976-1037 | Fields are emitted only if every source of each is no more classified than its output, and refused for classification only if some source is. |
| ClassificationFlow.NothingIsDeclassified | nsl/compiler.py:765-781 | No row of any run of an accepted skill holds a value more classified than its output. |
| ClassificationFlow.CompilerRecordsTheHighest | nsl/compiler.py:795-909 | The classification the compiler records for an expression is that of one of its static sources, and no lower than any. |
| ClassificationFlow.AcceptedEmitsMay | nsl/compiler.py:765-781 | The compiler accepts an EMIT only if every static source of each field is no more classified than its output. |
| ProvenanceFlow.BlockIsAccounted | nsl/runtime.py:944-974 | In every run, to completion or failure: whatever a bound or emitted value refers to was answered within the value's classification, or a check has looked at it and the value is INTERNAL at least. |
| ProvenanceFlow.EmittedReferencesAreBacked | nsl/runtime.py:976-1037 | In any run of any skill, every reference in an emitted value names an answer of that run, no more classified than the value unless a check lies between, and then the value is not PUBLIC. |
| ProvenanceFlow.VerdictsAreInternal | nsl/runtime.py:1054-1062 | A check's record is less classified than its condition exactly when that is above INTERNAL, and names the condition's references. |
| RunLimits.StartsAreExact | nsl/runtime.py:867-913 | A run starts exactly when every declared input is given, every context path leads to a value, each is of its type, apart from the insides of lists and records, and not too long, and no symbol is declared twice; every symbol then resolves to its own value, complete and tagged as declared. |
| RunLimits.BlockKeepsCounters | nsl/runtime_models.py:566-594 | No run exceeds a count limit, and one that stops for a count has used it up exactly. |
| RunLimits.EmitSchemaIsExact | nsl/runtime.py:984-994 | A row is accepted by names exactly when the outputs are distinct and the fields are the outputs, each once. |
| RunLimits.RunsReportTheirEnd | nsl/runtime.py:632-730 | The status tells completion, a limit, a tool and any other failure apart; completeness, checks, rows and counts of the result are those of the run, and an unfinished run reports PARTIAL or UNKNOWN data. |
| CheckIds.ResultsExist | nsl/runtime_models.py:258-296 | In every run of an accepted skill whose CHECKs stand outside loops, completed or failed, the recorded ids are distinct, so a result can be built exactly when none of them is blank. |
| CheckIds.CheckInALoopHasNoResult | nsl/runtime.py:1540-1561 | A CHECK in a loop that completes over two items or more leaves a ledger from which no result can be built. |
| CheckIds.RepeatedCheckHasNoResult | nsl/runtime.py:1540-1561 | A completed run that comes twice to a CHECK at any depth of nested loops, or to two CHECKs of one id in different statements, such as sibling loops, has no result. |
| CheckIds.RoundsAreRecorded | nsl/runtime.py:1039-1130 | A completed run records a CHECK, however deep in loops, at least as often as its iterations come to it. |
| CheckIds.RepetitionIsFinal | nsl/runtime_models.py:258-296 | Once an id is recorded twice, no continuation of the run, completed or failed, has a result. |
| CheckIds.LoopRepetitionIsFinal | nsl/runtime_models.py:258-296 | The same for the iterations of a loop that are still to come: an id repeated inside one iteration leaves the whole loop without a result. |
| CheckIds.LoweredIdsAreDistinct | nsl/compiler.py:461-477 | Outside its loops, a compiled block declares no check id twice, and none that was a visible name. |
| CompletenessProofs.NoFalsePass | nsl/runtime_models.py:745-752 | A completed run reports exactly the join of what its tools reported. In any run every recorded check was made by a CHECK of the skill, on what its condition evaluated to between the checks before and after it: PASS exactly on true and complete data, FAIL exactly on false and complete data, UNKNOWN exactly on incomplete data; and a run that reports COMPLETE has decided every check. |
| Verdicts.CheckJudgesItsCondition | nsl/validation.py:624-633 | A CHECK on a truth value records one verdict, PASS, FAIL or UNKNOWN by value and completeness, and binds its symbol to an INTERNAL record holding the text "PASS", "FAIL" or "UNKNOWN" accordingly. |
| Verdicts.BlockJustifies | nsl/runtime.py:1039-1075 | Whatever a run goes through, every check in its ledger stays one that a CHECK of the skill made, with the verdict its condition then called for. |
| CompletenessProofs.ValueIsAsCompleteAsItsLeaves | nsl/runtime.py:1531-1538 | A value's completeness is the join over its data-flow leaves, which read arguments are not. |
| CompletenessProofs.BlockIsHonest | nsl/runtime.py:1188-1192 | Every run keeps: its completeness is the join of its tool replies, bound values are no less complete, and decided checks had complete predicates. |
| Projection.ProjectDeclaredContext | nsl/runtime_models.py:148-165 | The loop over declared paths computes the projection. |
| Projection.ProjectionIsFaithful | nsl/runtime_models.py:148-165 | Every declared path resolves in the projected context as in the original, absent paths included. |
| Replay.RecordingToolExecutor.Execute | nsl/replay.py:116-140 | The recorder answers as its delegate and keeps exactly the answered calls. |
| Replay.ReplayToolExecutor.Execute | nsl/replay.py:154-173 | The next recorded call answers only the very request it was made for. |
| Replay.DigestsTellArgumentsApart | nsl/replay.py:380-383 | Requests with one value for every name have the same digest exactly when they have the same names with the same values. |
| Replay.ReplayReproducesTheRun | nsl/replay.py:242-276 | Replaying a completed recorded run on its projected request gives the same run: the same calls in order, all consumed, and an equal semantic view. |
| Replay.CompletedReplayFollowsTheRecording | nsl/replay.py:154-177 | A replay that completes has made only recorded calls, each in its place. |
| Replay.StartNeedsOnlyDeclaredValues | nsl/runtime_models.py:137-165 | A run starts from its declared inputs and context values alone. |
| Replay.BlockIsPortOnly | nsl/runtime.py:944-974 | Two ports that answer alike along a run's calls give the same run. |
| Diff.Compare | nsl/replay.py:321-373 | The report is empty exactly when the trees are equal up to truth values and numbers; otherwise it holds every difference once and no two under one path. |
| Diff.EscapingIsInjective | nsl/replay.py:376-377 | Distinct keys are escaped to distinct texts, as in section 3 of RFC 6901. |
| Diff.SegmentsEndAtSlashes | nsl/replay.py:330-377 | Paths that begin with different steps are different texts, however they go on. |
| Diff.TruthAndOneAreTakenForEqual | nsl/replay.py:366-373 | Two different trees that the comparison takes for equal. |
| Json.ValueSurvivesExactly | nsl/core.py:316-354 | Decoding an encoded value gives it back exactly when no record in it carries a recognised `$type` and its decimals have finite texts. |
| Json.ReadableTextsExist | nsl/core.py:316-354 | There are texts for all decimal fractions, dates and instants that read back, as the codec theorems ask. |
| Numerals.ScaledReadsBack | nsl/core.py:357-365 | Reading the fixed-point text of a whole number over a power of ten, sign, padding and point included, gives that number. |
| Numerals.PointMoves | nsl/core.py:357-365 | A further decimal place divides by ten. |
| Json.TypeSurvives | nsl/core.py:220-249 | Decoding an encoded type gives it back. |
| Codec.ExprSurvivesExactly | nsl/ir.py:582-631 | Decoding an encoded expression, nested calls, reads and writes included, gives it back exactly when its literals survive. |
| Codec.BlockSurvivesExactly | nsl/ir.py:634-673 | Decoding an encoded body, nested loops included, gives it back exactly when its literals survive. |
| Checkpoint.EnvelopeSurvivesExactly | nsl/checkpoints.py:308-346 | An envelope survives exactly when its value does. |
| Checkpoint.BindingsSurviveExactly | nsl/checkpoints.py:349-361 | Inputs, context, frames and check frames survive exactly when every bound value does. |
| Checkpoint.StateSurvivesExactly | nsl/checkpoints.py:623-789 | A checkpointed state decodes to itself, one version on, exactly when it is restorable. |
| Suspension.CheckpointCoordinator.CaptureContext | nsl/checkpoints.py:502-523 | Capturing changes nothing of the context but its checkpoint version. |
| Suspension.CheckpointCoordinator.RestoreContext | nsl/checkpoints.py:525-545 | Restoring gives a fresh context that holds the decoded state, whose guard spends from the restored meter. |
| Suspension.RestoreUndoesCapture | nsl/checkpoints.py:498-545 | Under the capture's own identity and security context, restoring gives back what was captured exactly when it is restorable. |
| Suspension.ForeignCheckpointsAreRefused | nsl/checkpoints.py:547-620 | A checkpoint of another execution, skill, runtime or security context, one of which identity, version or payload was altered without its digest, or one with journalled WRITEs, is refused. |
| Suspension.SuspensionIsInvisible | nsl/checkpoints.py:498-789 | Running one part, capturing, restoring and running the next is running both at once: bindings, checks, rows, meters, completeness, call numbers and calls. |
| Suspension.ConformingValuesAreEncodable | nsl/core.py:338-354 | Data that conforms to types without a `$type` field can be checkpointed exactly when its decimals have finite texts. |
| SuspendedSkills.RunsAreSuspendable | nsl/checkpoints.py:623-789 | In every run of an accepted skill on a conforming request, with declared types free of `$type` and names not blank, the state after any top-level statements before an approval is restorable exactly when all its decimals have finite texts and the checkpoint's own texts are given. |
| SuspendedSkills.SuspendedSkillsResume | nsl/checkpoints.py:498-545 | So a checkpoint taken there restores what was captured exactly in that case. |
| SuspendedSkills.ExprTypeIsTagFree | nsl/type_system.py:50-126 | An expression over names, tools and literals whose types have no `$type` field has such a type itself. |
| Links.LinkChecksSurviveLowering | nsl/ir_schema.py:501-555 | The compiler's link analysers accept a body exactly when the schema accepts what it lowers to and no approval stands in a loop. |
| Links.LoweredBlockKeepsLinks | nsl/compiler.py:680-793 | Lowering keeps approvals and WRITEs, their order and whether a loop surrounds them. |
| Links.AnalyzeApprovals | nsl/compiler.py:129-229 | The analyser accepts exactly when approvals are unique, each WRITE has an earlier one of its own, none is left over, and the one WRITE is outside every loop with a WRITE tool. |
| Links.WriteIsSafe | nsl/compiler.py:252-334 | At most one WRITE, outside every loop, naming a tool of WRITE capability. |
| Links.ValidateLinks | nsl/ir_schema.py:501-555 | The validator's tables and counts accept exactly the bodies that satisfy the same rules by position. |
| Links.LinkCollector.CollectBlock | nsl/ir_schema.py:436-498 | Collecting numbers the statements in order and gathers every WRITE, and every approval once, with its number. |
| Links.RegisterIsExact | nsl/ir_schema.py:436-498 | The table of approvals can be built exactly when none is declared twice, and says which there are and where. |
| ControlledExecution.PlansAreExact | nsl/runtime.py:124-162 | A plan is found exactly for one top-level approval before one top-level WRITE bound to it, and consists of what precedes and follows them. |
| ControlledExecution.PlanCoversAdjacentOnly | nsl/runtime.py:157-162 | The plan covers the body exactly when the WRITE directly follows the approval; what stands between belongs to no part. |
| ControlledExecution.CompleteControlled | nsl/runtime.py:431-509 | The suffix runs exactly when the approval stands, the commit is of this request and node, and its verification is of that commit and VERIFIED or NOT_REQUESTED; then as the reference run from the bound result. A result without it is given exactly when there was no commit or its verification failed or is unknown; anything else is refused and changes nothing. |
| ControlledScope.PlanScopes | nsl/runtime.py:124-162 | A symbol used by the WRITE's arguments or after it is known to the plan exactly when it was not introduced between approval and WRITE; when the two are adjacent, nothing is. |
| ControlledScope.ControlledRunsKnowTheirSymbols | nsl/runtime.py:415-509 | In every run of an accepted controlled skill, whatever is committed, prefix, arguments and suffix meet no unknown symbol if they use nothing introduced between; if they do use such a symbol, outside loop bodies, the arguments are never evaluated or the suffix never completes. |
| ControlledTyping.ControlledSkillIsTypeSafe | nsl/runtime.py:415-509 | In every run of an accepted controlled skill the prefix meets no name, binding, type, classification or schema error; if nothing introduced between approval and WRITE is used later, the arguments fit the WRITE's contract and the suffix is as safe for every committed value of the contract's type and classification; on conforming requests and values there is no conformance error either. |
| ControlledTyping.LoweredBodyIsTyped | nsl/compiler.py:680-793 | Every compiled body with approvals and WRITEs at its top level is well typed, the WRITE's arguments by its tool's contract. |
| ControlledTyping.BlockNarrows | nsl/compiler.py:680-793 | A well-typed block stays well typed, with the same classifications, in a smaller scope that knows what it uses. |
| Claims.AtMostOneResume | nsl/cli_controlled.py:83-160 | However many processes interleave their file operations or stop between them: one holder at a time, the claim is removed only by its creator, and at most one consume ever returns. |
| Claims.ConsumptionIsFinal | nsl/cli_controlled.py:122-135 | Once the consumed file exists, only the process that created it can still return from consume. |
| Claims.ClaimAlone | nsl/cli_controlled.py:83-111 | An undisturbed claim takes the free claim of an unconsumed checkpoint, and nothing else. |
| Claims.ReleaseAlone | nsl/cli_controlled.py:113-120 | An undisturbed release removes the process's own claim, and nothing else. |
| Claims.ConsumeAlone | nsl/cli_controlled.py:122-135 | An undisturbed consume by the holder uses the checkpoint up; any other changes nothing. |
| Claims.ClaimCanOutliveConsumption | nsl/cli_controlled.py:95-110 | A claim checked before and created after a consumption is taken, fails to consume, and stays behind. |
| Claims.LateClaims | nsl/cli_controlled.py:83-160 | Once the checkpoint is consumed, some continuation takes its claim exactly when a process is writing its claim, or stands past its look at the consumed file while the claim file is absent or belongs to another process that has not stopped; otherwise no continuation adds a holder. |
| Claims.StepKeepsInvariant | nsl/cli_controlled.py:83-160 | Every single file operation keeps what each process's place in its call says about the two files. |
| Resume.FileControlledStatePort.Claim | nsl/cli_controlled.py:83-111 | The port's claim is the undisturbed run of its file operations, and succeeds only for the checkpoint asked for. |
| Resume.FileControlledStatePort.Consume | nsl/cli_controlled.py:122-135 | The port's consume is the undisturbed run of its file operations. |
| Resume.ApprovalResumeCoordinator.Resume | nsl/approval.py:703-799 | A context is returned exactly when the token fits, the claim is free and unconsumed, and restoring and judging it raise nothing; it is used up exactly when the verdict is conclusive; and whatever raises or is inconclusive leaves the claim free and the checkpoint unconsumed. |
| Resume.ApprovalStandsOnlyOnceConsumed | nsl/approval.py:766-799 | After an inconclusive verdict the returned context still has the approval pending, so nothing after the WRITE can run from it; after a conclusive one the approval stands exactly for genuine, approving evidence whose end, if it has one, is still to come, and that agrees with every binding, while the WRITE is still the approved one; nothing else of the context changes, nor any other approval. |
| WriteExecution.Reserve | nsl/idempotency.py:359-441 | A reservation succeeds exactly when the intent is the context's own, neither its key nor its payload differs from what its node is bound to, and the port answers with this very record and no conflict; it then binds both, and otherwise changes nothing. |
| WriteExecution.WriteExecutionCoordinator.Invoke | nsl/write_execution.py:440-482 | The provider is called, once, exactly when the decision allows it, the execution is the context's own and the evidence port has durably recorded this very request; which error it is otherwise is decided too, and the trace holds the request record before the call. |
| WriteExecution.WriteOutcomeCoordinator.Finalize | nsl/write_execution.py:839-911 | An outcome is journalled exactly when it is the request's own, the context's, agrees with the node's bindings, and the port's receipt acknowledges this very record at no earlier time; the record tells its commit state, reason and reference, and the decision is completed, failed or to be reconciled exactly as the outcome is a commit, none, or unknown, never with a retry. Each refusal is told apart and leaves the journal alone. |
| WriteExecution.CommitAwareWriteExecutor.Execute | nsl/write_execution.py:956-995 | Whatever the ports do: there is a decision exactly when the attempt was allowed and own, ended in a call or in an uncertain evidence record, and its outcome was asked for and acknowledged; it says completed exactly for a commit, failed exactly for none, reconcile exactly for an unknown one; trace, provider calls, journal and durability mark afterwards are stated exactly. |
| WriteExecution.CommitAwareWriteExecutor.ExecuteTrusted | nsl/write_execution.py:1029-1077 | With trust in exactly this tenant and skill it does what `Execute` does; without, nothing happens at all. |
| Audit.LoadsExactlyFullChains | nsl/audit_persistence.py:138-153 | A log loads exactly when the events of every execution form a full chain from one, and yields the last event of each. |
| Audit.RemovalReloads | nsl/audit_persistence.py:88-136 | Removing whole executions leaves a log that loads, with the other tails unchanged. |
| Audit.RemovalLoads | nsl/audit_persistence.py:88-136 | For any log, full chains or not: what is left after removing whole executions loads exactly when every other execution is a full chain. |
| Audit.JsonlAuditStore.Append | nsl/audit_persistence.py:45-73 | An event is taken exactly when it is intact and continues the cached chain, and its line is in the file as far as the write came. A file that loads then still loads exactly when its last line was ended and the cache knew the true end of the chain; and the store is sound afterwards exactly when it was and the write did not fail after beginning the line. |
| Audit.JsonlAuditStore.DeleteExecution | nsl/audit_persistence.py:88-106 | One execution's records go and all others stay; file, cache and kind of failure are stated for every way the rewrite can end, inside a line included: a file that loaded still does unless a line was torn, and a sound store stays sound exactly when the removal succeeded or the file was not touched. |
| Audit.JsonlAuditStore.PurgeExpired | nsl/audit_persistence.py:108-136 | Exactly the executions all of whose records have expired go, each as a whole, with the same statement for every way the rewrite can end. |
| Audit.WritingALine | nsl/audit_persistence.py:45-73 | A line written under any cache, as far as the write came, leaves a file that loads exactly when nothing was written, or the line stands whole on a line of its own and the cache knew the true end of its chain. |
| Audit.AppendingKeepsSound | nsl/audit_persistence.py:45-73 | No append makes an unsound store sound, and a sound one stays so exactly when the line was written or not begun. |
| Audit.RewrittenLoads | nsl/audit_persistence.py:181-189 | A rewrite of a loadable log, wherever it stops, leaves a file that loads exactly when it did not stop inside a line. |
| Audit.StaleCacheRun | nsl/audit_persistence.py:45-153 | An event, a deletion that fails after emptying the file, a second event that is taken: the file then does not load. |
| Audit.Operate | nsl/audit_persistence.py:45-153 | Whatever is done to a sound store, as long as no write stops half way, it stays sound and no reading or reloading of its file fails. |
| Audit.JsonlAuditStore.LoadAndVerify | nsl/audit_persistence.py:138-153 | Reloading succeeds exactly when every line is a record and every execution in the file is a full chain, and then caches the last event of each. |
| Audit.AuditRecorder.Emit | nsl/audit.py:285-333 | Discontinuity is reported exactly when recorder and store are out of step; a failed append moves neither, and leaves the store sound exactly when it had been and nothing of the line was written. |
| Audit.EmitAll | nsl/audit.py:285-333 | Interleaved recorders of distinct executions, any appends failing, never meet a discontinuity and all stay in step; the store is sound at the end exactly when no append failed after beginning its line. |

## Left out

What the model does not cover, or covers in a simpler form.

Values and names:

- Decimals and money are exact real numbers; the rounding of decimal contexts is not modelled. A
  quotient such as a third, which the code rounds to a finite text, has none here, and the model
  counts a state that holds it as one that cannot be restored.
- Symbols, nodes and tool references are numbers. Their text forms, and the text forms of decimal
  fractions, dates and instants, enter the codecs as two tables that read back (`Codec.Faithful`,
  `Json.Readable`); such tables exist (`Codec.FaithfulNamesExist`, `Json.ReadableTextsExist`).
- Hashes are free of collisions: where the code compares digests the model compares what was
  digested. Base64, canonical JSON text, ZIP packages and signatures are left out with them.
- Operators on values of mixed kinds, which Python would take (a bool as an int, an int as a
  Decimal), end in an evaluation error; no well-typed program meets them on conforming values. A
  mapping given where a list is declared is likewise refused.
- A record type names each field once, and a type value is well formed when it is read.
- Decimal infinities and NaNs are not values here.

The language:

- Declarations, headers, limits and statements are not parsed: the statement parser settles each
  form by its first token.
- Lexer.Scan: only 0 to 9 are digits. The source also takes the further digits of Unicode, and where
  one of them is a digit to `isdigit` but not to `int`, as in the duration `²s`, it raises an uncaught
  ValueError.
- Lexer.ScanNumber: the same digits, and the same uncaught error, are left out.
- The program theorem and the type theorem are stated for bodies without approvals and WRITEs; what
  happens to those two is the subject of `Links`, `ControlledExecution`, `ControlledScope`,
  `ControlledTyping` and `WriteExecution`. `ControlledTyping` takes them to stand at the top level, a WRITE
  as the whole value of a LET, where the link rules of `Links` keep them.
- Including a fragment into the composed skill (`SourceComposer.compose`) is not modelled. Sources
  are identified by their content, and the resolver and the parser answer the same question alike.
- An include chain longer than the depth limit is refused only when it is walked, that is along
  first visits; `Includes.Build` promises a shallow path to every fragment, and no more.

The interpreter:

- Time is left out: deadlines, timeouts and cancellation can only cut a run short, which
  `MeteredExec` and the other step invariants do not mind.
- Runtime.RuntimeEngine.ExecuteSkill: building the result object from the run is left out; whether it
  can be built is the subject of `CheckIds`, for version 0.2 with its summary of checks.
- Audit events, snapshots, redaction and credential checks around a statement are left out; the
  recorder and the store are modelled by themselves in `Audit`.
- The node a run is at (`current_node_id`) is carried through checkpoints but not followed by the
  interpreter. A check result's condition node and reason code are not kept.
- Contract metadata that no modelled step reads is left out: scopes, risk, atomicity, schema hashes.
- Reasoning validators and the pre-write evaluator are decisions that the WRITE pipeline is given.

Replay, checkpoints, comparison:

- The replay bundle's own file format is left out. The report of differences is a sequence in some
  order of keys; which one depends on the order the keys are taken in.
- Only checkpoints with an empty WRITE journal can be restored; journal entries have no encoding.
- JSON is a tree; its text, its byte limits and duplicate keys in a document are left out.

The controlled WRITE:

- Building a call request, and hashing its arguments into a payload hash, is left out; an intent
  comes with its hashes. Retention periods of idempotency evidence are a decision of the validator,
  taken before `WriteExecution.Reserve`.
- A process of `Claims` writes a file in one operation after creating it; a write that stops half
  way reads as not written.
- The suspension coordinator's publishing of the approval request is left out.

The audit store:

- A line of the audit file is a record, a record without its newline, or garbled; the bytes of a
  partly written line are not modelled, and what stands after a garbled line is not followed.
- The payload of an event is opaque, and `read_execution` and the in-memory stores are left out.
