# A verified model of a Lox tree-walking interpreter's core

This project models the core of an interpreter for Lox, a small scripting language, written in TypeScript. It covers these parts:

- the line-by-line scanner that fills a token list and an error list;
- the parser's token cursor and its literal rule;
- the static resolver, which records the scope distance of every variable, assignment, `this` and `super` node and reports misuse;
- the chain of runtime environments, searched by name or addressed by distance;
- user functions and classes as callables;
- the evaluator, which is still a stub;
- the debug printer for expression trees.

The syntax trees and token tables are datatypes. Each part whose source changes things in place is a class whose methods are proved against specification functions. Lemmas then prove what the source promises about those functions. Some examples:

- The token list ends in exactly one EOF.
- A resolved distance reaches the same binding as the runtime search by name.
- Each statement leaves the scope stack balanced and restores the function and class context.
- Every variable, assignment, `this` and `super` node gets the distance its name has where the node stands.
- The cursor never moves past EOF.
- Parameters are bound with the last duplicate winning.
- Printed trees have balanced parentheses.

Modules, one per source file:

| file | module | models |
|---|---|---|
| types.dfy | Types | `app/types.ts`: token types, reserved words, tokens, function and class kinds |
| decimal.dfy | Decimal | the decimal text of integers, used for line numbers and number literals |
| expressions.dfy | Expressions | `app/expressions.ts`: the twelve expression kinds, each node carrying an id |
| statements.dfy | Statements | `app/statements.ts`, plus the function, return and class statements the resolver visits |
| environment.dfy | Environments | `app/environment.ts` |
| resolver.dfy | Resolution | `app/resolver.ts`: the resolver's state and steps as functions, and the `Resolver` class proved to follow them |
| resolver_properties.dfy | ResolverProperties | `app/resolver.ts`: what those functions guarantee |
| lexing.dfy | Lexing | `app/tokenizer.ts`: the scanning loop as functions |
| tokenizer.dfy | Scanner | `app/tokenizer.ts`: the `Tokenizer` object and its loops |
| parser.dfy | Parsing | `app/parser.ts` |
| lox_function.dfy | LoxFunctions | `app/lox-function.ts` |
| lox_class.dfy | LoxClasses | `app/lox-class.ts` |
| interpreter.dfy | Interpreting | `app/interpreter.ts` |
| ast_printer.dfy | Printing | `app/ast-printer.ts` |

Reconciliations with the code base:

- The resolver uses parts the other files do not have. The model adds them as the resolver uses them:
  - `Function`, `Return` and `Class` statements;
  - the `INITIALIZER` function kind and the `NONE`/`CLASS`/`SUBCLASS` class kinds;
  - the scope stack, as a sequence, outermost first;
  - the interpreter's side table, as a map from node id to distance;
  - three-argument error reports, as `Diagnostic(line, where, message)` values.
- The evaluator in `app/interpreter.ts` (lines 34-44) answers 1 for every binary and unary expression, and the model does the same.

## Model

| member | source | states |
|---|---|---|
| Types.TokenTypeTableIsIdentity | app/types.ts:2-26 | every entry of the token-type table maps a key to the string that names it |
| Types.TokenTypeIsDisjointUnion | app/types.ts:47-48 | every token type is either a token-type key or a reserved-word key, and never both |
| Types.ReservedWordKeysDistinct | app/types.ts:28-45 | the sixteen reserved-word keys are pairwise distinct |
| Types.ReservedLexemesDistinct | app/types.ts:28-45 | the sixteen reserved-word lexemes are pairwise distinct, which makes the reverse lookup one-to-one |
| Types.ReservedLexemesOrdered | app/types.ts:28-45 | the lexemes are strictly ascending in table order |
| Types.ReservedWordsLowerCase | app/types.ts:28-45 | each reserved-word lexeme is the lower-case form of its key, as the tokenizer builds them |
| Types.Ordinal | app/types.ts:47-48 | gives each token type a position within the two tables |
| Types.OrdinalInjective | app/types.ts:47-48 | different token types have different positions |
| Types.FromOrdinalOfOrdinal | app/types.ts:47-48 | each token type is recovered from its position |
| Types.TokenTypeKeysInOrder | app/types.ts:2-26 | the token-type table lists its keys in order, one per position |
| Types.ReservedWordKeysInOrder | app/types.ts:28-45 | the reserved-word table lists its keys in order, after the token-type keys |
| Types.FindKey | app/tokenizer.ts:204-205 | a key is found exactly when some entry has the lexeme, and the entry pairs that key with it |
| Types.ReservedWordKey | app/tokenizer.ts:204-205 | the reverse lookup in the reserved-word table succeeds exactly for reserved lexemes |
| Types.ReservedWordKeyRoundTrip | app/tokenizer.ts:204-205 | looking up the lexeme of a reserved word gives back its key |
| Decimal.NatToString | app/tokenizer.ts:78 | the decimal text of a line number is non-empty digits without a leading zero |
| Decimal.IntToString | app/ast-printer.ts:61-63 | an integer's text starts with `-` exactly when it is negative |
| Decimal.ParseNatToString | app/tokenizer.ts:78 | reading the decimal text back gives the number |
| Decimal.NatToStringInjective | app/tokenizer.ts:78 | different line numbers give different texts |
| Expressions.Ids | app/expressions.ts:18-168 | a node's id is among the ids of its tree |
| Expressions.IdsOfAll | app/expressions.ts:106-118 | the ids of each argument are among those of the argument list |
| Environments.FindScope | app/environment.ts:27-37 | finds the first scope on the chain that binds the name; there is none exactly when no scope binds it |
| Environments.DistanceAgreesWithSearch | app/environment.ts:13-45 | when a name is bound at distance d and in no closer scope, `getAt(d)` equals `get`, and `assignAt(d)` and `assign` change the same cell |
| Environments.SearchSkipsUnboundScope | app/environment.ts:19-22 | a scope that does not bind the name passes the search, and the assignment, on to the enclosing chain |
| Environments.GetAfterAssign | app/environment.ts:13-37 | after a successful `assign`, `get` of that name yields the new value |
| Environments.GetOtherAfterAssign | app/environment.ts:13-37 | a successful `assign` leaves every other name's lookup as it was |
| Environments.GetAfterDefine | app/environment.ts:9-11 | after `define` in the innermost scope, `get` yields the new value, shadowing outer bindings |
| Environments.Environment.Scopes | app/environment.ts:4-7 | the chain has one set of bindings per environment, the receiver's own first |
| Environments.Environment.constructor | app/environment.ts:7 | a new environment has no bindings and the given parent |
| Environments.Environment.ChainShape | app/environment.ts:7 | every environment on the chain is well formed, and the environments are distinct, so the chain has no cycle |
| Environments.Environment.Define | app/environment.ts:9-11 | inserts or overwrites only in the receiver's own map; enclosing scopes are unchanged |
| Environments.Environment.Get | app/environment.ts:27-37 | yields the value from the first scope that binds the name, else the "Undefined variable" error |
| Environments.Environment.Assign | app/environment.ts:13-25 | writes only into the first scope that binds the name, else raises the error and changes nothing |
| Environments.Environment.Ancestor | app/environment.ts:47-56 | `ancestor(d)` is the d-th environment of the chain, or the root when the chain is shorter |
| Environments.Environment.GetAt | app/environment.ts:39-41 | reads only the ancestor's own map, yielding `undefined` when the name is absent there |
| Environments.Environment.AssignAt | app/environment.ts:43-45 | writes the ancestor's map, creating the binding if absent; other scopes are unchanged |
| Resolution.Innermost | app/resolver.ts:33-38 | finds the highest-index scope declaring the name; there is none exactly when no scope declares it |
| Resolution.Resolver.constructor | app/resolver.ts:12-16 | a new resolver has no scopes, kinds NONE, an empty side table and no reports |
| Resolution.Resolver.ResolveLocal | app/resolver.ts:32-39 | the new state is `AfterResolveLocal`: distance `size-1-i` recorded for the innermost scope `i` declaring the name, the table unchanged when none does, nothing else changed |
| Resolution.Resolver.BeginScope | app/resolver.ts:41-43 | pushes one empty scope and changes nothing else |
| Resolution.Resolver.EndScope | app/resolver.ts:45-47 | pops the innermost scope, or does nothing on an empty stack |
| Resolution.Resolver.ReportError | app/resolver.ts:66-68 | appends one report with the token's line, ` at '<lexeme>'` and the message |
| Resolution.Resolver.Declare | app/resolver.ts:49-59 | does nothing without scopes; otherwise enters the name as not defined, reporting a redeclaration when it was already there |
| Resolution.Resolver.Define | app/resolver.ts:61-64 | does nothing without scopes; otherwise marks the name as defined in the innermost scope |
| Resolution.Resolver.ResolveExpr | app/resolver.ts:28-30 | the new state is `ResolvedExpr(e, old state)`: every sub-expression resolved left to right, every node's own checks reported and every reference's distance recorded |
| Resolution.Resolver.VisitUnary | app/resolver.ts:180-182 | the new state is that of resolving the operand |
| Resolution.Resolver.VisitGrouping | app/resolver.ts:166-168 | the new state is that of resolving the inner expression |
| Resolution.Resolver.VisitGet | app/resolver.ts:219-221 | the new state is that of resolving the object |
| Resolution.Resolver.VisitOperands | app/resolver.ts:154-157 | binary and logical nodes: the state of resolving the left operand and then, from there, the right |
| Resolution.Resolver.VisitSet | app/resolver.ts:223-226 | the state of resolving the value and then the object |
| Resolution.Resolver.VisitVariable | app/resolver.ts:84-95 | reports a read of a name still marked undefined in the innermost scope, then records the variable's distance |
| Resolution.Resolver.VisitAssign | app/resolver.ts:97-100 | the state of resolving the value, then the assignment's own distance recorded |
| Resolution.Resolver.VisitCall | app/resolver.ts:159-164 | the state of resolving the callee, then each argument in order (`ResolvedExprs`) |
| Resolution.Resolver.VisitThis | app/resolver.ts:228-233 | reports `this` outside a class, then records its distance like a variable's |
| Resolution.Resolver.VisitSuper | app/resolver.ts:235-246 | reports `super` outside a class and in a class without a superclass, then records its distance |
| Resolution.Resolver.ResolveStatements | app/resolver.ts:18-22 | the new state is `ResolvedStmts`: each statement resolved in order from the state the previous one left |
| Resolution.Resolver.ResolveStmt | app/resolver.ts:24-26 | the new state is `ResolvedStmt(s, old state)` for every statement kind |
| Resolution.Resolver.VisitExpressionStmt | app/resolver.ts:123-125 | print and expression statements: the state of resolving their expression |
| Resolution.Resolver.VisitVar | app/resolver.ts:76-82 | declares the name, resolves the optional initializer in that state, then defines the name |
| Resolution.Resolver.VisitBlock | app/resolver.ts:70-74 | the block's statements are resolved in a pushed empty scope, which is then popped |
| Resolution.Resolver.VisitIf | app/resolver.ts:127-131 | the state of resolving the condition, the then-branch and the optional else-branch, in that order |
| Resolution.Resolver.VisitWhile | app/resolver.ts:149-152 | the state of resolving the condition and then the body |
| Resolution.Resolver.VisitFunction | app/resolver.ts:102-106 | declares and defines the name, then the state of resolving the function as FUNCTION |
| Resolution.Resolver.VisitReturn | app/resolver.ts:137-147 | reports `return` at top level and then a returned value in an initializer, then resolves the value |
| Resolution.Resolver.ResolveFunction | app/resolver.ts:108-121 | the new state is `ResolvedFunction`: the body resolved from `BodyState` (kind `kind`, a new innermost scope equal to `ParamScope(params)`, the parameters' redeclaration reports appended); then that scope is closed and the enclosing kind restored |
| Resolution.Resolver.DeclareParams | app/resolver.ts:112-115 | each parameter in turn is declared and defined in the new scope, which ends up as the parameter scope; a repeated name is reported |
| Resolution.Resolver.VisitClass | app/resolver.ts:184-217 | the new state is `ResolvedStmt` of the class: the methods resolved from `EnteredClass`, then the `this` scope and the optional `super` scope closed and the enclosing class kind restored |
| Resolution.Resolver.EnterClass | app/resolver.ts:184-203 | the new state is `EnteredClass`: class declared, self-inheritance reported, SUBCLASS set and the superclass resolved when there is one, then the `super` and `this` scopes opened |
| Resolution.Resolver.DeclareClass | app/resolver.ts:186-193 | sets the class kind to CLASS, declares and defines the class name, and reports a class that names itself as its superclass |
| Resolution.Resolver.OpenSuperScope | app/resolver.ts:195-200 | the state of resolving the superclass, then a pushed scope binding `super` |
| Resolution.Resolver.ResolveMethods | app/resolver.ts:204-210 | the new state is `ResolvedMethods`: each method resolved in turn, `init` as INITIALIZER and every other as METHOD |
| Resolution.ThisDistance | app/resolver.ts:202-203 | inside a method body, `this` resolves to the class's `this` scope, past the scopes the body opened |
| Resolution.SuperDistance | app/resolver.ts:195-203 | in a subclass method, `super` resolves one scope further out than `this` |
| Resolution.DistanceMatchesRuntimeSearch | app/resolver.ts:32-39 | when resolver scopes and runtime scopes declare the same names, the recorded distance is where the runtime search finds the name |
| Resolution.ResolvedReadAgreesWithGet | app/resolver.ts:32-39 | under that correspondence, reading at the recorded distance yields what `get` yields |
| Resolution.ParamScopeBindsParams | app/resolver.ts:112-116 | the parameter scope binds exactly the parameter names, each as defined |
| Resolution.ParamErrorsIffDuplicates | app/resolver.ts:112-116 | parameters produce a redeclaration report exactly when two share a name |
| ResolverProperties.DistanceThroughScope | app/resolver.ts:32-39 | an extra inner scope that does not declare the name adds exactly one hop to its distance |
| ResolverProperties.ExprFrame | app/resolver.ts:154-246 | resolving any expression keeps the scope stack and both kinds, only appends reports, and only adds or changes side-table entries of its own nodes |
| ResolverProperties.ExprsFrame | app/resolver.ts:159-164 | the same for a list of arguments |
| ResolverProperties.StmtFrame | app/resolver.ts:70-152 | any statement keeps both kinds (a function or class restores them), only appends reports, only touches entries of its own nodes, and leaves the stack as it was except that the names it declares are defined in the innermost scope |
| ResolverProperties.StmtsFrame | app/resolver.ts:18-22 | the same for a statement list, with all its declared names defined |
| ResolverProperties.VarFrame | app/resolver.ts:76-82 | the case of a `var` declaration: its name ends defined in the innermost scope |
| ResolverProperties.BlockFrame | app/resolver.ts:70-74 | the case of a block: its declarations leave with its scope, and the stack comes back unchanged |
| ResolverProperties.IfFrame | app/resolver.ts:127-131 | the case of `if`: the names the branches declare end defined |
| ResolverProperties.FunctionStmtFrame | app/resolver.ts:102-106 | the case of a function declaration: its name ends defined |
| ResolverProperties.ReturnFrame | app/resolver.ts:137-147 | the case of `return`: the stack and kinds are unchanged |
| ResolverProperties.FunctionFrame | app/resolver.ts:108-121 | resolving a function restores the scope stack and the enclosing function kind, keeps the class kind, only appends reports and only touches entries of its body's nodes |
| ResolverProperties.MethodsFrame | app/resolver.ts:204-210 | the same for a class's method list |
| ResolverProperties.EnteredClassFrame | app/resolver.ts:184-203 | methods are resolved in `ClassBodyScopes` over the stack with the class name defined, with kind SUBCLASS when there is a superclass and CLASS otherwise |
| ResolverProperties.ClassFrame | app/resolver.ts:184-217 | the case of a class: afterwards the `this` and `super` scopes are gone, the class name is defined and the enclosing class kind is back |
| ResolverProperties.EveryReferenceResolved | app/resolver.ts:84-100 | with distinct node ids, every variable, assignment, `this` and `super` node anywhere in an expression gets the distance of its name in the scopes the expression is resolved in; a global's entry is left alone |
| ResolverProperties.OperandsResolved | app/resolver.ts:154-157 | the same for a node inside either operand of a binary, logical or set node |
| ResolverProperties.EveryReferenceResolvedIn | app/resolver.ts:159-164 | the same for a node inside any argument of a call |
| ResolverProperties.OwnErrorsReported | app/resolver.ts:84-95 | the reports a node makes itself (a read in its own initializer, misplaced `this` or `super`) are among the reports of any expression containing it |
| ResolverProperties.ThisOutsideClassReported | app/resolver.ts:228-233 | `this` anywhere in an expression resolved outside a class is reported |
| ResolverProperties.SuperOutsideSubclassReported | app/resolver.ts:235-246 | `super` anywhere in an expression resolved outside a subclass is reported, as outside a class or as in a class without a superclass |
| ResolverProperties.StmtsSplit | app/resolver.ts:18-22 | resolving a statement list is resolving a prefix and then the rest from where it left off |
| ResolverProperties.MethodsSplit | app/resolver.ts:204-210 | the same for a class's methods |
| ResolverProperties.ReturnReported | app/resolver.ts:137-147 | the reports of a `return`, which depend only on the function kind, survive in every statement it is nested in through blocks, branches and loops |
| ResolverProperties.ReturnReportedIn | app/resolver.ts:18-22 | the same for a statement list |
| ResolverProperties.TopLevelReturnReported | app/resolver.ts:137-140 | a `return` anywhere in top-level code, outside function and class declarations, is reported |
| ResolverProperties.RedeclarationReported | app/resolver.ts:49-59 | in a local scope, a `var` repeating a name declared earlier in the same list is reported |
| ResolverProperties.SelfInitializerReported | app/resolver.ts:76-95 | in a local scope, `var a = … a …;` reports the read of `a` in its own initializer, however deep in the initializer it stands |
| ResolverProperties.InitializerReturnReported | app/resolver.ts:141-144 | `return <value>` anywhere in a body resolved as INITIALIZER, outside nested declarations, is reported |
| ResolverProperties.BodyReferenceRecorded | app/resolver.ts:108-121 | a reference as a statement of a function body, declared neither by a parameter nor by an earlier statement of the body, gets its distance outside the function plus one |
| ResolverProperties.ClassBodyDistances | app/resolver.ts:195-203 | in the class body scopes `this` is at distance 0 and, with a superclass, `super` at distance 1 |
| ResolverProperties.MethodContext | app/resolver.ts:202-210 | every method of a class is resolved in the class body scopes, with kind CLASS or SUBCLASS |
| ResolverProperties.AfterMethod | app/resolver.ts:204-217 | a method's reports survive to the end of the class, and its recorded entries change only through later methods' nodes |
| ResolverProperties.InitializerReturnInClassReported | app/resolver.ts:204-210 | `return <value>` anywhere in a class's `init` method, outside nested declarations, is reported |
| ResolverProperties.ThisInMethodRecorded | app/resolver.ts:202-233 | `this` as a statement of a method body records distance 1, the class's `this` scope |
| ResolverProperties.SuperInMethodRecorded | app/resolver.ts:195-246 | `super.m` as a statement of a subclass method body records distance 2, the class's `super` scope |
| Lexing.IndexOf | app/tokenizer.ts:76 | an index found lies at or after the start |
| Lexing.IndexOfIsFirst | app/tokenizer.ts:76-77 | `indexOf` finds the first occurrence at or after the start, and finds none exactly when there is none |
| Lexing.SplitLines | app/tokenizer.ts:68 | splitting always yields at least one line |
| Lexing.SplitLinesHaveNoLineFeed | app/tokenizer.ts:68 | no line contains a line feed |
| Lexing.JoinSplitLines | app/tokenizer.ts:68 | joining the lines with line feeds gives back the contents |
| Lexing.SplitJoinLines | app/tokenizer.ts:68 | splitting joined lines that have no line feed gives back the lines |
| Lexing.DigitRun | app/tokenizer.ts:188 | the digit run stays within the line |
| Lexing.DigitRunIsMaximal | app/tokenizer.ts:188 | the run is all digits and is followed by the end of the line or a non-digit |
| Lexing.IdentifierRun | app/tokenizer.ts:194 | the identifier run stays within the line |
| Lexing.IdentifierRunIsMaximal | app/tokenizer.ts:194 | the run is all `[a-zA-Z_0-9]` and is followed by the end of the line or another character |
| Lexing.StripTrailingZerosIsMaximal | app/tokenizer.ts:198 | stripping keeps a prefix, removes only zeros and leaves no trailing zero |
| Lexing.MatchReserved | app/tokenizer.ts:191-192 | a matched entry is an entry of the table |
| Lexing.MatchReservedIsFirst | app/tokenizer.ts:191-192 | the match is the first entry in table order that starts the text; there is none exactly when no entry does |
| Lexing.StringStep | app/tokenizer.ts:75-87 | a string step consumes at least its opening quote and stays within the line |
| Lexing.OperatorStep | app/tokenizer.ts:103-142 | an operator step consumes one or two characters within the line |
| Lexing.NumberStep | app/tokenizer.ts:196-202 | a number step consumes exactly the matched text |
| Lexing.KeywordStep | app/tokenizer.ts:203-208 | a keyword step consumes at least one character within the line |
| Lexing.WordStep | app/tokenizer.ts:203-215 | a word step consumes at least one character within the line |
| Lexing.DefaultStep | app/tokenizer.ts:187-216 | the `default` branch consumes at least one character within the line |
| Lexing.ScanStep | app/tokenizer.ts:74-221 | every pass of the character loop moves forward within the line |
| Lexing.ScanFromContinues | app/tokenizer.ts:71-222 | scanning a line is one step, then scanning the rest, unless the step drops the line |
| Lexing.ScanLinesAppend | app/tokenizer.ts:70-223 | scanning one more line appends exactly that line's tokens and errors |
| Lexing.ReservedWordsShape | app/types.ts:28-45 | every reserved word is at least two characters long, starts with a letter and is not EOF |
| Lexing.StepShape | app/tokenizer.ts:74-221 | a step records at most one token or one error, a token's lexeme is the text consumed, and a step that records nothing skipped a blank or tab |
| Lexing.DefaultStepShape | app/tokenizer.ts:187-216 | the `default` branch records exactly one token or one error and never drops the line |
| Lexing.ReservedWordsWellFormed | app/types.ts:28-45 | the reserved-word table has distinct, non-empty lexemes that start with a letter |
| Lexing.FindKeyOfEntry | app/tokenizer.ts:204-205 | in a table with distinct lexemes, looking up an entry's lexeme gives that entry's key |
| Lexing.WordStepShape | app/tokenizer.ts:203-215 | a word step records one token whose lexeme is the text consumed, or one error |
| Lexing.KeywordMatch | app/tokenizer.ts:203-208 | a matched reserved word is recorded under its own key, with its lexeme, and consumed |
| Lexing.MatchedEntryIsPrefix | app/tokenizer.ts:191-192 | the matched entry starts the text |
| Lexing.OperatorLength | app/tokenizer.ts:103-142 | `>`, `<`, `!` and `=` emit the two-character token and consume two characters exactly when the next character is `=`; otherwise they emit the one-character token |
| Lexing.CommentEndsLine | app/tokenizer.ts:94-102 | `//` ends the line with nothing recorded; a lone `/` is a SLASH token |
| Lexing.StringScan | app/tokenizer.ts:75-87 | a string runs to the next quote; the lexeme keeps the quotes and the literal drops them; without a closing quote one "Unterminated string." error is recorded and the rest of the line is skipped |
| Lexing.UnexpectedCharacter | app/tokenizer.ts:213-215 | a character that starts no token records "Unexpected character: c" with the line number, and scanning goes on with the next character |
| Lexing.NoWordStartsWith | app/tokenizer.ts:191-192 | no reserved word matches text that does not start with a letter |
| Lexing.StripZerosOnly | app/tokenizer.ts:198-199 | a fraction of only zeros is stripped to nothing |
| Lexing.NumberLiteralShape | app/tokenizer.ts:197-199 | the literal is the integer part, then `.` and the stripped fraction, or `.0` when that is empty or absent |
| Lexing.FractionExample | app/tokenizer.ts:196-202 | `1.50` is one NUMBER token with lexeme `1.50` and literal `1.5` |
| Lexing.WholeNumberExample | app/tokenizer.ts:196-202 | `7` is one NUMBER token with literal `7.0` |
| Lexing.KeywordPrefixExample | app/tokenizer.ts:191-212 | `classy` scans as CLASS `class` followed by IDENTIFIER `y`, because there is no word-boundary check |
| Lexing.ClassyFirstStep | app/tokenizer.ts:203-208 | the first step on `classy` records CLASS and consumes five characters |
| Lexing.ClassySecondStep | app/tokenizer.ts:209-212 | the second step on `classy` records IDENTIFIER `y` |
| Lexing.LetterStartsWord | app/tokenizer.ts:187-212 | a letter or underscore goes to the word branch, never to a number |
| Lexing.ShortTextIsNoReservedWord | app/tokenizer.ts:191-192 | fewer than two characters never match a reserved word |
| Lexing.NoWordFits | app/tokenizer.ts:191-192 | text shorter than every entry matches none |
| Lexing.ScanFromHasNoEof | app/tokenizer.ts:71-222 | scanning a line never yields an EOF token |
| Lexing.ScanLinesHasNoEof | app/tokenizer.ts:70-223 | scanning the lines never yields an EOF token |
| Lexing.ScanEndsWithSingleEof | app/tokenizer.ts:225 | the token list ends with the one EOF token, with empty lexeme and null literal |
| Scanner.Tokenizer.constructor | app/tokenizer.ts:5-9 | a new tokenizer has no tokens and no errors |
| Scanner.Tokenizer.Push | app/tokenizer.ts:11-17 | appends one token, literal null by default, with no line; the errors are unchanged |
| Scanner.Tokenizer.Pop | app/tokenizer.ts:19-21 | removes and returns the first token, or nothing when the list is empty |
| Scanner.Tokenizer.ScanCharacter | app/tokenizer.ts:74-221 | one pass of the `switch` appends exactly what the scan step says, and reports whether the line is dropped and where scanning resumes |
| Scanner.Tokenizer.ScanDefault | app/tokenizer.ts:187-216 | the `default` branch appends what the number, keyword, identifier or error step says |
| Scanner.Tokenizer.ScanNumber | app/tokenizer.ts:196-202 | appends the NUMBER token and moves past the matched text |
| Scanner.Tokenizer.ScanWord | app/tokenizer.ts:203-215 | appends the keyword, the identifier or the "Unexpected character" error |
| Scanner.Tokenizer.ScanKeyword | app/tokenizer.ts:203-208 | appends the reserved word under the key found by its lexeme |
| Scanner.Tokenizer.Tokenize | app/tokenizer.ts:66-226 | the lists gain exactly what scanning the contents line by line describes, followed by EOF |
| Scanner.Tokenizer.ScanLine | app/tokenizer.ts:71-222 | the character loop over one line appends exactly that line's tokens and errors |
| Scanner.TokenizeEndsWithEof | app/tokenizer.ts:225 | after tokenizing, the last token is the one EOF token, and no earlier token is EOF |
| Parsing.NextPosition | app/parser.ts:32-37 | `advance` stays put exactly on EOF, otherwise moves one on, and stays within the list |
| Parsing.AdvanceTimes | app/parser.ts:32-37 | any number of advances stays within the list |
| Parsing.AdvanceNeverPassesEof | app/parser.ts:32-37 | however often `advance` runs, the cursor never steps over an EOF token and never moves back |
| Parsing.AdvanceStaysAtEof | app/parser.ts:32-37 | once on EOF, `advance` keeps the cursor where it is |
| Parsing.LiteralOf | app/parser.ts:57-67 | exactly TRUE, FALSE, NIL and NUMBER make a literal, a number carrying the token's literal |
| Parsing.ParseSpec | app/parser.ts:73-81 | a parse succeeds only on a list with a non-EOF first token |
| Parsing.ParseExamples | app/parser.ts:57-81 | `true` and `nil` parse to their literals; a list holding only EOF does not parse |
| Parsing.Parser.constructor | app/parser.ts:9-11 | the cursor starts at the first token |
| Parsing.Parser.Peek | app/parser.ts:13-19 | the current token is one of the list's tokens, so `peek` never fails |
| Parsing.Parser.Previous | app/parser.ts:39-45 | once something was consumed, the previous token exists |
| Parsing.Parser.Advance | app/parser.ts:32-37 | moves one on unless at EOF, and returns the token before the new position |
| Parsing.Parser.Match | app/parser.ts:47-55 | consumes exactly one token when its type is listed and it is not EOF, and nothing otherwise |
| Parsing.Parser.NewLiteral | app/parser.ts:58-64 | makes a literal node with a fresh id |
| Parsing.Parser.Primary | app/parser.ts:57-67 | TRUE, FALSE, NIL and NUMBER become a literal and are consumed; anything else is the "unsupported syntax" parse error and nothing is consumed |
| Parsing.Parser.Expression | app/parser.ts:69-71 | an expression is a primary |
| Parsing.Parser.Parse | app/parser.ts:73-81 | yields the expression, or nothing on a parse error |
| Parsing.ParseFresh | app/parser.ts:73-81 | a new parser over a list ending in EOF parses exactly the literal of its first token |
| LoxFunctions.ParamNamesSnoc | app/lox-function.ts:22-24 | the names of a parameter list are those before the last plus the last one's |
| LoxFunctions.BindParamsKeys | app/lox-function.ts:22-24 | binding the parameters binds exactly their names |
| LoxFunctions.BoundNamesAtMostArity | app/lox-function.ts:22-24 | a call binds at most as many names as the arity |
| LoxFunctions.BindParamsLastWins | app/lox-function.ts:22-24 | parameter `i` is bound to `args[i]` unless a later parameter has the same name |
| LoxFunctions.DistinctParamsBindTheirArguments | app/lox-function.ts:22-24 | with distinct names, every parameter is bound to its own argument |
| LoxFunctions.CallResult | app/lox-function.ts:25-36 | a return signal becomes the result, any other error propagates unchanged, and normal completion yields null |
| LoxFunctions.LoxFunction.constructor | app/lox-function.ts:12-17 | keeps the declaration and the closure |
| LoxFunctions.LoxFunction.Arity | app/lox-function.ts:39-41 | the arity is the number of declared parameters |
| LoxFunctions.LoxFunction.ToString | app/lox-function.ts:43-45 | a function prints as `<fn name>` |
| LoxFunctions.LoxFunction.Call | app/lox-function.ts:19-37 | runs the body in a fresh environment whose parent is the closure, after binding the parameters; the result is the completion's value |
| LoxClasses.LoxClass.constructor | app/lox-class.ts:5-9 | keeps the name |
| LoxClasses.LoxClass.Arity | app/lox-class.ts:16-18 | a class's arity is always 0 |
| LoxClasses.LoxClass.ToString | app/lox-class.ts:20-22 | a class prints as its name |
| LoxClasses.LoxClass.Call | app/lox-class.ts:11-14 | returns a newly allocated instance of the receiver, ignoring the arguments |
| LoxClasses.LoxInstance.constructor | app/lox-class.ts:26-28 | keeps the class |
| LoxClasses.LoxInstance.ToString | app/lox-class.ts:30-32 | an instance prints as its class's name followed by ` instance` |
| LoxClasses.Arity | app/lox-function.ts:6-9 | a callable's arity: 0 for a class, the parameter count for a function |
| LoxClasses.InstanceTextExtendsClassText | app/lox-class.ts:20-32 | an instance's text extends its class's text |
| LoxClasses.CallTwice | app/lox-class.ts:11-14 | two calls of a class give two distinct instances of it |
| Interpreting.Evaluate | app/interpreter.ts:11-44 | a literal evaluates to its value and binary and unary expressions to 1; the eight kinds without a visit method fail |
| Interpreting.Ungrouped | app/interpreter.ts:38-40 | taking off groupings leaves a non-grouping node |
| Interpreting.EvaluateSeesThroughGroupings | app/interpreter.ts:38-40 | a grouping has the value of its inner expression; evaluation succeeds exactly when the innermost non-grouping node is a literal, binary or unary |
| Interpreting.ArithmeticEvaluates | app/interpreter.ts:11-44 | a tree of literals, groupings, binary and unary expressions always evaluates, to a reachable literal's value or to 1 |
| Interpreting.Stringify | app/interpreter.ts:46-50 | null becomes "nil"; any other value is returned unchanged |
| Interpreting.StringifyIdempotent | app/interpreter.ts:46-50 | the result is never null, stringifying twice changes nothing more, and `undefined` is left alone |
| Printing.PrintShapes | app/ast-printer.ts:49-80 | binary prints as `(op left right)`, unary as `(op operand)` and grouping as `(group inner)` |
| Printing.PrintBinary | app/ast-printer.ts:49-51 | a binary expression prints as `(op left right)` |
| Printing.PrintUnary | app/ast-printer.ts:68-70 | a unary expression prints as `(op operand)` |
| Printing.PrintGrouping | app/ast-printer.ts:53-55 | a grouping prints as `(group inner)` |
| Printing.UnimplementedKinds | app/ast-printer.ts:9-47 | the eight other kinds print "not implemented" |
| Printing.NumberLiteralRoundTrip | app/ast-printer.ts:61-63 | an integer literal prints as its digits followed by `.0`, and the digits read back give the number |
| Printing.PrintBalanced | app/ast-printer.ts:49-80 | when operators and strings have no parentheses, the printed text opens as many parentheses as it closes |
| Printing.WrapOne | app/ast-printer.ts:72-80 | wrapping one balanced part keeps the balance |
| Printing.WrapTwo | app/ast-printer.ts:72-80 | wrapping two balanced parts keeps the balance |

## Left out

- Reading the file, console output and `process.exit` are left out, in the tokenizer, the parser, the evaluator (`inpterpret`), the printer (`print`) and the command line. The file contents are a parameter of `Tokenize`, and a report is a value appended to a list.
- The regular expressions of the `default` branch are explicit character scans: a digit run with an optional fraction, a prefix match of the reserved words in table order, and an identifier run.
- Strings are sequences of characters. The model has no UTF-16 code units, surrogate pairs or Unicode classes.
- Numbers are integers (`Value.Number(int)`). Floating point, `Number.isInteger` on fractions and JavaScript's number-to-text conversion are left out. A NUMBER token's literal is the normalised text, as in the source.
- The `line` field of a token is never set by the tokenizer, so it is `None` throughout.
- The character loop over one line is its own method, `Scanner.Tokenizer.ScanLine`. The `break` out of it is where `ignoreLine` is set.
- The second `case '/'` in the tokenizer's `switch` can never be reached, because the first one catches every `/`; it is not modelled.
- Lexing.KeywordStep: its branch for a lexeme that is not in the table is dead for the reserved-word table; it only keeps the step total.
- Resolution.Resolver.EndScope: the stack utility is not part of this model. Popping an empty stack is taken to do nothing.
- Values are nil, undefined, booleans, integers and strings. Functions and instances are not values, so `LoxClass.call` returns the instance itself and not a value. Running the body of a function is a parameter (`executeBlock`), since the evaluator has no statements yet.
- LoxFunctions.LoxFunction.Call: `executeBlock` cannot read or change the environments. The model covers how the call sets up the environment and turns the completion into a result, not what the body does there.
- Parsing.Parser.constructor: it requires a non-empty token list ending in EOF. On other lists the source's `peek` and `previous` can throw an internal out-of-bounds error, which the model does not represent.
- Parsing.Parser.Advance: it requires that a previous token will exist. On a list holding only EOF, the source's `advance` would throw; `match` never calls it there.
- Interpreting.Evaluate: the failure for the eight kinds without a visit method stands for the JavaScript TypeError. Its message is not modelled.
- Node identity is a numeric id on every expression node. The parser allocates ids from a counter.
- The side table is keyed by node object in the source. The lemmas about the table take distinct ids within the tree (`UniqueIds`, or a node id absent from the statements after it) in place of distinct objects.
- ResolverProperties.BodyReferenceRecorded: covers a reference that is itself a statement of the body. For references nested deeper, the distance comes from `EveryReferenceResolved` with the scopes at the enclosing statement, which the frame lemmas describe.
- ResolverProperties.ThisInMethodRecorded: as above, for `this` standing as a statement of a method body.
- ResolverProperties.SuperInMethodRecorded: as above, for `super.m` standing as a statement of a method body.
- `LoxCallable` is the datatype `LoxClasses.Callable`, which dispatches `arity`. Calling through it is not modelled, because the two calls return different kinds of thing.
