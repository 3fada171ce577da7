# PCL compiler front end: symbol table, semantic analysis and code-generation log

This project models the semantic core of a compiler for PCL, a small Pascal-like
language, and proves properties of it. The compiler's front end builds an abstract syntax tree.
Each node's `sem` operation checks the node against a scoped symbol table.
The node's `compile` operation emits LLVM code and records its handles in a second scoped store, the
code-generation log. The model covers the following parts.

- **Symbol table** (`symbol.dfy`, module `Symbol`). `Scope` is a class holding the
  bindings of one lexical level, with these per-name records:
  - offsets;
  - forward-declaration keys;
  - procedure and function formal lists;
  - labels and the statements attached to them;
  - the `new` marks;
  - the queue of routines declared in the scope.

  `SymbolTable` is a class holding a stack of scopes. Its look-ups search the scopes
  innermost first. Its insertions always work on the innermost scope.
- **Code-generation log** (`scope_log.dfy`, module `ScopeLog`). `LoggedInfo` is a class
  whose stack of records maps names to LLVM types, stack slots, blocks, functions and
  formal lists, all innermost first. A name that is missing is fatal ("not in scope").
  LLVM handles are type parameters.
- **Shared definitions** (`pcl_base.dfy`, module `PclBase`):
  - the type tags and type descriptors, formal groups and outcomes;
  - the innermost-first search `Home`/`Innermost` over a stack of maps.
- **Typing rules** (`ast_types.dfy`):
  - the binary and unary operator typing;
  - array and pointer type equality;
  - pass modes;
  - the library-name test;
  - the lowering of parameter types to LLVM.
- **Constant evaluation** (`ast_eval.dfy`): `eval` on constants and operators, with C++ `int`
  semantics. Arithmetic that overflows or divides by zero is undefined behaviour. `/` and `%`
  truncate toward zero. `and` and `or` short-circuit.
- **Call checking** (`ast_call.dfy`): `Call::sem` and `ExprCall::sem`. The analysis fetches the
  innermost routine formals, counts the parameters and compares the argument types.
- **Closure parameters** (`ast_closure.dfy`): the parameter list that `Body::compile` builds for
  the routine it belongs to (include/ast.hpp:3170-3208 for a procedure, 3259-3297 for a
  function). It is the formals followed by every outer variable that no formal shadows.
- **What a parent reads** (`expr_read.dfy`, module `ExprRead`): the type checks of the
  statement and l-value nodes as written, on the base fields of `Expr` that the parents
  actually read (findings 9 to 13).
- **Statement and expression analysis** (`ast_sem.dfy`). This covers array elements, dereference,
  reference, assignment (including `result`), conditions, `new`, `dispose`, `goto`, and variable
  and label declarations.
- **Routine headers** (`ast_decl.dfy`):
  - binding formals (`Formal::sem`, `Formal_list::sem`);
  - the `getstring` rendering that forward declarations are compared by;
  - `Procedure`/`Function` `semfor` and `sem`.
- **Statement lists, blocks and bodies** (`ast_stmt.dfy`): `Stmtlist`, `If`, `While`,
  `LabelStmt`, `Block`, `Local`, `Local_list` and `Body`. They are modelled as transformations
  of the innermost scope's bindings.
- **Library registration** (`sem_lib.dfy`): `init`, which declares the 24 predefined routines.

Two conventions hold throughout the model.

- Fatal errors (`exit(1)` after a message) are modelled as `Outcome.Abort` or `Result.Fail`,
  each carrying the reason.
- Messages that are only printed, with analysis carrying on, are modelled as a `diagnosed` flag.

Where the written code does something its authors evidently did not intend, the model keeps
both versions: the code as written and a corrected one (see "## Findings"). The higher
layers use the corrected one.

The largest such place is how a node passes its type to its parent (findings 9 to 13). Each node's
`sem` records the type it computes in a field of its own. Parents read something else: the
base fields `Expr::type`, `Expr::p` and `Expr::a`, which only the `result` step ever writes.
`ExprRead` models those reads. It shows that:
- conditions and assignments are decided by an indeterminate tag;
- indexing, dereference, `new [n]` and `dispose []` read an unset pointer.

`AstSem`, `AstCall` and `AstStmt` apply the same checks to the types the analyses computed.
That is the corrected behaviour. Each of their members is listed under "## Left out" with
this difference.

These are the places where the behaviour described for the language and the code disagree.
The model follows the code in each case. Where the code's behaviour is also a finding, the
members that the higher layers call use the corrected version. For the call arguments,
`AstCall.CallSem` uses the position-by-position check `AstCall.ArgsCheck`.

- **Offsets.** A new scope's offsets continue from the enclosing scope's current offset, so
  sibling scopes reuse offsets. They are not numbered afresh over the whole program.
- **Operator type mismatches.** A mismatch in `BinOp::sem` or `UnOp::sem` only prints a
  message. The other checks end compilation.
- **Call arguments.** Calls compare every formal name with the first argument, not position by
  position (finding 4).
- **Forward declarations.** A completion is compared with the forward declaration through the
  `getstring` rendering. The rendering omits pass modes, array sizes and pointee types, so a
  change of pass mode goes unnoticed (`AstDecl.ModeIgnored`).
- **`goto`.** The target label is looked up in the innermost scope only.
- **`dispose`.** The `new` mark is never cleared, so a second `dispose` of the same pointer
  passes analysis again.

## Model

| member | source | states |
|---|---|---|
| PclBase.ArityCountsNames | include/ast.hpp:1489-1496 | the number of arguments a formal list expects, summed over groups, is the number of its flattened parameter names |
| PclBase.ParamNamesAppend | include/ast.hpp:1489-1496 | one more formal group appends its names to the flattened list and its size to the count |
| PclBase.Repeat | include/ast.hpp:1497-1509 | n copies of a type tag, the parameter tags of one group |
| PclBase.Home | include/symbol.hpp:226-234 | the scope index a look-up finds lies in the stack and binds the name |
| PclBase.HomeIsInnermost | include/symbol.hpp:226-234 | the look-up finds nothing exactly when no scope binds the name, and otherwise no scope above the one found binds it |
| PclBase.HomeAt | include/symbol.hpp:226-234 | conversely the innermost scope binding the name is the one found, with its value |
| PclBase.HomePush | include/symbol.hpp:221-234 | after opening a scope its own bindings shadow and every other name resolves as before; closing it restores the outer binding |
| PclBase.HomeBelow | include/symbol.hpp:248-263 | scopes above a height that do not bind the name do not change what the search finds |
| Symbol.RoutineFormals | include/symbol.hpp:190-195 | exactly the names a scope binds as procedures (functions) with a non-null formal list, each mapped to that list |
| Symbol.FormalFrames | include/symbol.hpp:248-263 | the non-null formal lists of each scope of the stack, outermost first |
| Symbol.StackPush | include/symbol.hpp:221-224 | a well-formed scope starting at the stack's current offset can be pushed and the stack stays well formed |
| Symbol.Scope.constructor | include/symbol.hpp:40 | a new scope is empty, with offset -1 and size 0 |
| Symbol.Scope.At | include/symbol.hpp:41 | a new scope at a given offset is empty and starts there |
| Symbol.Scope.Enter | include/symbol.hpp:48-60 | a name already bound in the scope is fatal ("Duplicate variable") and changes nothing; otherwise the name is bound at the current offset, and offset and size grow by one |
| Symbol.Scope.Insert | include/symbol.hpp:48-60 | as Enter, for a plain variable; the forward keys and the routine queue are unchanged |
| Symbol.Scope.InsertForwardDecl | include/symbol.hpp:100-103 | as Insert, and the name's forward key is set to true |
| Symbol.Scope.InsertLabel | include/symbol.hpp:104-116 | as Insert, with the name marked as a label |
| Symbol.Scope.InsertProcedure | include/symbol.hpp:117-131 | as Insert, with the name marked as a procedure with its formals; its forward key takes the flag, even when false; the name joins the queue and becomes the parent routine |
| Symbol.Scope.InsertFunction | include/symbol.hpp:135-149 | the same for a function |
| Symbol.Scope.InsertParent | include/symbol.hpp:132-134 | the name is appended to the routine queue |
| Symbol.Scope.MakeNew | include/symbol.hpp:175-177 | the rendering is marked as allocated by `new` |
| Symbol.Scope.ClearForDecl | include/symbol.hpp:185-189 | the forward key is removed; the key must exist, since erasing through a missing `find` is undefined |
| Symbol.Scope.InsertLabelStmt | include/symbol.hpp:196-198 | the label becomes attached to a statement |
| Symbol.SymbolTable.Frames | include/symbol.hpp:340 | the bindings of each scope, outermost first |
| Symbol.SymbolTable.constructor | include/symbol.hpp:340 | a new table has no scopes |
| Symbol.SymbolTable.OpenScope | include/symbol.hpp:221-224 | one empty scope is pushed, continuing at the enclosing scope's offset (0 for the first); the scopes below are unchanged |
| Symbol.SymbolTable.CloseScope | include/symbol.hpp:225 | the innermost scope and all its bindings are popped |
| Symbol.SymbolTable.FindHome | include/symbol.hpp:226-234 | the reverse walk answers the innermost scope binding the name, and changes nothing |
| Symbol.SymbolTable.Lookup | include/symbol.hpp:226-234 | the entry of the innermost binding; the look-up fails exactly when no scope binds the name |
| Symbol.SymbolTable.FoundProc | include/symbol.hpp:311-318 | true exactly when the innermost scope binding the name binds it as a procedure |
| Symbol.SymbolTable.FoundFunc | include/symbol.hpp:319-326 | true exactly when the innermost scope binding the name binds it as a function |
| Symbol.SymbolTable.PushQueue | include/symbol.hpp:285-295 | the name is appended to exactly one scope's queue and every other queue is unchanged |
| Symbol.SymbolTable.InsertParent | include/symbol.hpp:285-295 | the name joins the queue of the innermost scope binding it; fatal exactly when no scope binds it |
| Symbol.SymbolTable.FormalsAll | include/symbol.hpp:248-263 | the innermost non-null procedure (function) formal list recorded for the name; scopes recording null are skipped |
| Symbol.SymbolTable.FormalsSomewhere | include/symbol.hpp:248-263 | a formal list is found exactly when some scope records a non-null one for the name |
| Symbol.SymbolTable.RoutineFormalsFound | include/symbol.hpp:248-263 | for a name bound as a routine, the search answers that routine's own list, or when it has none, what the shadowed outer scopes hold |
| Symbol.SymbolTable.NoFormalsAbove | include/symbol.hpp:248-263 | no scope above the innermost binding of a name records formals for it |
| Symbol.SymbolTable.GetSizeOfCurrentScope | include/symbol.hpp:235 | the number of names the innermost scope binds |
| Symbol.SymbolTable.TopShadows | include/symbol.hpp:226-234 | a name bound in the innermost scope resolves there, whatever the outer scopes hold |
| Symbol.SymbolTable.TopOnlyChanged | include/symbol.hpp:236-284 | a change confined to the innermost scope keeps the table well formed and the outer bindings unchanged |
| Symbol.SymbolTable.OneScopeChanged | include/symbol.hpp:285-295 | a change confined to one scope that keeps its offsets keeps the table well formed |
| Symbol.SymbolTable.Insert | include/symbol.hpp:236 | insertion into the innermost scope: fatal exactly on a name that scope binds, otherwise a new plain binding |
| Symbol.SymbolTable.InsertForwardDecl | include/symbol.hpp:276-278 | the same, setting the forward key |
| Symbol.SymbolTable.InsertLabel | include/symbol.hpp:264-266 | the same, as a label |
| Symbol.SymbolTable.InsertProcedure | include/symbol.hpp:270-272 | the same, as a procedure with its formals and forward flag, queued in the innermost scope |
| Symbol.SymbolTable.InsertFunction | include/symbol.hpp:273-275 | the same, as a function |
| Symbol.SymbolTable.MakeNew | include/symbol.hpp:279-281 | the innermost scope marks the rendering as allocated |
| Symbol.SymbolTable.ClearForDecl | include/symbol.hpp:282-284 | the innermost scope drops the forward key |
| Symbol.SymbolTable.InsertLabelStmt | include/symbol.hpp:267-269 | the innermost scope attaches the label |
| Symbol.SymbolTable.OffsetChain | include/symbol.hpp:221-224 | offsets grow from each scope's base, so a scope's offset never exceeds the base of any scope above it |
| Symbol.SymbolTable.OffsetsIncreaseInward | include/symbol.hpp:221-224 | every binding of an inner scope has a larger offset than every binding of an outer scope on the stack |
| ScopeLog.EmptyLog | include/llvm.hpp:43-59 | a fresh record has all thirteen maps and both pending stacks empty |
| ScopeLog.Column | include/llvm.hpp:43-59 | one kind of map from each record, outermost first |
| ScopeLog.WithTop | include/llvm.hpp:85-88 | the stack with only its innermost record replaced |
| ScopeLog.Required | include/llvm.hpp:234-243 | a fatal getter succeeds exactly when the search found the name, with its value, and otherwise fails with "not in scope" |
| ScopeLog.TopWins | include/llvm.hpp:234-243 | a name the innermost record holds is found there, whatever the outer records hold |
| ScopeLog.OuterUnaffected | include/llvm.hpp:85-88 | replacing the innermost record leaves every name it does not hold resolving as before |
| ScopeLog.LoggedInfo.constructor | include/llvm.hpp:69-71 | the log starts with one empty record |
| ScopeLog.LoggedInfo.OpenScope | include/llvm.hpp:74-77 | one empty record is pushed |
| ScopeLog.LoggedInfo.CloseScope | include/llvm.hpp:80-82 | the innermost record is popped |
| ScopeLog.LoggedInfo.AddVariable | include/llvm.hpp:85-88 | the innermost record maps the name to the new type and slot, overwriting; nothing else changes |
| ScopeLog.LoggedInfo.ChangeAlloca | include/llvm.hpp:91-94 | the same two writes |
| ScopeLog.LoggedInfo.DisposePointer | include/llvm.hpp:97-99 | the innermost slot of the name becomes null and the key stays |
| ScopeLog.LoggedInfo.ArrayType | include/llvm.hpp:102-104 | the innermost record maps the name to the array type |
| ScopeLog.LoggedInfo.PointerType | include/llvm.hpp:107-109 | the innermost record maps the name to the pointer type |
| ScopeLog.LoggedInfo.AddLabel | include/llvm.hpp:112-115 | the innermost record maps the label to its body and continuation blocks |
| ScopeLog.LoggedInfo.PushFunc | include/llvm.hpp:118-120 | the function goes on the innermost pending stack and is then its last entry |
| ScopeLog.LoggedInfo.RemoveCurrFunc | include/llvm.hpp:134-136 | the innermost pending-function stack loses its last entry; popping an empty stack is undefined |
| ScopeLog.LoggedInfo.PushProc | include/llvm.hpp:187-189 | the procedure goes on the innermost pending stack and is then its last entry |
| ScopeLog.LoggedInfo.RemoveCurrProc | include/llvm.hpp:203-205 | the innermost pending-procedure stack loses its last entry |
| ScopeLog.LoggedInfo.AddFuncFormals | include/llvm.hpp:139-141 | the innermost record maps the function to its formal list |
| ScopeLog.LoggedInfo.AddProcFormals | include/llvm.hpp:208-210 | the innermost record maps the procedure to its formal list |
| ScopeLog.LoggedInfo.AddFuncType | include/llvm.hpp:144-146 | the innermost record maps the function to its type |
| ScopeLog.LoggedInfo.StoreEndOfFunc | include/llvm.hpp:149-151 | the innermost record maps the function to its end block |
| ScopeLog.LoggedInfo.StoreResult | include/llvm.hpp:225-227 | the stored value is what the function's result reads afterwards, and every other name reads as before |
| ScopeLog.LoggedInfo.GetFuncResult | include/llvm.hpp:229-231 | read from the innermost record only: a value exactly when that record stored one |
| ScopeLog.LoggedInfo.AddFunctionInScope | include/llvm.hpp:319-321 | the innermost record maps the name to the function handle |
| ScopeLog.LoggedInfo.AddProcInScope | include/llvm.hpp:324-326 | the innermost record maps the name to the procedure handle |
| ScopeLog.LoggedInfo.Find | include/llvm.hpp:234-243 | the reverse walk answers the innermost record's value for the name |
| ScopeLog.LoggedInfo.GetVarType | include/llvm.hpp:234-243 | the innermost type of the variable, fatal when no record has one |
| ScopeLog.LoggedInfo.GetArrType | include/llvm.hpp:246-255 | the innermost array type, fatal when absent |
| ScopeLog.LoggedInfo.GetPoinType | include/llvm.hpp:258-267 | the innermost pointer type, fatal when absent |
| ScopeLog.LoggedInfo.GetVarAlloca | include/llvm.hpp:270-279 | the innermost slot; a disposed slot is found as null and stops the search |
| ScopeLog.LoggedInfo.GetLabelBlock | include/llvm.hpp:282-291 | the innermost body block of the label, fatal when absent |
| ScopeLog.LoggedInfo.GetLabelCont | include/llvm.hpp:294-303 | the innermost continuation block of the label, fatal when absent |
| ScopeLog.LoggedInfo.GetFunctionInScope | include/llvm.hpp:329-338 | the innermost function handle, fatal when absent |
| ScopeLog.LoggedInfo.GetProcInScope | include/llvm.hpp:341-350 | the innermost procedure handle, fatal when absent |
| ScopeLog.LoggedInfo.GetFuncFormals | include/llvm.hpp:175-184 | the innermost formal list of the function, fatal when absent |
| ScopeLog.LoggedInfo.GetProcFormals | include/llvm.hpp:213-222 | the innermost formal list of the procedure, fatal when absent |
| ScopeLog.LoggedInfo.GetEndOfFunc | include/llvm.hpp:154-161 | the innermost end block, or null when absent (only a message is printed) |
| ScopeLog.LoggedInfo.GetFuncType | include/llvm.hpp:164-172 | the innermost function type, or null when absent |
| ScopeLog.LoggedInfo.IsPointer | include/llvm.hpp:306-316 | true exactly when the name has an innermost type and it is an LLVM pointer type; an unknown name is not a pointer |
| ScopeLog.LoggedInfo.GetCurrentScopeVarTypes | include/llvm.hpp:353-355 | the innermost record's type map |
| ScopeLog.LoggedInfo.GetCurrentScopeVarAllocas | include/llvm.hpp:358-360 | the innermost record's slot map |
| ScopeLog.AddVariableThenGet | include/llvm.hpp:85-94 | after `addVariable`/`changeAlloca` the type and slot read back are the new ones whatever outer records hold, and every other name reads back the type and slot it had before |
| ScopeLog.DisposeThenGet | include/llvm.hpp:97-99 | after `disposePointer` the slot reads as null even when an outer record has a live slot for the name |
| ScopeLog.AddLabelThenGet | include/llvm.hpp:112-115 | after `addLabel` both label getters return the stored blocks |
| ScopeLog.AbsentIsFatal | include/llvm.hpp:234-243 | a name no record holds makes every fatal getter fail with "not in scope" |
| ScopeLog.CloseScopeRestores | include/llvm.hpp:80-82 | popping a record makes the outer records' values visible again, and a pushed record's own values win |
| AstTypes.ArrayEqualsIsStructural | include/ast.hpp:444-451 | two array types are equal exactly when element type and size agree, that is, when the descriptors are equal (every `Array` stores the array tag, 424, so the other-tag case is unreachable) |
| AstTypes.PointerEqualsCases | include/ast.hpp:484-494 | pointer equality is equality of pointee types; the branches for a nil tag (always equal) and any other tag (unequal) are unreachable, since every `Pointer` stores the pointer tag (469-470) |
| AstTypes.IsLibFunc | include/ast.hpp:316-324 | true exactly for the 24 library names |
| AstTypes.IsIoName | include/ast.hpp:317-319 | the first ten comparisons recognise the input and output names |
| AstTypes.IsMathName | include/ast.hpp:320-323 | the rest recognise the mathematical and conversion names |
| AstTypes.ModeOfKeyword | include/ast.hpp:1353-1358 | only the keyword `var` gives pass by reference, and a mode is always set |
| AstTypes.PassString | include/ast.hpp:1385-1387 | the stored pass string is `PASS_BY_REFERENCE` exactly for by-reference formals |
| AstTypes.TypeToLlvm | include/ast.hpp:326-342 | defined exactly for bool, int and char; a pointer-wrapped type exactly for the string `PASS_BY_REFERENCE` |
| AstTypes.TypeToLlvmModes | include/ast.hpp:326-342 | by reference is by value behind one pointer; any other pass string lowers by value; distinct scalars get distinct LLVM types |
| AstTypes.ArithmeticTyping | include/ast.hpp:763-779 | `+ - *`: int for int×int, real for numeric pairs with a real, and otherwise no type, with a diagnostic |
| AstTypes.DivisionTyping | include/ast.hpp:780-797 | `/` accepts the numeric pairs and always yields real |
| AstTypes.IntegerDivisionTyping | include/ast.hpp:798-805 | `div`/`mod` type only int×int, as int, and report anything else |
| AstTypes.ComparisonTyping | include/ast.hpp:806-842 | comparisons yield bool; order tests accept numeric pairs; `=`/`<>` also accept two identical non-array types; a mismatch is reported exactly when untyped |
| AstTypes.OrderTyping | include/ast.hpp:806-822 | the order tests type exactly the numeric pairs, as bool |
| AstTypes.EqualityTyping | include/ast.hpp:823-842 | `=`/`<>` type the numeric pairs and identical non-array types, as bool |
| AstTypes.LogicalTyping | include/ast.hpp:843-847 | `and`/`or` type only bool×bool and never print a mismatch |
| AstTypes.BinOpResultTypes | include/ast.hpp:751-848 | any assigned result type is int, real or bool, and comes without a diagnostic |
| AstTypes.UnOpRealReported | include/ast.hpp:961-971 | as written, a real operand of unary `+`/`-` keeps its type but is reported as a mismatch |
| AstTypes.UnOpTypingSpec | include/ast.hpp:954-977 | corrected: sign operators report exactly non-numeric operands, `not` types exactly bool, and the rule differs from the written one only on real |
| AstEval.TruncDivision | include/ast.hpp:737-738 | C++ `/` and `%`: dividend = divisor × quotient + remainder, the remainder is smaller than the divisor in magnitude and has the dividend's sign |
| AstEval.TruncDivNonNegative | include/ast.hpp:737-738 | on non-negative operands C++ division agrees with Euclidean division |
| AstEval.Checked | include/ast.hpp:733-736 | an arithmetic result is defined exactly when it fits in 32 bits |
| AstEval.Apply | include/ast.hpp:733-748 | every defined result of a strict operator fits in 32 bits |
| AstEval.Both | include/ast.hpp:733-748 | undefined behaviour in either operand makes the result undefined; defined results fit in 32 bits |
| AstEval.Logical | include/ast.hpp:747-748 | `or`/`and` yield 0 or 1 |
| AstEval.Unary | include/ast.hpp:948-953 | a defined unary result fits in 32 bits |
| AstEval.Eval | include/ast.hpp:733-750 | every defined value of an expression fits in 32 bits |
| AstEval.BooleanResults | include/ast.hpp:739-748 | comparisons and the logical operators evaluate to 0 or 1 |
| AstEval.DivisionSpellings | include/ast.hpp:737-746 | `/` and `div` evaluate alike, and so do `%` and `mod` |
| AstEval.QuotientOps | include/ast.hpp:737-745 | both quotient spellings divide the operands' values, undefined on a zero divisor or overflow |
| AstEval.RemainderOps | include/ast.hpp:738-746 | both remainder spellings take the remainder, undefined on a zero divisor or overflow |
| AstEval.IntegerDivision | include/ast.hpp:745-746 | `div` is defined exactly when the divisor is non-zero and the quotient fits, and then `mod` completes the division identity |
| AstEval.DivisionOverflow | include/ast.hpp:745 | `INT_MIN div -1` and division by zero are undefined |
| AstEval.UnaryResults | include/ast.hpp:948-953 | `-` negates (undefined on `INT_MIN`), `not` maps 0 to 1 and anything else to 0, `+` is the identity |
| AstEval.ShortCircuit | include/ast.hpp:747-748 | a non-zero left operand decides `or` and a zero one decides `and`, even when the right operand is undefined |
| AstEval.AdditionOverflow | include/ast.hpp:734 | `INT_MAX + 1` is undefined rather than wrapping |
| AstEval.BoolTextInverted | include/ast.hpp:2166-2175 | as written, the literal `true` evaluates to 0 and `false` to 1 |
| AstEval.BoolTextEvaluates | include/ast.hpp:2166-2180 | corrected: a literal evaluates to 1 exactly when it is `true`, as the boolean constructor does |
| AstCall.GroupsAsWrittenPass | include/ast.hpp:1497-1509 | as written, the type loop passes exactly when every non-empty group has the first argument's type |
| AstCall.ArgsAsWrittenPass | include/ast.hpp:1489-1517 | as written, a call passes exactly when the count matches and every non-empty group has the first argument's type |
| AstCall.GroupsAsWrittenErrors | include/ast.hpp:1497-1509 | as written, the type loop fails only on a missing first argument or a mismatch |
| AstCall.CheckArgumentsAsWritten | include/ast.hpp:1487-1518 | the loops as written compute that outcome |
| AstCall.ParamTags | include/ast.hpp:1489-1496 | one tag per formal name |
| AstCall.ParamTagsAt | include/ast.hpp:1497-1509 | the slot of the k-th name of group g holds that group's tag |
| AstCall.ParamTagsCovered | include/ast.hpp:1497-1509 | every slot of the flattened list is the slot of exactly one name and group |
| AstCall.Slot | include/ast.hpp:1497-1509 | the position of a group's name in the flattened list, below the arity |
| AstCall.ArgsCheckPositions | include/ast.hpp:1489-1517 | corrected: a call passes exactly when there is one argument per name and each name's argument has its group's type |
| AstCall.CheckGroup | include/ast.hpp:1497-1509 | a group passes exactly when its arguments all have its tag, and otherwise names a bad position |
| AstCall.CountNames | include/ast.hpp:1489-1496 | the counting loop computes the arity |
| AstCall.CompareTypes | include/ast.hpp:1497-1509 | the corrected type loop passes exactly when the arguments are the formals' tags in order |
| AstCall.CheckArguments | include/ast.hpp:1489-1517 | the corrected loops compute the corrected outcome |
| AstCall.UniformAgrees | include/ast.hpp:1497-1509 | when all formals and arguments share one type, the written and the corrected checks agree |
| AstCall.ReadStringRejected | include/ast.hpp:1497-1509 | as written every call of `readString` is rejected, while the corrected check accepts an integer and a character array |
| AstCall.MixedArgumentsAccepted | include/ast.hpp:1497-1509 | as written `p(a, b: integer)` accepts `(1, true)`; the corrected check rejects it |
| AstCall.CheckFormals | include/ast.hpp:1487-1518 | a null formal list is fatal, and otherwise the argument check decides |
| AstCall.RoutineSpec | include/ast.hpp:1483-1551 | a call of a routine is checked against the innermost formal list of its kind |
| AstCall.ProcedureCall | include/ast.hpp:1487-1518 | the procedure branch computes the call's specified outcome |
| AstCall.FunctionCall | include/ast.hpp:1519-1550 | the function branch computes the call's specified outcome |
| AstCall.CallSem | include/ast.hpp:1483-1551 | `Call::sem`/`ExprCall::sem` compute the specified outcome and change nothing |
| AstCall.CallUsesOwnFormals | include/ast.hpp:1483-1551 | a routine whose innermost binding carries its list is checked against that list, whatever the outer scopes hold |
| AstCall.CallOfNonRoutine | include/ast.hpp:1483-1551 | a call of a name bound as a variable or a label is not checked |
| AstClosure.ParamTypes | include/ast.hpp:3179-3189 | one lowered type per formal name |
| AstClosure.Unshadowed | include/ast.hpp:3191-3208 | the outer names that are not formals, in order |
| AstClosure.UnshadowedDistinct | include/ast.hpp:3191-3208 | each captured name appears once |
| AstClosure.UnshadowedMembers | include/ast.hpp:3191-3208 | a name is kept exactly when it is an outer name and not a formal |
| AstClosure.FormalParameters | include/ast.hpp:3179-3189 | the first loop yields the formal names in declaration order, each with its group's lowered type |
| AstClosure.CaptureOuter | include/ast.hpp:3191-3208 | the second loop appends each unshadowed outer variable once, with its type passed by address |
| AstClosure.ClosureParameters | include/ast.hpp:3179-3208 | the parameter list is the formals then the unshadowed outer variables, with their types |
| AstClosure.CapturedExactly | include/ast.hpp:3191-3208 | every outer variable no formal shadows is captured, exactly once, and nothing else is |
| AstSem.WithResult | include/ast.hpp:1074-1080 | only an operand typed `result` depends on the look-up of `result`, and it fails only when that look-up does; only the type tag changes |
| AstSem.ArElementType | include/ast.hpp:1081-1092 | indexing needs an array and an integer index and yields the element type; each failure names its reason |
| AstSem.ArElementSem | include/ast.hpp:1070-1106 | the indexing rule after resolving `result` in base and index |
| AstSem.DereferenceType | include/ast.hpp:1185-1190 | only a pointer can be dereferenced, yielding the pointee type |
| AstSem.DereferenceSem | include/ast.hpp:1178-1204 | the dereference rule after resolving `result` |
| AstSem.Reference | include/ast.hpp:1139-1147 | the address of an l-value is a pointer to its type, and dereferencing it gives that type back |
| AstSem.ResultOutcome | include/ast.hpp:1240-1261 | assigning to `result` passes exactly when the parent routine is bound with the value's type |
| AstSem.AssignSem | include/ast.hpp:1237-1272 | an ordinary assignment needs equal types and changes nothing; an assignment to `result` first binds `result` in the innermost scope, once, then checks the parent |
| AstSem.ConditionCheck | include/ast.hpp:2421-2430 | a condition passes exactly when boolean |
| AstSem.ConditionSem | include/ast.hpp:2416-2431 | the same after resolving `result` |
| AstSem.NewCheck | include/ast.hpp:2007-2058 | `new` needs a pointer; `new [n]` a pointer to an array and an integer size; each failure names its reason |
| AstSem.NewOutcome | include/ast.hpp:2006-2060 | the checks after resolving `result` |
| AstSem.NewSem | include/ast.hpp:2006-2060 | the checks, and on success the target is marked allocated in the innermost scope; nothing else changes |
| AstSem.DisposeCheck | include/ast.hpp:2335-2384 | `dispose` needs a pointer marked by `new` in the innermost scope, and for `dispose []` a pointer to an array |
| AstSem.DisposeSem | include/ast.hpp:2335-2384 | the checks after resolving `result`; the table is only read |
| AstSem.DisposeNode.constructor | include/ast.hpp:2315-2322 | the node holds its l-value and bracket flag |
| AstSem.DisposeNode.SemAsWritten | include/ast.hpp:2335-2384 | as written, a passing analysis sets the l-value to null |
| AstSem.DisposeNode.Sem | include/ast.hpp:2335-2384 | corrected, the analysis keeps the l-value |
| AstSem.DisposeNode.Compile | include/ast.hpp:2385-2389 | code generation clears the variable's slot in the innermost log; with a null l-value it is a fault |
| AstSem.DisposeAsWritten | include/ast.hpp:2335-2389 | as written, every `dispose` the analysis accepts faults in code generation |
| AstSem.DisposeCorrected | include/ast.hpp:2335-2389 | corrected, an accepted `dispose` clears the slot and a rejected one changes nothing |
| AstSem.GotoSem | include/ast.hpp:2101-2118 | a jump passes exactly when the target is a label of the innermost scope with a statement attached |
| AstSem.BindIdsKeys | include/ast.hpp:2670-2674 | declaring binds exactly the new names on top of the old ones |
| AstSem.BindIdsOther | include/ast.hpp:2670-2674 | a name not declared keeps its binding |
| AstSem.BindIdsReadsBack | include/ast.hpp:2670-2674 | the i-th of distinct declared names sits at offset base + i with the requested kind |
| AstSem.BindIdsOffsetsDistinct | include/ast.hpp:2670-2674 | names from one declaration get increasing, hence distinct, offsets |
| AstSem.DeclareAll | include/ast.hpp:2670-2674 | the declaration loop passes exactly when the names are distinct and new to the innermost scope, and then binds them at consecutive offsets |
| AstSem.DeclSem | include/ast.hpp:2670-2674 | `Decl::sem` binds plain variables at consecutive offsets, every other name unchanged, or fails on a duplicate |
| AstSem.LabelSem | include/ast.hpp:2589-2595 | `Label::sem` makes each name a label of the innermost scope, or fails on a duplicate |
| ExprRead.ResolveResult | include/ast.hpp:2418-2420 | the `result` step writes the base tag, and only when `get_type()` answers `result`; a missing binding is fatal; the node's own tag is untouched |
| ExprRead.ConditionAsWritten | include/ast.hpp:2416-2431 | as written a condition is accepted exactly when the base tag (after the `result` step) is Boolean |
| ExprRead.ConditionIgnoresOwnType | include/ast.hpp:562-573 | as written the type a condition's analysis computed does not decide whether it is accepted |
| ExprRead.IfTrueRejected | include/ast.hpp:2153-2155 | `true` answers its own tag to `get_type()` but `type_check` reads the base tag, so `if true` is rejected when that tag is `integer` |
| ExprRead.IntegerConditionAccepted | include/ast.hpp:2484-2498 | an integer variable is accepted as a `while` condition when its base tag is Boolean, where the analysed check rejects it |
| ExprRead.PlainAssignAsWritten | include/ast.hpp:1262-1270 | outside `result`, an assignment passes exactly when the value's base tag equals what the target answers to `get_type()` |
| ExprRead.VariableAssignIgnoresTypes | include/ast.hpp:1262-1270 | between two variables the assignment is decided by the two base tags alone, not by their types |
| ExprRead.AssignDisagreements | include/ast.hpp:1262-1270 | `x := y` between integers can be rejected, and integer-to-Boolean assignment accepted, as written |
| ExprRead.ArElementAsWritten | include/ast.hpp:1070-1106 | every indexing fails as written; when the array and integer checks pass it fails at the read through the unset `get_array()` |
| ExprRead.DereferenceAsWritten | include/ast.hpp:1178-1204 | every dereference fails as written; when the pointer check passes it fails at the read through the unset `get_pointer()` |
| ExprRead.DescriptorReadsFail | include/ast.hpp:577-582 | `a[0]` and `*(&x)` fail as written whatever the base tags hold, while the analysed rules type them |
| ExprRead.NewAsWritten | include/ast.hpp:2006-2058 | as written only `new l` can pass, exactly on a pointer target; `new [n] l` with a pointer target and a resolved size fails at the unset descriptor |
| ExprRead.DisposeCheckAsWritten | include/ast.hpp:2335-2384 | as written only `dispose l` can pass, on an allocated pointer; `dispose [] l` on an allocated pointer fails at the unset descriptor |
| ExprRead.ArrayAllocationRejected | include/ast.hpp:2024-2034 | `new [n] p` and `dispose [] p` on a pointer to an array fail as written and pass by the analysed rules |
| ExprRead.ArgumentTags | include/ast.hpp:1499 | a call compares `get_type()` of each argument: its base tag unless it is a constant |
| ExprRead.VariableArgumentRejected | include/ast.hpp:1497-1509 | an integer variable passed to an integer formal is rejected when its base tag is Boolean |
| AstDecl.Tagged | include/ast.hpp:1393-1399 | the names of one group with its tag |
| AstDecl.Params | include/ast.hpp:1446-1448 | every parameter name with its tag, in order |
| AstDecl.ParamsEffectOk | include/ast.hpp:1393-1399 | binding parameters passes exactly when every name not forward-declared is new and occurs once, keeping every old binding |
| AstDecl.ParamsEffectKeys | include/ast.hpp:1393-1399 | which runs pass, and which names a passing run binds |
| AstDecl.ParamsEffectValues | include/ast.hpp:1393-1399 | each new name is bound as a plain variable of its tag |
| AstDecl.ParamsEffectFail | include/ast.hpp:1393-1399 | a fatal error names a parameter that is not forward-declared |
| AstDecl.FormalName | include/ast.hpp:1394-1398 | a name is inserted unless the innermost scope holds a forward key for it |
| AstDecl.FormalSem | include/ast.hpp:1393-1399 | `Formal::sem` performs the specified effect on the innermost scope |
| AstDecl.FormalListSem | include/ast.hpp:1446-1448 | `Formal_list::sem` performs the specified effect, group after group |
| AstDecl.Ordinal | include/symbol.hpp:19 | the enumerator values of the type tags, which the rendering uses as characters |
| AstDecl.RenderShape | include/ast.hpp:1371-1378 | lists that differ only in pass mode, array size or pointee render alike |
| AstDecl.RenderEmptyDiffers | include/ast.hpp:1428-1439 | a non-empty list never renders like the empty one |
| AstDecl.HeaderSemFor | include/ast.hpp:2819-2823 | `semfor` binds the routine in the innermost scope with the forward flag set |
| AstDecl.CompareForward | include/ast.hpp:2826-2834 | a completion whose rendering differs from the recorded list's is fatal |
| AstDecl.CompleteForward | include/ast.hpp:2826-2837 | completing drops the forward key and queues the routine in the innermost scope |
| AstDecl.DropForward | include/ast.hpp:2835-2836 | `clearForDecl` then `insertParent` on the innermost scope |
| AstDecl.EnterHeader | include/ast.hpp:2824-2841 | a header takes the forward branch or inserts the routine |
| AstDecl.EnterForward | include/ast.hpp:2826-2837 | the forward branch computes its specified effect |
| AstDecl.EnterRoutine | include/ast.hpp:2838-2840 | inserting a routine computes its specified effect |
| AstDecl.HeaderSemAsWritten | include/ast.hpp:2894-2917 | as written, a function's formals are bound in the enclosing scope after its header |
| AstDecl.HeaderSem | include/ast.hpp:2824-2841 | corrected: the forward branch only for a set flag, and the formals left to the body |
| AstDecl.RedefinitionAsWritten | include/ast.hpp:2824-2841 | as written, a second definition of a procedure in one scope is taken for a completion and accepted |
| AstDecl.RedefinitionRejected | include/ast.hpp:2824-2841 | corrected, the second definition is a duplicate |
| AstDecl.UnaryHeader | include/ast.hpp:2894-2917 | as written, a new one-parameter function binds its parameter in the enclosing scope |
| AstDecl.SharedParameterAsWritten | include/ast.hpp:2894-2917 | as written, two functions with a parameter of the same name in one scope clash |
| AstDecl.SharedParameterCorrected | include/ast.hpp:2894-2917 | corrected, both headers bind only their routine's name |
| AstDecl.SingleRendered | include/ast.hpp:1371-1378 | a one-parameter list's rendering carries the parameter's type |
| AstDecl.TypesRenderApart | include/ast.hpp:1371-1378 | one-parameter lists of different types render differently |
| AstDecl.CompletionOutcome | include/ast.hpp:2826-2834 | completing a forward procedure compares the recorded list with the new one |
| AstDecl.ModeIgnored | include/ast.hpp:2826-2834 | a completion differing only in pass mode is accepted |
| AstDecl.TypeMismatch | include/ast.hpp:2826-2834 | a completion with a parameter of another type is fatal |
| AstStmt.StmtSem | include/ast.hpp:514-518 | a passing statement only grows the scope, every jump it makes targets an attached label, and `goto` and calls decide as their rules do |
| AstStmt.AssignStmt | include/ast.hpp:1237-1272 | an assignment as a statement, growing the scope by at most `result` |
| AstStmt.NewStmt | include/ast.hpp:2006-2060 | `new` as a statement, marking the target |
| AstStmt.CheckStmt | include/ast.hpp:1298-1316 | calls, `dispose`, `goto` and `return` only check; `return` always passes |
| AstStmt.IfSem | include/ast.hpp:2416-2431 | a boolean condition, then both branches |
| AstStmt.BranchesSem | include/ast.hpp:2416-2431 | the two branches one after the other |
| AstStmt.WhileSem | include/ast.hpp:2484-2498 | a boolean condition, then the body once |
| AstStmt.LabeledSem | include/ast.hpp:2626-2628 | as written no label is attached; corrected, the label is attached after its statement, so only jumps back to an earlier labelled statement are covered |
| AstStmt.BlockSem | include/ast.hpp:2548-2556 | the parent's formals are bound, then the statements analysed |
| AstStmt.StmtListSem | include/ast.hpp:545-547 | the statements in order, stopping at the first failure |
| AstStmt.FindParentFormals | include/ast.hpp:2549-2555 | the search for the parent routine's formals changes nothing |
| AstStmt.BindFormals | include/ast.hpp:2551 | binding formals in the innermost scope is the specified change |
| AstStmt.BindParentFormals | include/ast.hpp:2548-2555 | the parent's formals are re-bound in the innermost scope |
| AstStmt.BindFound | include/ast.hpp:2549-2555 | formals are bound only when the search found any |
| AstStmt.BindOutcomeOf | include/ast.hpp:2549-2555 | once the list is found, binding decides as binding that list |
| AstStmt.RoutineHeaderSem | include/ast.hpp:3015-3017 | a header binds no label and attaches none |
| AstStmt.LocalSem | include/ast.hpp:3008-3022 | a declaration attaches no label and binds only the labels it declares |
| AstStmt.RoutineSem | include/ast.hpp:3015-3018 | a routine's header in the enclosing scope, its body in a scope of its own |
| AstStmt.BodySem | include/ast.hpp:3134-3140 | a body opens, analyses and closes its scope; on success every jump targets a label it declared and attached |
| AstStmt.LocalsSem | include/ast.hpp:3080-3084 | the declarations in order in the just-opened scope |
| AstStmt.BackwardGotoAsWritten | include/ast.hpp:2626-2628 | as written, a jump back to a completed labelled statement is fatal |
| AstStmt.BackwardGotoCorrected | include/ast.hpp:2626-2628 | corrected, it passes |
| AstStmt.InsideProcedure | include/ast.hpp:2548-2556 | inside `procedure p(x: integer)`, `p` is outer and `x` is bound in the body's scope |
| AstStmt.ParentIsP | include/symbol.hpp:296-310 | the parent routine of that table is `p` |
| AstStmt.NestedBlockAsWritten | include/ast.hpp:2548-2556 | as written, an empty nested block in that body binds `x` again and is fatal |
| AstStmt.NestedBlockCorrected | include/ast.hpp:2548-2556 | corrected, it binds nothing and passes |
| SemLib.LibraryNames | include/sem_lib.hpp:14-306 | the names `init` registers, in order |
| SemLib.NamesDistinct | include/sem_lib.hpp:24-129 | the input and output names are distinct from the others |
| SemLib.OtherNamesDistinct | include/sem_lib.hpp:131-305 | the mathematical and conversion names are pairwise distinct |
| SemLib.LibraryDistinct | include/sem_lib.hpp:14-306 | the 24 library names are pairwise distinct |
| SemLib.LibraryIsLibFunc | include/ast.hpp:316-324 | the registered names are exactly those `isLibFunc` recognises |
| SemLib.LibraryShapes | include/sem_lib.hpp:14-306 | the procedures are the routines typed `proc`, and each formal group has one name |
| SemLib.RunFailed | include/symbol.hpp:117-149 | a failed registration keeps its error |
| SemLib.ApplyRegistered | include/symbol.hpp:117-149 | one more registration extends the closed form by one step |
| SemLib.RunValue | include/symbol.hpp:117-149 | a passing run binds the routines at the next offsets, queues them and gives each a false forward key |
| SemLib.RunSucceeds | include/symbol.hpp:117-149 | distinct registrations pass exactly when none was bound at the start |
| SemLib.RunFailure | include/symbol.hpp:117-149 | a failing run stops at a routine bound at the start |
| SemLib.Insert | include/sem_lib.hpp:35 | one line of `init`: `insertProcedure` or `insertFunction`, as the closed form says |
| SemLib.Register | include/sem_lib.hpp:35 | the same insertion as one step of the run |
| SemLib.RegisterOutput | include/sem_lib.hpp:24-86 | the five output procedures |
| SemLib.RegisterInput | include/sem_lib.hpp:88-129 | the input routines |
| SemLib.RegisterMath | include/sem_lib.hpp:131-196 | `abs` to `cos` |
| SemLib.RegisterMoreMath | include/sem_lib.hpp:198-253 | `tan` to `pi` |
| SemLib.RegisterConversions | include/sem_lib.hpp:255-305 | `trunc` to `chr` |
| SemLib.RunLibrary | include/sem_lib.hpp:14-306 | the library run stage by stage |
| SemLib.Init | include/sem_lib.hpp:14-306 | `init` is the run over the library table |
| SemLib.InitEffect | include/sem_lib.hpp:14-306 | `init` fails exactly when a library name is already bound, with its error; otherwise exactly the library names are added, each at its offset with its type and formals |

## Left out

- LLVM code generation. Every `compile` body is left out except two: the closure parameter
  list (`AstClosure`) and `Dispose::compile`. This includes the loop in `Call::compile`
  (include/ast.hpp:1592-1622) that passes the arguments.
- Floating-point values. `Realconst` and real arithmetic are not modelled, because reals never
  reach `eval`.
- `eval` of identifiers and `result`. It reads the run-time stack, which is I/O-like state
  outside the front end.
- Printing. `printOn` is not modelled. `getstring` is modelled only for formal lists, where it
  is compared.
- The iteration order of an `unordered_map`. It is taken as a parameter `order`.
- `exit(1)`. It is modelled as an `Abort`/`Fail` outcome, not as termination.
- The parser (build/parser.hpp) and the driver. They are not part of this model.
- `std::map::operator[]` inserting a default entry on a read. Reads are modelled through
  `FlagAt` without the insertion, which no query can observe.
- The uninitialised `brackets` field of the `Dispose(char*, Expr*)` constructor when the text
  is not `[`.
- The insert overloads that carry LLVM handles (include/symbol.hpp:62-99 and 237-239). Nothing
  calls them.
- `Formal::semfor` and `Formal_list::semfor` (include/ast.hpp:1388-1392 and 1443-1445). Nothing
  calls them.
- The run-time handles stored in `SymbolEntry`. An entry keeps only its type and offset.
- The statement pointer stored by `insertLabelStmt`. Only the label's name is kept.
- The null argument list of a call without arguments. `Call(char*)` and `ExprCall(char*)` set
  `expr_list` to null (include/ast.hpp:1456-1459 and 1636-1639), and the type loop dereferences
  it at 1499 and 1679. That is undefined behaviour, modelled as the fatal `MissingArgument`.
- Plain definitions. `GetParent`, `FoundResult`, `FoundForward`, `IsLabel`, `IsNew`,
  `LabelHasStmt`, the `Scope` queries and the `LoggedInfo` stack queries have no contract of
  their own. They appear in the contracts of the members that use them.
- AstEval.Eval: undefined behaviour is one value `Undefined`. The unspecified evaluation order
  of the two operands is not modelled, because with no side effects it cannot change a value.
- AstStmt.StmtSem: the type tags given to expressions are the types their analyses computed.
  The source never delivers those to a parent: the parent reads the base tag `Expr::type`
  and the descriptors `Expr::p` and `Expr::a`, which those analyses never write (findings
  9 to 13, modelled in `ExprRead`). `result` is handled by the members in `AstSem`.

The members below apply their checks to analysed types, which is the corrected behaviour
of findings 9 to 13. As written, each of them reads base fields that nothing sets; `ExprRead`
models that.

- AstCall.ProcedureCall: compares the arguments' analysed types. `Call::sem` compares
  `get_type()`, which for a non-constant argument is its unset base tag (finding 13).
- AstCall.FunctionCall: the same as `ProcedureCall` for the function branch (finding 13).
- AstCall.CallSem: the same as `ProcedureCall` for both branches (finding 13).
- AstSem.WithResult: resolves `result` in the analysed type. As written, `get_type()` of a
  `result` node reads its unset base tag, because `Result::get_type() const` does not
  override; `ExprRead.ResolveResult` models that.
- AstSem.ArElementType: takes the base's analysed type and element type. As written,
  `get_type()` reads the unset base tag and the element type is read through the unset
  `get_array()` (finding 11).
- AstSem.ArElementSem: the same as `ArElementType` (finding 11).
- AstSem.DereferenceType: takes the operand's analysed type and pointee type. As written,
  the pointee is read through the unset `get_pointer()` (finding 11).
- AstSem.DereferenceSem: the same as `DereferenceType` (finding 11).
- AstSem.Reference: its round trip with `DereferenceSem` holds of analysed types only. As
  written, the type `Reference::sem` computes stays in its own field, and `*(&x)` fails
  (`ExprRead.DescriptorReadsFail`).
- AstSem.AssignSem: compares analysed types. As written, `type_check` reads the value's
  unset base tag (finding 10).
- AstSem.ConditionSem: checks the analysed type. As written, `type_check` reads the unset
  base tag (finding 9).
- AstSem.NewCheck: takes analysed types. As written, `new [n] l` reads the unset
  `get_pointer()` (finding 12).
- AstSem.NewOutcome: the same as `NewCheck` (finding 12).
- AstSem.NewSem: the same as `NewCheck` (finding 12).
- AstSem.DisposeCheck: takes analysed types. As written, `dispose [] l` reads the unset
  `get_pointer()` (finding 12).
- AstSem.DisposeSem: the same as `DisposeCheck` (finding 12).
- AstStmt.AssignStmt: built on `AstSem.AssignSem`, so the same applies (finding 10).
- AstStmt.NewStmt: built on `AstSem.NewSem`, so the same applies (finding 12).
- AstStmt.IfSem: built on `AstSem.ConditionSem`, so the same applies (finding 9).
- AstStmt.WhileSem: built on `AstSem.ConditionSem`, so the same applies (finding 9).
- AstTypes operator typing (`BinOpTyping` and `UnOpTyping` with their lemmas): they take one
  tag per operand. The operators read their operands through `type_check`, which sees the
  base tag. The type an operator computes stays in its own field and is never passed on to
  its parent (finding 9).
- AstTypes.ComparisonTyping: for `=` and `<>` the source reads each operand twice, in two
  ways. The numeric branches (include/ast.hpp:824-835) use `type_check`, which reads the base
  tag. The same-type branch (836) uses `get_type()`, which for a constant is its own tag. For a
  constant operand the two reads can differ, and the model's single tag captures only one. For
  example, `1 = 'a'` is typed Boolean silently when both base tags are `integer`, and is
  reported as a mismatch at 836 when both base tags are `boolean`. No single tag per operand
  gives both outcomes.
- AstTypes.EqualityTyping: the same as `ComparisonTyping`; it states the `=`/`<>` rule on one tag
  per operand.

- ScopeLog.LoggedInfo.IsPointer: takes every recorded LLVM type to be a real type.
  `Decl::compile` records a null type for an array declared without a size
  (include/ast.hpp:2681), and `isPointer` dereferences it (include/llvm.hpp:309). The model
  does not capture that crash.
- AstClosure.CaptureOuter: `isPointerTy` is a total predicate here. An outer array declared
  without a size has the null type, which `varType->isPointerTy()` dereferences
  (include/ast.hpp:3203, 3292), so the crash is not captured.
- AstClosure.ClosureParameters: the same as `CaptureOuter`.

## Findings

| source | as written | input that shows it | evidently intended | confidence | as-written member | corrected member |
|---|---|---|---|---|---|---|
| include/ast.hpp:2626-2628 | `LabelStmt::sem` never calls `insertLabelStmt`, so no label is attached and every `goto` is fatal | `label L; begin L: return; goto L end` | the label is attached to its statement (the corrected member attaches it after the statement, so `L: goto L` and forward jumps remain fatal there) | high, not executed | AstStmt.BackwardGotoAsWritten | AstStmt.BackwardGotoCorrected |
| include/ast.hpp:2335-2389 | `Dispose::sem` sets `lvalue` to null, and `Dispose::compile` then dereferences it | `new p; dispose p` | the l-value is kept for code generation | high, not executed | AstSem.DisposeAsWritten | AstSem.DisposeCorrected |
| include/ast.hpp:961-971 | `UnOp::sem` tests int with `if` where `else if` was meant, so a real operand is reported as a mismatch | `-x` with `x: real` | a real operand is accepted silently | high, not executed | AstTypes.UnOpRealReported | AstTypes.UnOpTypingSpec |
| include/ast.hpp:1497-1509 | the argument index `j` is never advanced, so every formal is compared with argument 0 | `readString(n, s)` is always rejected; `p(a, b: integer)` accepts `(1, true)` | argument j is compared with the j-th formal | high, not executed | AstCall.ReadStringRejected | AstCall.ArgsCheckPositions |
| include/ast.hpp:2166-2175 | `Boolconst(string)` tests `compare`, which is 0 on equality, so the two literals are swapped | the literal `true` evaluates to 0 | `true` evaluates to 1 | high, not executed | AstEval.BoolTextInverted | AstEval.BoolTextEvaluates |
| include/ast.hpp:2548-2556 | every `Block::sem` re-binds the parent routine's formals, including a nested compound statement | `procedure p(x: integer); begin begin end end` | only the routine's own body block binds them | high, not executed | AstStmt.NestedBlockAsWritten | AstStmt.NestedBlockCorrected |
| include/ast.hpp:2824-2841 | `foundForward` only tests that the key exists, and a plain definition stores a key holding false | `procedure p(); begin end; procedure p(); begin end` | the second definition is a duplicate | high, not executed | AstDecl.RedefinitionAsWritten | AstDecl.RedefinitionRejected |
| include/ast.hpp:2894-2917 | a function's formals are bound in the enclosing scope, after its header | two functions `f(x: integer)` and `g(x: integer)` in one scope | parameters belong to the routine's own scope | high, not executed | AstDecl.SharedParameterAsWritten | AstDecl.SharedParameterCorrected |
| include/ast.hpp:562-573 | parents read the base tag `Expr::type`, which only the `result` step writes; each node keeps the type it computes in a field of its own, and `type_check` is not virtual | `if true then return` is rejected when the base tag of `true` holds `integer`; `while x do` with `x: integer` is accepted when it holds `boolean` | a condition is checked on the type its analysis computed | high, not executed | ExprRead.IfTrueRejected | AstSem.ConditionSem |
| include/ast.hpp:1262-1270 | an assignment compares the value's base tag with the target's | `x := y` with `x, y: integer` is rejected when the two base tags differ | the value's computed type is compared with the target's | high, not executed | ExprRead.AssignDisagreements | AstSem.AssignSem |
| include/ast.hpp:577-582 | `get_array()` and `get_pointer()` return the never-set base descriptors, which indexing and dereference read through | `a[0]` with `a: array of integer`; `*(&x)` | the element or pointee type of the sub-expression's own type is used | high, not executed | ExprRead.DescriptorReadsFail | AstSem.ArElementSem |
| include/ast.hpp:2024-2034 | `new [n] l` and `dispose [] l` read the pointee type through the never-set `get_pointer()` | `new [10] p` with `p: ^array of integer` | the pointee type of `p` is tested | high, not executed | ExprRead.ArrayAllocationRejected | AstSem.NewOutcome |
| include/ast.hpp:1497-1509 | a call compares the formal's tag with `get_type()` of the argument, which for a variable is its base tag | `p(x)` with `procedure p(n: integer)` and `x: integer` is rejected when the base tag of `x` holds `boolean` | the argument's computed type is compared | high, not executed | ExprRead.VariableArgumentRejected | AstCall.CallSem |
