/**
 * What a parent node of include/ast.hpp actually reads from a sub-expression.
 *
 * The base class `Expr` keeps a type tag and two descriptors, an array and a pointer, in
 * private fields (ast.hpp:599-601). The nodes' own `sem()` record the type they compute in
 * fields of their own (`Id`, `Result`, the operators, the l-values), which no parent reads.
 * The base tag has one writer, `set_type`, which is only called on the `result` path, and
 * the descriptors have none. So:
 *   - `get_type()` is overridden only by the constants and `nil`, which answer their own
 *     tag. Every other node answers the base tag. `Result::get_type() const` has a
 *     different signature and does not override it;
 *   - `type_check(t)` is not virtual. It compares the base tag for every node, constants
 *     included;
 *   - `get_array()` and `get_pointer()` answer descriptors that were never set.
 *
 * Before any `set_type` the base tag holds whatever the allocation left. The model takes
 * it as a field of the node, `base`. Reading an element type through an unset descriptor
 * is undefined behaviour, and the model takes it as fatal (`UnsetDescriptor`).
 *
 * The members here are the checks as written. The members of AstSem and AstCall are the
 * same checks applied to the types the analyses computed.
 */
module ExprRead {
  import opened PclBase
  import opened Symbol
  import AstSem
  import AstCall

  /**
   * A sub-expression as its parent sees it:
   *   - `constant` holds for the nodes that override `get_type()`: the integer, Boolean,
   *     real, character and string constants and `nil`;
   *   - `own` is the type tag its own analysis computed;
   *   - `base` is the content of the base field `Expr::type`.
   */
  datatype Node = Node(constant: bool, own: Types, base: Types)

  /** `get_type()`: a constant answers its own tag, and every other node the base field. */
  function GetType(n: Node): Types {
    if n.constant then n.own else n.base
  }

  /** `type_check(t)`: not virtual, so it compares the base field of every node. */
  predicate TypeCheck(n: Node, t: Types) {
    n.base == t
  }

  /**
   * The step `if (e->get_type() == TYPE_result) e->set_type(st.lookup("result")->type)`
   * that every checking node takes first. It is the one place where the base field gets
   * written, and it leaves the node's own tag alone.
   */
  function ResolveResult(n: Node, result: Result<SymbolEntry>): (r: Result<Node>)
    ensures r.Fail? <==> GetType(n) == TypeResult && result.Fail?
    ensures r.Fail? ==> r.error == result.error
    ensures r.Ok? ==> r.value.constant == n.constant && r.value.own == n.own
    ensures r.Ok? ==> r.value.base == if GetType(n) == TypeResult then result.value.ty else n.base
  {
    if GetType(n) != TypeResult then Ok(n)
    else if result.Ok? then Ok(n.(base := result.value.ty))
    else Fail(result.error)
  }

  // ---------------------------------------------------------------------------------
  // Conditions of if and while
  // ---------------------------------------------------------------------------------

  /**
   * `If::sem` and `While::sem` as written: first the `result` step, then
   * `cond->type_check(TYPE_bool)`. The outcome is decided by the base field, whatever type
   * the condition has.
   */
  function ConditionAsWritten(c: Node, result: Result<SymbolEntry>): (o: Outcome)
    ensures GetType(c) != TypeResult ==> (o.Pass? <==> c.base == TypeBool)
    ensures GetType(c) == TypeResult ==> (o.Pass? <==> result.Ok? && result.value.ty == TypeBool)
  {
    match ResolveResult(c, result)
    case Fail(e) => Abort(e)
    case Ok(r) => if TypeCheck(r, TypeBool) then Pass else Abort(ConditionNotBoolean(GetType(r)))
  }

  /**
   * Changing the type the condition's analysis computed does not change whether the
   * condition is accepted. The one exception is a change to or from `result`.
   */
  lemma ConditionIgnoresOwnType(c: Node, t: Types, result: Result<SymbolEntry>)
    requires c.constant ==> c.own != TypeResult && t != TypeResult
    ensures ConditionAsWritten(c.(own := t), result).Pass? <==> ConditionAsWritten(c, result).Pass?
  {
  }

  /**
   * `if true then ...` is rejected whenever the base field of the constant holds `integer`.
   * The checks on analysed types accept it.
   */
  lemma IfTrueRejected(result: Result<SymbolEntry>)
    ensures ConditionAsWritten(Node(true, TypeBool, TypeInt), result) == Abort(ConditionNotBoolean(TypeBool))
    ensures AstSem.ConditionSem(AstSem.Operand(TypeBool, TypeBool, "true", ""), result) == Pass
  {
  }

  /**
   * An integer variable is accepted as a condition whenever its base field holds `boolean`.
   * The checks on analysed types reject it.
   */
  lemma IntegerConditionAccepted(result: Result<SymbolEntry>)
    ensures ConditionAsWritten(Node(false, TypeInt, TypeBool), result) == Pass
    ensures AstSem.ConditionSem(AstSem.Operand(TypeInt, TypeInt, "x", "x"), result) == Abort(ConditionNotBoolean(TypeInt))
  {
  }

  // ---------------------------------------------------------------------------------
  // Assignment
  // ---------------------------------------------------------------------------------

  /**
   * The check of `Assign::sem` on the branch taken when the target's `get_type()` is not
   * `TYPE_result`: `expr->type_check(lvalue->get_type())`. It compares the value's base
   * field with what the target answers.
   */
  function PlainAssignAsWritten(target: Node, value: Node): (o: Outcome)
    ensures o.Pass? <==> value.base == GetType(target)
    ensures o.Abort? ==> o.error == AssignMismatch(GetType(target), GetType(value))
  {
    if TypeCheck(value, GetType(target)) then Pass else Abort(AssignMismatch(GetType(target), GetType(value)))
  }

  /**
   * Between two variables, the assignment is decided by their two base fields. Their
   * declared types play no part.
   */
  lemma VariableAssignIgnoresTypes(x: Node, y: Node, s: Types, t: Types)
    requires !x.constant && !y.constant
    ensures PlainAssignAsWritten(x, y).Pass? <==> x.base == y.base
    ensures PlainAssignAsWritten(x.(own := s), y.(own := t)) == PlainAssignAsWritten(x, y)
  {
  }

  /**
   * Two cases where the as-written check and the check on analysed types disagree:
   *   - with `x` and `y` both integer variables, `x := y` is rejected when their base
   *     fields differ;
   *   - integer-to-Boolean assignment is accepted when their base fields agree.
   * (`AstSem.AssignSem` compares the analysed types.)
   */
  lemma AssignDisagreements()
    ensures PlainAssignAsWritten(Node(false, TypeInt, TypeInt), Node(false, TypeInt, TypeBool)) ==
            Abort(AssignMismatch(TypeInt, TypeBool))
    ensures PlainAssignAsWritten(Node(false, TypeInt, TypeChar), Node(false, TypeBool, TypeChar)) == Pass
  {
  }

  // ---------------------------------------------------------------------------------
  // Reads through the descriptors
  // ---------------------------------------------------------------------------------

  /**
   * `ArElement::sem` as written:
   *   1. the `result` step on the base, then on the index;
   *   2. the base must answer `array` and the index `integer`;
   *   3. the element type is read through `lvalue->get_array()`, which is never set.
   * So every indexing stops, and it stops at the unset descriptor exactly when both checks
   * pass.
   */
  function ArElementAsWritten(base: Node, index: Node, result: Result<SymbolEntry>): (r: Result<Types>)
    ensures r.Fail?
    ensures ResolveResult(base, result).Fail? ==> r.error == result.error
    ensures var b := ResolveResult(base, result); var i := ResolveResult(index, result);
      b.Ok? && i.Ok? ==> (r.error == UnsetDescriptor <==> GetType(b.value) == TypeArray && GetType(i.value) == TypeInt)
  {
    match ResolveResult(base, result)
    case Fail(e) => Fail(e)
    case Ok(b) =>
      match ResolveResult(index, result)
      case Fail(e) => Fail(e)
      case Ok(i) =>
        if GetType(b) != TypeArray then Fail(NotAnArray)
        else if GetType(i) != TypeInt then Fail(IndexNotInteger)
        else Fail(UnsetDescriptor)
  }

  /**
   * `Dereference::sem` as written: the `result` step, then the operand must answer
   * `pointer`, and then the pointee type is read through the unset `get_pointer()`.
   */
  function DereferenceAsWritten(e: Node, result: Result<SymbolEntry>): (r: Result<Types>)
    ensures r.Fail?
    ensures ResolveResult(e, result).Fail? ==> r.error == result.error
    ensures var x := ResolveResult(e, result);
      x.Ok? ==> (r.error == UnsetDescriptor <==> GetType(x.value) == TypePointer)
  {
    match ResolveResult(e, result)
    case Fail(x) => Fail(x)
    case Ok(x) => if GetType(x) != TypePointer then Fail(NotAPointer) else Fail(UnsetDescriptor)
  }

  /**
   * Neither `a[0]` nor `*(&x)` gets through as written, whatever the base fields hold.
   * Both are accepted on analysed types:
   *   - `a[0]`, with `a` an array of integers, has type `integer`;
   *   - `*(&x)` has the type of `x`. The node built by `&x` is not a constant, so its
   *     parent reads its base field and never its own tag.
   */
  lemma DescriptorReadsFail(a: Types, i: Types, r: Types, x: AstSem.Operand, result: Result<SymbolEntry>)
    ensures ArElementAsWritten(Node(false, TypeArray, a), Node(true, TypeInt, i), result).Fail?
    ensures DereferenceAsWritten(Node(false, TypePointer, r), result).Fail?
    ensures AstSem.ArElementSem(AstSem.Operand(TypeArray, TypeInt, "a", "a"), AstSem.Operand(TypeInt, TypeInt, "0", ""), result) == Ok(TypeInt)
    ensures AstSem.DereferenceSem(AstSem.Reference(x), result) == Ok(x.ty)
  {

  }

  /**
   * `New::sem` as written:
   *   1. the `result` step on the target, then on the size;
   *   2. the target must answer `pointer`;
   *   3. for `new [n] l`, the pointee type is then read through the unset descriptor.
   * So only `new l` gets through.
   */
  function NewAsWritten(target: Node, size: Option<Node>, result: Result<SymbolEntry>): (o: Outcome)
    ensures o.Pass? <==> size.None? && ResolveResult(target, result).Ok? && GetType(ResolveResult(target, result).value) == TypePointer
    ensures var t := ResolveResult(target, result);
      size.Some? && t.Ok? && GetType(t.value) == TypePointer && ResolveResult(size.value, result).Ok? ==> o == Abort(UnsetDescriptor)
  {
    match ResolveResult(target, result)
    case Fail(e) => Abort(e)
    case Ok(t) =>
      if size.None? then (if GetType(t) != TypePointer then Abort(NotAPointer) else Pass)
      else match ResolveResult(size.value, result)
        case Fail(e) => Abort(e)
        case Ok(_) => if GetType(t) != TypePointer then Abort(NotAPointer) else Abort(UnsetDescriptor)
  }

  /**
   * `Dispose::sem` as written:
   *   1. the `result` step on the target;
   *   2. the target must answer `pointer`;
   *   3. it must be marked as allocated in the innermost scope (`isNew`);
   *   4. for `dispose [] l`, the pointee type is then read through the unset descriptor.
   * So only `dispose l` gets through.
   */
  function DisposeCheckAsWritten(target: Node, brackets: bool, isNew: bool, result: Result<SymbolEntry>): (o: Outcome)
    ensures o.Pass? <==> !brackets && isNew && ResolveResult(target, result).Ok? && GetType(ResolveResult(target, result).value) == TypePointer
    ensures var t := ResolveResult(target, result);
      t.Ok? ==> (o == Abort(UnsetDescriptor) <==> brackets && isNew && GetType(t.value) == TypePointer)
  {
    match ResolveResult(target, result)
    case Fail(e) => Abort(e)
    case Ok(t) =>
      if GetType(t) != TypePointer then Abort(NotAPointer)
      else if !isNew then Abort(NotFromNew)
      else if brackets then Abort(UnsetDescriptor)
      else Pass
  }

  /**
   * A pointer-to-array variable can be neither allocated with `new [n]` nor released with
   * `dispose []` as written. The rules on analysed types accept both.
   */
  lemma ArrayAllocationRejected(p: Types, n: Types, result: Result<SymbolEntry>, st: SymbolTable)
    requires p != TypeResult && |st.scopes| > 0 && st.IsNew("p")
    ensures NewAsWritten(Node(false, TypePointer, p), Some(Node(true, TypeInt, n)), result).Abort?
    ensures DisposeCheckAsWritten(Node(false, TypePointer, p), true, true, result).Abort?
    ensures AstSem.NewOutcome(AstSem.Operand(TypePointer, TypeArray, "p", "p"), Some(AstSem.Operand(TypeInt, TypeInt, "1", "")), result) == Pass
    ensures AstSem.DisposeSem(st, AstSem.Operand(TypePointer, TypeArray, "p", "p"), true, result) == Pass
  {
  }

  // ---------------------------------------------------------------------------------
  // Call arguments
  // ---------------------------------------------------------------------------------

  /** The tags `Call::sem` and `ExprCall::sem` compare with the formals: `get_type()` of each argument. */
  function ArgumentTags(args: seq<Node>): (r: seq<Types>)
    ensures |r| == |args|
    ensures forall i :: 0 <= i < |args| && !args[i].constant ==> r[i] == args[i].base
    ensures forall i :: 0 <= i < |args| && args[i].constant ==> r[i] == args[i].own
  {
    if args == [] then [] else [GetType(args[0])] + ArgumentTags(args[1..])
  }

  /**
   * An integer variable passed to an integer formal is rejected as written when its base
   * field holds `boolean`. On its declared type the call is accepted by both the
   * as-written loop and the corrected check.
   */
  lemma VariableArgumentRejected()
    ensures var fl := [Formal(["n"], IntDesc, ByValue)];
      AstCall.ArgsAsWritten("p", fl, ArgumentTags([Node(false, TypeInt, TypeBool)])) == Abort(ArgumentMismatch("p")) &&
      AstCall.ArgsAsWritten("p", fl, [TypeInt]) == Pass &&
      AstCall.ArgsCheck("p", fl, [TypeInt]) == Pass
  {
    var fl := [Formal(["n"], IntDesc, ByValue)];
    assert ArgumentTags([Node(false, TypeInt, TypeBool)]) == [TypeBool];
    assert AstCall.ParamTags(fl) == [TypeInt] by {
      assert fl[..0] == [];
    }
  }
}
