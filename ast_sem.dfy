/**
 * The checks the l-value and statement nodes of include/ast.hpp make in `sem()` once
 * their sub-expressions have been analysed: indexing, address-of and dereference,
 * assignment (including the implicit `result` of a function), the conditions of `if` and
 * `while`, `new`, `dispose`, `goto`, and the variable and label declarations. A
 * sub-expression is represented by the types its own analysis computed. This is the
 * corrected behaviour. As written, a parent reads the base fields of `Expr` that no analysis
 * writes, and module ExprRead models those reads.
 *
 * Every node that meets an operand typed `result` replaces that type by the type that
 * `result` is bound with, looking it up in the table (a missing binding is fatal). The
 * lookup only reads the table, so the checks below take its answer, `result`, as a value.
 */
module AstSem {
  import opened PclBase
  import opened Symbol
  import ScopeLog

  /**
   * An analysed sub-expression: its type tag, the element (pointee) type tag of its array
   * (pointer) type, its rendering `getstring()` (the key `new` and `dispose` use) and the
   * variable it names, `get_char_var()`.
   */
  datatype Operand = Operand(ty: Types, elem: Types, key: string, name: string)

  /**
   * `e` with the placeholder type of `result` replaced by the type `result` is bound with:
   * only an operand typed `result` depends on the lookup, and only its type tag changes.
   */
  function WithResult(e: Operand, result: Result<SymbolEntry>): (r: Result<Operand>)
    ensures r.Fail? <==> e.ty == TypeResult && result.Fail?
    ensures r.Fail? ==> r.error == result.error
    ensures r.Ok? ==> r.value.elem == e.elem && r.value.key == e.key && r.value.name == e.name
    ensures r.Ok? ==> r.value.ty == if e.ty == TypeResult then result.value.ty else e.ty
  {
    if e.ty != TypeResult then Ok(e)
    else if result.Ok? then Ok(e.(ty := result.value.ty))
    else Fail(result.error)
  }

  // ---------------------------------------------------------------------------------
  // L-values
  // ---------------------------------------------------------------------------------

  /**
   * The rule of `ArElement::sem`: the base must be an array and the index an integer;
   * the element has the array's element type.
   */
  function ArElementType(base: Operand, index: Operand): (r: Result<Types>)
    ensures r.Ok? <==> base.ty == TypeArray && index.ty == TypeInt
    ensures r.Ok? ==> r.value == base.elem
    ensures r.Fail? ==> r.error == if base.ty != TypeArray then NotAnArray else IndexNotInteger
  {
    if base.ty != TypeArray then Fail(NotAnArray)
    else if index.ty != TypeInt then Fail(IndexNotInteger)
    else Ok(base.elem)
  }

  /** `ArElement::sem`: `result` is resolved in the base, then in the index, then the rule applies. */
  function ArElementSem(base: Operand, index: Operand, result: Result<SymbolEntry>): (r: Result<Types>)
    ensures base.ty != TypeResult && index.ty != TypeResult ==> r == ArElementType(base, index)
    ensures r.Ok? <==> (WithResult(base, result).Ok? && WithResult(index, result).Ok? &&
                        ArElementType(WithResult(base, result).value, WithResult(index, result).value).Ok?)
    ensures r.Ok? ==> r.value == base.elem
  {
    match WithResult(base, result)
    case Fail(e) => Fail(e)
    case Ok(b) =>
      match WithResult(index, result)
      case Fail(e) => Fail(e)
      case Ok(i) => ArElementType(b, i)
  }

  /**
   * The rule of `Dereference::sem`: only a pointer can be dereferenced, and the result has
   * the pointee type.
   */
  function DereferenceType(e: Operand): (r: Result<Types>)
    ensures r.Ok? <==> e.ty == TypePointer
    ensures r.Ok? ==> r.value == e.elem
    ensures r.Fail? ==> r.error == NotAPointer
  {
    if e.ty != TypePointer then Fail(NotAPointer) else Ok(e.elem)
  }

  /** `Dereference::sem`: `result` is resolved in the operand, then the rule applies. */
  function DereferenceSem(e: Operand, result: Result<SymbolEntry>): (r: Result<Types>)
    ensures e.ty != TypeResult ==> r == DereferenceType(e)
    ensures r.Ok? <==> WithResult(e, result).Ok? && WithResult(e, result).value.ty == TypePointer
    ensures r.Ok? ==> r.value == e.elem
  {
    match WithResult(e, result)
    case Fail(err) => Fail(err)
    case Ok(d) => DereferenceType(d)
  }

  /**
   * `Reference::sem`: the address of an l-value is a pointer to its type, so dereferencing
   * it gives the l-value's type back, whatever `result` is bound with.
   */
  function Reference(e: Operand): (r: Operand)
    ensures r.ty == TypePointer && r.elem == e.ty && r.name == e.name
    ensures forall result :: DereferenceSem(r, result) == Ok(e.ty)
  {
    Operand(TypePointer, e.ty, "Reference(" + e.key + ")", e.name)
  }

  // ---------------------------------------------------------------------------------
  // Assignment and conditions
  // ---------------------------------------------------------------------------------

  /**
   * What an assignment to `result` needs: a parent routine (found through `getParent`)
   * that a scope binds, declared with the value's type. A procedure is bound with type
   * `proc`, so a procedure's result assignment fails here (its diagnostic is not fatal by
   * itself, the type mismatch that follows is).
   */
  ghost function ResultOutcome(st: SymbolTable, t: Types): (o: Outcome)
    reads st, st.scopes
    ensures o.Pass? <==> (st.GetParent().Ok? && st.Resolved(st.GetParent().value).Ok? &&
                          st.Resolved(st.GetParent().value).value.ty == t)
  {
    match st.GetParent()
    case Fail(e) => Abort(e)
    case Ok(f) =>
      match st.Resolved(f)
      case Fail(e) => Abort(e)
      case Ok(entry) => if entry.ty == t then Pass else Abort(ResultMismatch(f, entry.ty, t))
  }

  /**
   * `Assign::sem`. An ordinary assignment needs the value's type tag to equal the target's
   * and changes nothing. An assignment to `result` first binds `result` in the innermost
   * scope with the value's type unless that scope already binds it, then needs the value's
   * type to be the parent routine's declared type.
   */
  method AssignSem(st: SymbolTable, target: Operand, value: Operand) returns (o: Outcome)
    requires st.Valid() && |st.scopes| > 0
    modifies st.Top()
    ensures st.Valid() && st.scopes == old(st.scopes)
    ensures target.ty != TypeResult ==> unchanged(st.Top())
    ensures target.ty != TypeResult ==> o == if value.ty == target.ty then Pass else Abort(AssignMismatch(target.ty, value.ty))
    ensures target.ty == TypeResult && old(st.FoundResult()) ==> unchanged(st.Top())
    ensures target.ty == TypeResult && !old(st.FoundResult()) ==>
      (st.Top().Entered("result", value.ty, Plain) &&
       st.Top().forwards == old(st.Top().forwards) && st.Top().queue == old(st.Top().queue))
    ensures target.ty == TypeResult ==> st.FoundResult() && o == ResultOutcome(st, value.ty)
  {
    if target.ty != TypeResult {
      return if value.ty == target.ty then Pass else Abort(AssignMismatch(target.ty, value.ty));
    }
    if !st.FoundResult() {
      var inserted := st.Insert("result", value.ty);
      assert inserted.Pass?;
    }
    var parent := st.GetParent();
    if parent.Fail? {
      return Abort(parent.error);
    }
    var declared := st.Lookup(parent.value);
    if declared.Fail? {
      return Abort(declared.error);
    }
    o := if declared.value.ty == value.ty then Pass else Abort(ResultMismatch(parent.value, declared.value.ty, value.ty));
  }

  /** The rule of `If::sem` and `While::sem`: the condition must be Boolean. */
  function ConditionCheck(c: Operand): (o: Outcome)
    ensures o.Pass? <==> c.ty == TypeBool
    ensures o.Abort? ==> o.error == ConditionNotBoolean(c.ty)
  {
    if c.ty == TypeBool then Pass else Abort(ConditionNotBoolean(c.ty))
  }

  /** The condition check of `If::sem` and `While::sem`, after resolving `result`. */
  function ConditionSem(c: Operand, result: Result<SymbolEntry>): (o: Outcome)
    ensures c.ty != TypeResult ==> o == ConditionCheck(c)
    ensures o.Pass? <==> WithResult(c, result).Ok? && WithResult(c, result).value.ty == TypeBool
  {
    match WithResult(c, result)
    case Fail(e) => Abort(e)
    case Ok(r) => ConditionCheck(r)
  }

  // ---------------------------------------------------------------------------------
  // new and dispose
  // ---------------------------------------------------------------------------------

  /**
   * The rule of `New::sem`: `new l` needs a pointer; `new [n] l` needs a pointer to an
   * array and an integer size.
   */
  function NewCheck(target: Operand, size: Option<Operand>): (o: Outcome)
    ensures o.Pass? <==> target.ty == TypePointer && (size.Some? ==> target.elem == TypeArray && size.value.ty == TypeInt)
    ensures o.Abort? ==> (o.error ==
      if target.ty != TypePointer then NotAPointer else if target.elem != TypeArray then NotPointerToArray else SizeNotInteger)
  {
    if target.ty != TypePointer then Abort(NotAPointer)
    else if size.None? then Pass
    else if target.elem != TypeArray then Abort(NotPointerToArray)
    else if size.value.ty != TypeInt then Abort(SizeNotInteger)
    else Pass
  }

  /** The checks of `New::sem` after resolving `result` in the target and then in the size. */
  function NewOutcome(target: Operand, size: Option<Operand>, result: Result<SymbolEntry>): (o: Outcome)
    ensures target.ty != TypeResult && (size.Some? ==> size.value.ty != TypeResult) ==> o == NewCheck(target, size)
    ensures o.Pass? ==> WithResult(target, result).Ok? && WithResult(target, result).value.ty == TypePointer
  {
    match WithResult(target, result)
    case Fail(e) => Abort(e)
    case Ok(t) =>
      if size.None? then NewCheck(t, None)
      else match WithResult(size.value, result)
        case Fail(e) => Abort(e)
        case Ok(n) => NewCheck(t, Some(n))
  }

  /**
   * `New::sem`: the checks, then `makeNew` marks the target's rendering as allocated in
   * the innermost scope; nothing else changes.
   */
  method NewSem(st: SymbolTable, target: Operand, size: Option<Operand>, result: Result<SymbolEntry>) returns (o: Outcome)
    requires st.Valid() && |st.scopes| > 0
    modifies st.Top()`news
    ensures st.Valid() && st.scopes == old(st.scopes)
    ensures o == NewOutcome(target, size, result)
    ensures st.Top().news == if o.Pass? then old(st.Top().news)[target.key := true] else old(st.Top().news)
  {
    o := NewOutcome(target, size, result);
    if o.Pass? {
      st.MakeNew(target.key);
    }
  }

  /**
   * The rule of `Dispose::sem`: the target must be a pointer that a `new` in the innermost
   * scope allocated, and for `dispose []` a pointer to an array.
   */
  function DisposeCheck(target: Operand, brackets: bool, isNew: bool): (o: Outcome)
    ensures o.Pass? <==> target.ty == TypePointer && isNew && (brackets ==> target.elem == TypeArray)
    ensures o.Abort? ==> (o.error ==
      if target.ty != TypePointer then NotAPointer else if !isNew then NotFromNew else NotPointerToArray)
  {
    if target.ty != TypePointer then Abort(NotAPointer)
    else if !isNew then Abort(NotFromNew)
    else if brackets && target.elem != TypeArray then Abort(NotPointerToArray)
    else Pass
  }

  /**
   * `Dispose::sem` after resolving `result` in the target. It only reads the table: the
   * allocation mark stays, so disposing the same pointer again passes again.
   */
  function DisposeSem(st: SymbolTable, target: Operand, brackets: bool, result: Result<SymbolEntry>): (o: Outcome)
    reads st, st.scopes
    requires |st.scopes| > 0
    ensures target.ty != TypeResult ==> o == DisposeCheck(target, brackets, st.IsNew(target.key))
    ensures o.Pass? ==> st.IsNew(target.key) && WithResult(target, result).Ok? && WithResult(target, result).value.ty == TypePointer
  {
    match WithResult(target, result)
    case Fail(e) => Abort(e)
    case Ok(t) => DisposeCheck(t, brackets, st.IsNew(t.key))
  }

  /** A `Dispose` node: the pointer expression it frees and whether it is `dispose []`. */
  class DisposeNode {
    var lvalue: Option<Operand>
    const brackets: bool

    constructor (target: Operand, brackets: bool)
      ensures lvalue == Some(target) && this.brackets == brackets
    {
      lvalue := Some(target);
      this.brackets := brackets;
    }

    /** `Dispose::sem` as written: the checks, then `lvalue = nullptr`. */
    method SemAsWritten(st: SymbolTable, result: Result<SymbolEntry>) returns (o: Outcome)
      requires |st.scopes| > 0 && lvalue.Some?
      modifies this`lvalue
      ensures o == DisposeSem(st, old(lvalue).value, brackets, result)
      ensures lvalue == if o.Pass? then None else old(lvalue)
    {
      o := DisposeSem(st, lvalue.value, brackets, result);
      if o.Pass? {
        lvalue := None;
      }
    }

    /** `Dispose::sem` with the l-value kept for code generation. */
    method Sem(st: SymbolTable, result: Result<SymbolEntry>) returns (o: Outcome)
      requires |st.scopes| > 0 && lvalue.Some?
      ensures o == DisposeSem(st, lvalue.value, brackets, result)
    {
      o := DisposeSem(st, lvalue.value, brackets, result);
    }

    /**
     * `Dispose::compile`: `disposePointer` on the variable the l-value names, which clears
     * its slot in the innermost code-generation log; with no l-value it dereferences null.
     */
    method Compile<Ty, Slot, Fn, Block, Val>(log: ScopeLog.LoggedInfo<Ty, Slot, Fn, Block, Val>) returns (o: Outcome)
      requires |log.logs| > 0
      modifies log
      ensures lvalue.None? ==> o == Abort(NullLvalue) && log.logs == old(log.logs)
      ensures lvalue.Some? ==> (o == Pass &&
        log.logs == ScopeLog.WithTop(old(log.logs), old(log.Top()).(variableAllocas := old(log.Top()).variableAllocas[lvalue.value.name := None])))
    {
      if lvalue.None? {
        return Abort(NullLvalue);
      }
      log.DisposePointer(lvalue.value.name);
      o := Pass;
    }
  }

  /**
   * Analysis and then code generation of one `dispose`, as written: whenever the analysis
   * accepts the statement, code generation finds the l-value gone.
   */
  method DisposeAsWritten<Ty, Slot, Fn, Block, Val>(st: SymbolTable, log: ScopeLog.LoggedInfo<Ty, Slot, Fn, Block, Val>,
                                                    target: Operand, brackets: bool, result: Result<SymbolEntry>) returns (o: Outcome)
    requires |st.scopes| > 0 && |log.logs| > 0
    modifies log
    ensures DisposeSem(st, target, brackets, result).Pass? ==> o == Abort(NullLvalue)
    ensures DisposeSem(st, target, brackets, result).Abort? ==> o == DisposeSem(st, target, brackets, result)
  {
    var node := new DisposeNode(target, brackets);
    o := node.SemAsWritten(st, result);
    if o.Abort? {
      return;
    }
    o := node.Compile(log);
  }

  /**
   * Analysis and then code generation of one `dispose` with the l-value kept: an accepted
   * statement clears the variable's slot in the innermost log.
   */
  method DisposeCorrected<Ty, Slot, Fn, Block, Val>(st: SymbolTable, log: ScopeLog.LoggedInfo<Ty, Slot, Fn, Block, Val>,
                                                    target: Operand, brackets: bool, result: Result<SymbolEntry>) returns (o: Outcome)
    requires |st.scopes| > 0 && |log.logs| > 0
    modifies log
    ensures o == DisposeSem(st, target, brackets, result)
    ensures o.Pass? ==>
      log.logs == ScopeLog.WithTop(old(log.logs), old(log.Top()).(variableAllocas := old(log.Top()).variableAllocas[target.name := None]))
    ensures o.Abort? ==> log.logs == old(log.logs)
  {
    var node := new DisposeNode(target, brackets);
    o := node.Sem(st, result);
    if o.Abort? {
      return;
    }
    o := node.Compile(log);
  }

  // ---------------------------------------------------------------------------------
  // goto and declarations
  // ---------------------------------------------------------------------------------

  /**
   * `Goto::sem`: the target must be declared as a label in the innermost scope and be
   * attached to a statement there.
   */
  function GotoSem(st: SymbolTable, l: string): (o: Outcome)
    reads st, st.scopes
    requires |st.scopes| > 0
    ensures o.Pass? <==> st.IsLabel(l) && st.LabelHasStmt(l)
    ensures o.Abort? ==> o.error == if !st.IsLabel(l) then NotALabel(l) else LabelWithoutStatement(l)
  {
    if !st.IsLabel(l) then Abort(NotALabel(l))
    else if !st.LabelHasStmt(l) then Abort(LabelWithoutStatement(l))
    else Pass
  }

  /** The bindings after entering `ids` in order from offset `off`, as variables or as labels. */
  function BindIds(n: Bindings, ids: seq<string>, t: Types, off: int, asLabel: bool): Bindings
    decreases |ids|
  {
    if ids == [] then n
    else BindIds(n, ids[..|ids| - 1], t, off, asLabel)[ids[|ids| - 1] := Binding(SymbolEntry(t, off + |ids| - 1), if asLabel then Label else Plain)]
  }

  /** Entering names binds exactly those names in addition to the ones bound before. */
  lemma {:induction false} BindIdsKeys(n: Bindings, ids: seq<string>, t: Types, off: int, asLabel: bool, c: string)
    ensures c in BindIds(n, ids, t, off, asLabel) <==> c in n || c in ids
    decreases |ids|
  {
    if ids != [] {
      var init := ids[..|ids| - 1];
      BindIdsKeys(n, init, t, off, asLabel, c);
      assert ids == init + [ids[|ids| - 1]];
    }
  }

  /** A name that is not entered keeps its binding and its kind. */
  lemma {:induction false} BindIdsOther(n: Bindings, ids: seq<string>, t: Types, off: int, asLabel: bool, c: string)
    requires c !in ids
    ensures var r := BindIds(n, ids, t, off, asLabel); (c in r <==> c in n) && (c in n ==> r[c] == n[c])
    decreases |ids|
  {
    if ids != [] {
      var init := ids[..|ids| - 1];
      assert c !in init;
      BindIdsOther(n, init, t, off, asLabel, c);
    }
  }

  /** When the names are distinct, the `i`-th one is bound at offset `off + i` with the requested kind. */
  lemma {:induction false} BindIdsReadsBack(n: Bindings, ids: seq<string>, t: Types, off: int, asLabel: bool, i: int)
    requires Distinct(ids) && 0 <= i < |ids|
    ensures var r := BindIds(n, ids, t, off, asLabel);
      ids[i] in r && r[ids[i]] == Binding(SymbolEntry(t, off + i), if asLabel then Label else Plain)
    decreases |ids|
  {
    var init, last := ids[..|ids| - 1], ids[|ids| - 1];
    if i < |ids| - 1 {
      assert Distinct(init);
      assert init[i] == ids[i] != last;
      BindIdsReadsBack(n, init, t, off, asLabel, i);
    }
  }

  /**
   * Names entered from one declaration list get pairwise different offsets: the `i`-th
   * and the `j`-th name of a duplicate-free list sit `j - i` slots apart.
   */
  lemma BindIdsOffsetsDistinct(n: Bindings, ids: seq<string>, t: Types, off: int, asLabel: bool, i: int, j: int)
    requires Distinct(ids) && 0 <= i < j < |ids|
    ensures var r := BindIds(n, ids, t, off, asLabel);
      ids[i] in r && ids[j] in r && r[ids[i]].entry.offset < r[ids[j]].entry.offset
  {
    BindIdsReadsBack(n, ids, t, off, asLabel, i);
    BindIdsReadsBack(n, ids, t, off, asLabel, j);
  }

  /** One more name entered: the names entered so far stay distinct and new, and the bindings follow `BindIds`. */
  lemma DeclareStep(n0: Bindings, ids: seq<string>, i: int, t: Types, off0: int, asLabel: bool)
    requires 0 <= i < |ids| && ids[i] !in BindIds(n0, ids[..i], t, off0, asLabel)
    requires Distinct(ids[..i]) && forall j :: 0 <= j < i ==> ids[j] !in n0
    ensures Distinct(ids[..i + 1]) && forall j :: 0 <= j < i + 1 ==> ids[j] !in n0
    ensures BindIds(n0, ids[..i + 1], t, off0, asLabel) ==
            BindIds(n0, ids[..i], t, off0, asLabel)[ids[i] := Binding(SymbolEntry(t, off0 + i), if asLabel then Label else Plain)]
  {
    BindIdsKeys(n0, ids[..i], t, off0, asLabel, ids[i]);
    forall j | 0 <= j < i ensures ids[j] != ids[i] {
      assert ids[..i][j] == ids[j];
    }
    assert ids[..i + 1][..i] == ids[..i];
  }

  /** A name already bound when it is entered: either it was bound before the loop or it repeats an earlier name. */
  lemma DeclareClash(n0: Bindings, ids: seq<string>, i: int, t: Types, off0: int, asLabel: bool)
    requires 0 <= i < |ids| && ids[i] in BindIds(n0, ids[..i], t, off0, asLabel)
    ensures !(Distinct(ids) && forall j :: 0 <= j < |ids| ==> ids[j] !in n0)
  {
    BindIdsKeys(n0, ids[..i], t, off0, asLabel, ids[i]);
    if ids[i] !in n0 {
      var j :| 0 <= j < i && ids[..i][j] == ids[i];
      assert ids[j] == ids[i];
    }
  }

  /**
   * The loop of `Decl::sem` (`insert` of each name) and of `Label::sem` (`insertLabel` of
   * each name with type `label`): it succeeds exactly when the names are distinct and none
   * is bound in the innermost scope yet, and then enters them in order at the next
   * offsets; otherwise it stops at a duplicate.
   */
  method DeclareAll(st: SymbolTable, ids: seq<string>, t: Types, asLabel: bool) returns (o: Outcome)
    requires st.Valid() && |st.scopes| > 0
    modifies st.Top()
    ensures st.Valid() && st.scopes == old(st.scopes)
    ensures o.Pass? <==> Distinct(ids) && forall i :: 0 <= i < |ids| ==> ids[i] !in old(st.Top().binds)
    ensures o.Abort? ==> exists i :: 0 <= i < |ids| && o.error == DuplicateVariable(ids[i])
    ensures o.Pass? ==> st.Top().binds == BindIds(old(st.Top().binds), ids, t, old(st.Top().offset), asLabel)
    ensures o.Pass? ==> st.Top().offset == old(st.Top().offset) + |ids|
    ensures st.Top().forwards == old(st.Top().forwards) && st.Top().queue == old(st.Top().queue)
    ensures o.Pass? ==> st.Top().news == old(st.Top().news) && st.Top().labelStmts == old(st.Top().labelStmts)
  {
    var top := st.Top();
    ghost var n0, off0 := top.binds, top.offset;
    var i := 0;
    while i < |ids|
      invariant 0 <= i <= |ids|
      invariant st.Valid() && st.scopes == old(st.scopes)
      invariant Distinct(ids[..i]) && forall j :: 0 <= j < i ==> ids[j] !in n0
      invariant top.binds == BindIds(n0, ids[..i], t, off0, asLabel) && top.offset == off0 + i
      invariant top.forwards == old(top.forwards) && top.queue == old(top.queue)
      invariant top.news == old(top.news) && top.labelStmts == old(top.labelStmts)
    {
      var c := ids[i];
      if asLabel {
        o := st.InsertLabel(c, t);
      } else {
        o := st.Insert(c, t);
      }
      if o.Abort? {
        DeclareClash(n0, ids, i, t, off0, asLabel);
        return;
      }
      DeclareStep(n0, ids, i, t, off0, asLabel);
      i := i + 1;
    }
    assert ids[..i] == ids;
    o := Pass;
  }

  /** `Decl::sem`: declare plain variables of one type at consecutive offsets. */
  method DeclSem(st: SymbolTable, ids: seq<string>, t: Types) returns (o: Outcome)
    requires st.Valid() && |st.scopes| > 0
    modifies st.Top()
    ensures st.Valid() && st.scopes == old(st.scopes)
    ensures o.Pass? <==> Distinct(ids) && forall i :: 0 <= i < |ids| ==> ids[i] !in old(st.Top().binds)
    ensures o.Abort? ==> exists i :: 0 <= i < |ids| && o.error == DuplicateVariable(ids[i])
    ensures o.Pass? ==> forall i :: 0 <= i < |ids| ==>
      ids[i] in st.Top().binds && st.Top().binds[ids[i]] == Binding(SymbolEntry(t, old(st.Top().offset) + i), Plain)
    ensures o.Pass? ==> forall c :: c !in ids ==>
      (c in st.Top().binds <==> c in old(st.Top().binds)) && (c in st.Top().binds ==> st.Top().binds[c] == old(st.Top().binds[c]))
    ensures o.Pass? ==> st.Top().labelStmts == old(st.Top().labelStmts)
  {
    ghost var n0, off0 := st.Top().binds, st.Top().offset;
    o := DeclareAll(st, ids, t, false);
    if o.Pass? {
      forall i | 0 <= i < |ids| ensures ids[i] in st.Top().binds && st.Top().binds[ids[i]] == Binding(SymbolEntry(t, off0 + i), Plain) {
        BindIdsReadsBack(n0, ids, t, off0, false, i);
      }
      forall c | c !in ids ensures (c in st.Top().binds <==> c in n0) && (c in st.Top().binds ==> st.Top().binds[c] == n0[c]) {
        BindIdsOther(n0, ids, t, off0, false, c);
      }
    }
  }

  /** `Label::sem`: declare labels; afterwards each is a label of the innermost scope. */
  method LabelSem(st: SymbolTable, ids: seq<string>) returns (o: Outcome)
    requires st.Valid() && |st.scopes| > 0
    modifies st.Top()
    ensures st.Valid() && st.scopes == old(st.scopes)
    ensures o.Pass? <==> Distinct(ids) && forall i :: 0 <= i < |ids| ==> ids[i] !in old(st.Top().binds)
    ensures o.Abort? ==> exists i :: 0 <= i < |ids| && o.error == DuplicateVariable(ids[i])
    ensures o.Pass? ==> forall i :: 0 <= i < |ids| ==> st.IsLabel(ids[i])
    ensures o.Pass? ==> st.Top().labelStmts == old(st.Top().labelStmts)
    ensures o.Pass? ==> forall c :: c !in ids ==>
      (c in st.Top().binds <==> c in old(st.Top().binds)) && (c in st.Top().binds ==> st.Top().binds[c] == old(st.Top().binds[c]))
  {
    ghost var n0, off0 := st.Top().binds, st.Top().offset;
    o := DeclareAll(st, ids, TypeLabel, true);
    if o.Pass? {
      forall i | 0 <= i < |ids| ensures st.IsLabel(ids[i]) {
        BindIdsReadsBack(n0, ids, TypeLabel, off0, true, i);
      }
      forall c | c !in ids ensures (c in st.Top().binds <==> c in n0) && (c in st.Top().binds ==> st.Top().binds[c] == n0[c]) {
        BindIdsOther(n0, ids, TypeLabel, off0, true, c);
      }
    }
  }
}
