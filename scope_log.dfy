/**
 * The code generator's scope log (include/llvm.hpp, `LoggedInfo`). Each open scope has a
 * `scopeLog` record of maps from names to LLVM handles plus two stacks of routine names;
 * the logger keeps a stack of these records, writes only to the innermost one and reads
 * innermost-first.
 *
 * LLVM handles are never inspected, so they are type parameters: `Ty` (`Type*`), `Slot`
 * (`AllocaInst*`), `Fn` (`Function*`), `Block` (`BasicBlock*`) and `Val` (`Value*`). The
 * slot map holds `Option<Slot>`: `Decl::compile` records declared-but-unallocated arrays and
 * pointers with a null slot, and `disposePointer` overwrites a slot with null.
 */
module ScopeLog {
  import opened PclBase

  /** One `scopeLog` record; a `stack<string>` is a sequence whose last element is the top. */
  datatype Log<Ty, Slot, Fn, Block, Val> = Log(
    variableTypes: map<string, Ty>,
    pointerTypes: map<string, Ty>,
    arrayTypes: map<string, Ty>,
    funcTypes: map<string, Ty>,
    variableAllocas: map<string, Option<Slot>>,
    functions: map<string, Fn>,
    functionsEnds: map<string, Block>,
    procedures: map<string, Fn>,
    functionsResults: map<string, Val>,
    labelsBody: map<string, Block>,
    labelsCont: map<string, Block>,
    functionsNoBody: seq<string>,
    procsNoBody: seq<string>,
    procsFormals: map<string, FormalList>,
    funcsFormals: map<string, FormalList>)

  /** A default-constructed `scopeLog`: every map and both stacks empty. */
  function EmptyLog<Ty, Slot, Fn, Block, Val>(): (l: Log<Ty, Slot, Fn, Block, Val>)
    ensures l.variableTypes == map[] && l.pointerTypes == map[] && l.arrayTypes == map[] && l.funcTypes == map[]
    ensures l.variableAllocas == map[] && l.functions == map[] && l.functionsEnds == map[] && l.procedures == map[]
    ensures l.functionsResults == map[] && l.labelsBody == map[] && l.labelsCont == map[]
    ensures l.procsFormals == map[] && l.funcsFormals == map[]
    ensures l.functionsNoBody == [] && l.procsNoBody == []
  {
    Log(map[], map[], map[], map[], map[], map[], map[], map[], map[], map[], map[], [], [], map[], map[])
  }

  // Selectors for the maps that are searched innermost-first.
  function VariableTypes<Ty, Slot, Fn, Block, Val>(l: Log<Ty, Slot, Fn, Block, Val>): map<string, Ty> { l.variableTypes }
  function PointerTypes<Ty, Slot, Fn, Block, Val>(l: Log<Ty, Slot, Fn, Block, Val>): map<string, Ty> { l.pointerTypes }
  function ArrayTypes<Ty, Slot, Fn, Block, Val>(l: Log<Ty, Slot, Fn, Block, Val>): map<string, Ty> { l.arrayTypes }
  function FuncTypes<Ty, Slot, Fn, Block, Val>(l: Log<Ty, Slot, Fn, Block, Val>): map<string, Ty> { l.funcTypes }
  function VariableAllocas<Ty, Slot, Fn, Block, Val>(l: Log<Ty, Slot, Fn, Block, Val>): map<string, Option<Slot>> { l.variableAllocas }
  function Functions<Ty, Slot, Fn, Block, Val>(l: Log<Ty, Slot, Fn, Block, Val>): map<string, Fn> { l.functions }
  function FunctionsEnds<Ty, Slot, Fn, Block, Val>(l: Log<Ty, Slot, Fn, Block, Val>): map<string, Block> { l.functionsEnds }
  function Procedures<Ty, Slot, Fn, Block, Val>(l: Log<Ty, Slot, Fn, Block, Val>): map<string, Fn> { l.procedures }
  function LabelsBody<Ty, Slot, Fn, Block, Val>(l: Log<Ty, Slot, Fn, Block, Val>): map<string, Block> { l.labelsBody }
  function LabelsCont<Ty, Slot, Fn, Block, Val>(l: Log<Ty, Slot, Fn, Block, Val>): map<string, Block> { l.labelsCont }
  function ProcsFormals<Ty, Slot, Fn, Block, Val>(l: Log<Ty, Slot, Fn, Block, Val>): map<string, FormalList> { l.procsFormals }
  function FuncsFormals<Ty, Slot, Fn, Block, Val>(l: Log<Ty, Slot, Fn, Block, Val>): map<string, FormalList> { l.funcsFormals }

  /** One map of every record, outermost first. */
  function Column<L, V>(logs: seq<L>, sel: L -> map<string, V>): (r: seq<map<string, V>>)
    ensures |r| == |logs| && forall i :: 0 <= i < |logs| ==> r[i] == sel(logs[i])
  {
    if logs == [] then [] else Column(logs[..|logs| - 1], sel) + [sel(logs[|logs| - 1])]
  }

  /** The stack with its innermost record replaced. */
  function WithTop<L>(logs: seq<L>, l: L): (r: seq<L>)
    requires |logs| > 0
    ensures |r| == |logs| && r[|logs| - 1] == l && forall i :: 0 <= i < |logs| - 1 ==> r[i] == logs[i]
  {
    logs[..|logs| - 1] + [l]
  }

  /** A getter that is fatal ("... not in scope") when no record holds the name. */
  function Required<V>(found: Option<V>, id: string): (r: Result<V>)
    ensures r.Ok? <==> found.Some?
    ensures r.Ok? ==> r.value == found.value
    ensures r.Fail? ==> r.error == NotInScope(id)
  {
    match found
    case Some(v) => Ok(v)
    case None => Fail(NotInScope(id))
  }

  /** A name the innermost record holds is found there, whatever the outer records hold. */
  lemma {:induction false} TopWins<L, V>(logs: seq<L>, sel: L -> map<string, V>, id: string)
    requires |logs| > 0 && id in sel(logs[|logs| - 1])
    ensures Innermost(Column(logs, sel), id) == Some(sel(logs[|logs| - 1])[id])
  {
    HomeAt(Column(logs, sel), id, |logs| - 1);
  }

  /** Replacing the innermost record leaves every name it does not hold resolving as before. */
  lemma {:induction false} OuterUnaffected<L, V>(logs: seq<L>, sel: L -> map<string, V>, l: L, id: string)
    requires |logs| > 0 && id !in sel(l) && id !in sel(logs[|logs| - 1])
    ensures Innermost(Column(WithTop(logs, l), sel), id) == Innermost(Column(logs, sel), id)
  {
    var before, after := Column(logs, sel), Column(WithTop(logs, l), sel);
    var outer := before[..|logs| - 1];
    assert before == outer + [sel(logs[|logs| - 1])];
    assert after == outer + [sel(l)];
    HomePush(outer, sel(logs[|logs| - 1]), id);
    HomePush(outer, sel(l), id);
  }

  class LoggedInfo<Ty, Slot, Fn, Block, Val> {
    /** `scopeLogs`, outermost first. */
    var logs: seq<Log<Ty, Slot, Fn, Block, Val>>

    function Top(): Log<Ty, Slot, Fn, Block, Val>
      reads this
      requires |logs| > 0
    {
      logs[|logs| - 1]
    }

    /** `LoggedInfo()`: the constructor opens the first scope. */
    constructor ()
      ensures logs == [EmptyLog()]
    {
      logs := [EmptyLog()];
    }

    /** `openScope()`: push an empty record. */
    method OpenScope()
      modifies this
      ensures logs == old(logs) + [EmptyLog()]
    {
      logs := logs + [EmptyLog()];
    }

    /** `closeScope()`: pop the innermost record and everything it held. */
    method CloseScope()
      requires |logs| > 0
      modifies this
      ensures logs == old(logs[..|logs| - 1])
    {
      logs := logs[..|logs| - 1];
    }

    /** `addVariable(id, type, alloca)`: record type and slot in the innermost record, overwriting. */
    method AddVariable(id: string, ty: Ty, alloca: Option<Slot>)
      requires |logs| > 0
      modifies this
      ensures logs == WithTop(old(logs), old(Top()).(variableTypes := old(Top()).variableTypes[id := ty],
                                                    variableAllocas := old(Top()).variableAllocas[id := alloca]))
    {
      var l := Top();
      logs := WithTop(logs, l.(variableTypes := l.variableTypes[id := ty], variableAllocas := l.variableAllocas[id := alloca]));
    }

    /** `changeAlloca(id, type, alloca)`: the same two writes, used by `new`. */
    method ChangeAlloca(id: string, ty: Ty, alloca: Option<Slot>)
      requires |logs| > 0
      modifies this
      ensures logs == WithTop(old(logs), old(Top()).(variableTypes := old(Top()).variableTypes[id := ty],
                                                    variableAllocas := old(Top()).variableAllocas[id := alloca]))
    {
      var l := Top();
      logs := WithTop(logs, l.(variableAllocas := l.variableAllocas[id := alloca], variableTypes := l.variableTypes[id := ty]));
    }

    /** `disposePointer(id)`: the innermost slot of `id` becomes null; the key stays. */
    method DisposePointer(id: string)
      requires |logs| > 0
      modifies this
      ensures logs == WithTop(old(logs), old(Top()).(variableAllocas := old(Top()).variableAllocas[id := None]))
    {
      var l := Top();
      logs := WithTop(logs, l.(variableAllocas := l.variableAllocas[id := None]));
    }

    /** `arrayType(id, type)`. */
    method ArrayType(id: string, ty: Ty)
      requires |logs| > 0
      modifies this
      ensures logs == WithTop(old(logs), old(Top()).(arrayTypes := old(Top()).arrayTypes[id := ty]))
    {
      var l := Top();
      logs := WithTop(logs, l.(arrayTypes := l.arrayTypes[id := ty]));
    }

    /** `pointerType(id, type)`. */
    method PointerType(id: string, ty: Ty)
      requires |logs| > 0
      modifies this
      ensures logs == WithTop(old(logs), old(Top()).(pointerTypes := old(Top()).pointerTypes[id := ty]))
    {
      var l := Top();
      logs := WithTop(logs, l.(pointerTypes := l.pointerTypes[id := ty]));
    }

    /** `addLabel(id, body, cont)`: both blocks of a label, in the innermost record. */
    method AddLabel(id: string, body: Block, cont: Block)
      requires |logs| > 0
      modifies this
      ensures logs == WithTop(old(logs), old(Top()).(labelsBody := old(Top()).labelsBody[id := body],
                                                    labelsCont := old(Top()).labelsCont[id := cont]))
    {
      var l := Top();
      logs := WithTop(logs, l.(labelsBody := l.labelsBody[id := body], labelsCont := l.labelsCont[id := cont]));
    }

    /** `pushFunc(f)`: a function whose body is still to be generated. */
    method PushFunc(f: string)
      requires |logs| > 0
      modifies this
      ensures logs == WithTop(old(logs), old(Top()).(functionsNoBody := old(Top()).functionsNoBody + [f]))
      ensures !IsFuncStackEmpty() && GetLastFunc() == f
    {
      var l := Top();
      logs := WithTop(logs, l.(functionsNoBody := l.functionsNoBody + [f]));
    }

    /** `isFuncStackEmpty()`: about the innermost record only. */
    function IsFuncStackEmpty(): bool
      reads this
      requires |logs| > 0
    {
      Top().functionsNoBody == []
    }

    /** `getLastFunc()`: the top of the innermost stack (`top()` of an empty stack is undefined). */
    function GetLastFunc(): string
      reads this
      requires |logs| > 0 && !IsFuncStackEmpty()
    {
      Top().functionsNoBody[|Top().functionsNoBody| - 1]
    }

    /** `removeCurrFunc()`: pop the innermost stack (popping an empty stack is undefined). */
    method RemoveCurrFunc()
      requires |logs| > 0 && !IsFuncStackEmpty()
      modifies this
      ensures logs == WithTop(old(logs), old(Top()).(functionsNoBody := old(Top()).functionsNoBody[..|old(Top()).functionsNoBody| - 1]))
    {
      var l := Top();
      logs := WithTop(logs, l.(functionsNoBody := l.functionsNoBody[..|l.functionsNoBody| - 1]));
    }

    /** `pushProc(p)`. */
    method PushProc(p: string)
      requires |logs| > 0
      modifies this
      ensures logs == WithTop(old(logs), old(Top()).(procsNoBody := old(Top()).procsNoBody + [p]))
      ensures !IsProcStackEmpty() && GetLastProc() == p
    {
      var l := Top();
      logs := WithTop(logs, l.(procsNoBody := l.procsNoBody + [p]));
    }

    /** `isProcStackEmpty()`. */
    function IsProcStackEmpty(): bool
      reads this
      requires |logs| > 0
    {
      Top().procsNoBody == []
    }

    /** `getLastProc()`. */
    function GetLastProc(): string
      reads this
      requires |logs| > 0 && !IsProcStackEmpty()
    {
      Top().procsNoBody[|Top().procsNoBody| - 1]
    }

    /** `removeCurrProc()`. */
    method RemoveCurrProc()
      requires |logs| > 0 && !IsProcStackEmpty()
      modifies this
      ensures logs == WithTop(old(logs), old(Top()).(procsNoBody := old(Top()).procsNoBody[..|old(Top()).procsNoBody| - 1]))
    {
      var l := Top();
      logs := WithTop(logs, l.(procsNoBody := l.procsNoBody[..|l.procsNoBody| - 1]));
    }

    /** `addFuncFormals(f, formals)`. */
    method AddFuncFormals(f: string, formals: FormalList)
      requires |logs| > 0
      modifies this
      ensures logs == WithTop(old(logs), old(Top()).(funcsFormals := old(Top()).funcsFormals[f := formals]))
    {
      var l := Top();
      logs := WithTop(logs, l.(funcsFormals := l.funcsFormals[f := formals]));
    }

    /** `addProcFormals(p, formals)`. */
    method AddProcFormals(p: string, formals: FormalList)
      requires |logs| > 0
      modifies this
      ensures logs == WithTop(old(logs), old(Top()).(procsFormals := old(Top()).procsFormals[p := formals]))
    {
      var l := Top();
      logs := WithTop(logs, l.(procsFormals := l.procsFormals[p := formals]));
    }

    /** `addFuncType(f, t)`. */
    method AddFuncType(f: string, ty: Ty)
      requires |logs| > 0
      modifies this
      ensures logs == WithTop(old(logs), old(Top()).(funcTypes := old(Top()).funcTypes[f := ty]))
    {
      var l := Top();
      logs := WithTop(logs, l.(funcTypes := l.funcTypes[f := ty]));
    }

    /** `storeEndOfFunc(f, b)`. */
    method StoreEndOfFunc(f: string, b: Block)
      requires |logs| > 0
      modifies this
      ensures logs == WithTop(old(logs), old(Top()).(functionsEnds := old(Top()).functionsEnds[f := b]))
    {
      var l := Top();
      logs := WithTop(logs, l.(functionsEnds := l.functionsEnds[f := b]));
    }

    /** `storeResult(f, v)`: in the innermost record; a later store for the same name replaces it. */
    method StoreResult(f: string, v: Val)
      requires |logs| > 0
      modifies this
      ensures logs == WithTop(old(logs), old(Top()).(functionsResults := old(Top()).functionsResults[f := v]))
      ensures GetFuncResult(f) == Some(v)
      ensures forall g :: g != f ==> GetFuncResult(g) == old(GetFuncResult(g))
    {
      var l := Top();
      logs := WithTop(logs, l.(functionsResults := l.functionsResults[f := v]));
    }

    /**
     * `getFuncResult(f)`: read through `operator[]` of the innermost record only, so a name
     * stored there gives its last value and any other name gives null.
     */
    function GetFuncResult(f: string): (r: Option<Val>)
      reads this
      requires |logs| > 0
      ensures r.Some? <==> f in Top().functionsResults
    {
      if f in Top().functionsResults then Some(Top().functionsResults[f]) else None
    }

    /** `addFunctionInScope(f, F)`. */
    method AddFunctionInScope(f: string, fn: Fn)
      requires |logs| > 0
      modifies this
      ensures logs == WithTop(old(logs), old(Top()).(functions := old(Top()).functions[f := fn]))
    {
      var l := Top();
      logs := WithTop(logs, l.(functions := l.functions[f := fn]));
    }

    /** `addProcInScope(p, P)`. */
    method AddProcInScope(p: string, fn: Fn)
      requires |logs| > 0
      modifies this
      ensures logs == WithTop(old(logs), old(Top()).(procedures := old(Top()).procedures[p := fn]))
    {
      var l := Top();
      logs := WithTop(logs, l.(procedures := l.procedures[p := fn]));
    }

    /** The reverse walk every innermost-first getter performs over one kind of map. */
    method Find<V>(sel: Log<Ty, Slot, Fn, Block, Val> -> map<string, V>, id: string) returns (r: Option<V>)
      ensures r == Innermost(Column(logs, sel), id)
    {
      ghost var frames := Column(logs, sel);
      var i := |logs|;
      while i > 0
        invariant 0 <= i <= |logs|
        invariant forall j :: i <= j < |logs| ==> id !in frames[j]
      {
        var m := sel(logs[i - 1]);
        if id in m {
          HomeAt(frames, id, i - 1);
          return Some(m[id]);
        }
        i := i - 1;
      }
      HomeIsInnermost(frames, id);
      return None;
    }

    /** `getVarType(id)`: fatal when absent everywhere. */
    method GetVarType(id: string) returns (r: Result<Ty>)
      ensures r == Required(Innermost(Column(logs, VariableTypes), id), id)
    {
      var found := Find(VariableTypes, id);
      r := Required(found, id);
    }

    /** `getArrType(id)`. */
    method GetArrType(id: string) returns (r: Result<Ty>)
      ensures r == Required(Innermost(Column(logs, ArrayTypes), id), id)
    {
      var found := Find(ArrayTypes, id);
      r := Required(found, id);
    }

    /** `getPoinType(id)`. */
    method GetPoinType(id: string) returns (r: Result<Ty>)
      ensures r == Required(Innermost(Column(logs, PointerTypes), id), id)
    {
      var found := Find(PointerTypes, id);
      r := Required(found, id);
    }

    /** `getVarAlloca(id)`: a disposed slot is found (as null) and stops the search. */
    method GetVarAlloca(id: string) returns (r: Result<Option<Slot>>)
      ensures r == Required(Innermost(Column(logs, VariableAllocas), id), id)
    {
      var found := Find(VariableAllocas, id);
      r := Required(found, id);
    }

    /** `getLabelBlock(id)`. */
    method GetLabelBlock(id: string) returns (r: Result<Block>)
      ensures r == Required(Innermost(Column(logs, LabelsBody), id), id)
    {
      var found := Find(LabelsBody, id);
      r := Required(found, id);
    }

    /** `getLabelCont(id)`. */
    method GetLabelCont(id: string) returns (r: Result<Block>)
      ensures r == Required(Innermost(Column(logs, LabelsCont), id), id)
    {
      var found := Find(LabelsCont, id);
      r := Required(found, id);
    }

    /** `getFunctionInScope(id)`. */
    method GetFunctionInScope(id: string) returns (r: Result<Fn>)
      ensures r == Required(Innermost(Column(logs, Functions), id), id)
    {
      var found := Find(Functions, id);
      r := Required(found, id);
    }

    /** `getProcInScope(id)`. */
    method GetProcInScope(id: string) returns (r: Result<Fn>)
      ensures r == Required(Innermost(Column(logs, Procedures), id), id)
    {
      var found := Find(Procedures, id);
      r := Required(found, id);
    }

    /** `getFuncFormals(f)`: fatal when absent everywhere. */
    method GetFuncFormals(f: string) returns (r: Result<FormalList>)
      ensures r == Required(Innermost(Column(logs, FuncsFormals), f), f)
    {
      var found := Find(FuncsFormals, f);
      r := Required(found, f);
    }

    /** `getProcFormals(p)`: fatal when absent everywhere. */
    method GetProcFormals(p: string) returns (r: Result<FormalList>)
      ensures r == Required(Innermost(Column(logs, ProcsFormals), p), p)
    {
      var found := Find(ProcsFormals, p);
      r := Required(found, p);
    }

    /** `getEndOfFunc(f)`: only an error message when absent, and null is returned. */
    method GetEndOfFunc(f: string) returns (r: Option<Block>)
      ensures r == Innermost(Column(logs, FunctionsEnds), f)
    {
      r := Find(FunctionsEnds, f);
    }

    /** `getFuncType(f)`: null when absent. */
    method GetFuncType(f: string) returns (r: Option<Ty>)
      ensures r == Innermost(Column(logs, FuncTypes), f)
    {
      r := Find(FuncTypes, f);
    }

    /**
     * `isPointer(id)`: whether the innermost type recorded for `id` is an LLVM pointer type
     * (decided by `isPointerTy`); an unknown name is not a pointer, rather than an error.
     */
    method IsPointer(id: string, isPointerTy: Ty -> bool) returns (b: bool)
      ensures b <==> Innermost(Column(logs, VariableTypes), id).Some? && isPointerTy(Innermost(Column(logs, VariableTypes), id).value)
    {
      var found := Find(VariableTypes, id);
      return found.Some? && isPointerTy(found.value);
    }

    /** `getCurrentScopeVarTypes()`: a copy of the innermost record's type map. */
    function GetCurrentScopeVarTypes(): (m: map<string, Ty>)
      reads this
      requires |logs| > 0
      ensures m == Column(logs, VariableTypes)[|logs| - 1]
    {
      Top().variableTypes
    }

    /** `getCurrentScopeVarAllocas()`: a copy of the innermost record's slot map. */
    function GetCurrentScopeVarAllocas(): (m: map<string, Option<Slot>>)
      reads this
      requires |logs| > 0
      ensures m == Column(logs, VariableAllocas)[|logs| - 1]
    {
      Top().variableAllocas
    }
  }

  // ---------------------------------------------------------------------------------
  // What the getters see after the writers.
  // ---------------------------------------------------------------------------------

  /**
   * After `addVariable(id, t, a)` (or `changeAlloca`) the innermost type and slot of `id`
   * are the new ones, whatever any record held before; other names resolve as before.
   */
  lemma AddVariableThenGet<Ty, Slot, Fn, Block, Val>(logs: seq<Log<Ty, Slot, Fn, Block, Val>>, id: string, ty: Ty,
                                                   alloca: Option<Slot>, other: string)
    requires |logs| > 0
    ensures var l := logs[|logs| - 1];
      var after := WithTop(logs, l.(variableTypes := l.variableTypes[id := ty], variableAllocas := l.variableAllocas[id := alloca]));
      && Required(Innermost(Column(after, VariableTypes), id), id) == Ok(ty)
      && Required(Innermost(Column(after, VariableAllocas), id), id) == Ok(alloca)
      && (other != id ==>
            && Innermost(Column(after, VariableTypes), other) == Innermost(Column(logs, VariableTypes), other)
            && Innermost(Column(after, VariableAllocas), other) == Innermost(Column(logs, VariableAllocas), other))
  {
    var l := logs[|logs| - 1];
    var l' := l.(variableTypes := l.variableTypes[id := ty], variableAllocas := l.variableAllocas[id := alloca]);
    var after := WithTop(logs, l');
    TopWins(after, VariableTypes, id);
    TopWins(after, VariableAllocas, id);
    if other != id {
      // The innermost record either holds `other` (then it wins before and after,
      // with the same value) or does not (then the outer records decide both times).
      if other in l.variableTypes {
        TopWins(logs, VariableTypes, other);
        TopWins(after, VariableTypes, other);
      } else {
        OuterUnaffected(logs, VariableTypes, l', other);
      }
      if other in l.variableAllocas {
        TopWins(logs, VariableAllocas, other);
        TopWins(after, VariableAllocas, other);
      } else {
        OuterUnaffected(logs, VariableAllocas, l', other);
      }
    }
  }

  /**
   * After `disposePointer(id)` the slot of `id` reads as null even when an outer record
   * binds `id` to a live slot: the key stays in the innermost record and stops the search.
   */
  lemma DisposeThenGet<Ty, Slot, Fn, Block, Val>(logs: seq<Log<Ty, Slot, Fn, Block, Val>>, id: string)
    requires |logs| > 0
    ensures var l := logs[|logs| - 1];
      var after := WithTop(logs, l.(variableAllocas := l.variableAllocas[id := None]));
      Required(Innermost(Column(after, VariableAllocas), id), id) == Ok(None)
  {
    var l := logs[|logs| - 1];
    TopWins(WithTop(logs, l.(variableAllocas := l.variableAllocas[id := None])), VariableAllocas, id);
  }

  /** `addLabel` stores both blocks, and the label getters find them innermost-first. */
  lemma AddLabelThenGet<Ty, Slot, Fn, Block, Val>(logs: seq<Log<Ty, Slot, Fn, Block, Val>>, id: string, body: Block, cont: Block)
    requires |logs| > 0
    ensures var l := logs[|logs| - 1];
      var after := WithTop(logs, l.(labelsBody := l.labelsBody[id := body], labelsCont := l.labelsCont[id := cont]));
      && Required(Innermost(Column(after, LabelsBody), id), id) == Ok(body)
      && Required(Innermost(Column(after, LabelsCont), id), id) == Ok(cont)
  {
    var l := logs[|logs| - 1];
    var after := WithTop(logs, l.(labelsBody := l.labelsBody[id := body], labelsCont := l.labelsCont[id := cont]));
    TopWins(after, LabelsBody, id);
    TopWins(after, LabelsCont, id);
  }

  /** A name absent from every record makes each fatal getter fail with "not in scope". */
  lemma AbsentIsFatal<L, V>(logs: seq<L>, sel: L -> map<string, V>, id: string)
    requires forall i :: 0 <= i < |logs| ==> id !in sel(logs[i])
    ensures Required(Innermost(Column(logs, sel), id), id) == Fail(NotInScope(id))
  {
    HomeIsInnermost(Column(logs, sel), id);
  }

  /** Popping a record makes the enclosing records' bindings visible again. */
  lemma CloseScopeRestores<L, V>(logs: seq<L>, sel: L -> map<string, V>, l: L, id: string)
    ensures Innermost(Column((logs + [l])[..|logs|], sel), id) == Innermost(Column(logs, sel), id)
    ensures id in sel(l) ==> Innermost(Column(logs + [l], sel), id) == Some(sel(l)[id])
  {
    assert (logs + [l])[..|logs|] == logs;
    assert Column(logs + [l], sel) == Column(logs, sel) + [sel(l)];
    HomePush(Column(logs, sel), sel(l), id);
  }
}
