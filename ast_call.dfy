/**
 * The argument checks of `Call::sem` (a procedure call statement) and `ExprCall::sem` (a
 * call inside an expression), include/ast.hpp. Both look the name up (fatal when unknown),
 * then, when its innermost binding is a procedure or a function, fetch the routine's
 * formals with `getFormalsProcedureAll`/`getFormalsFuncAll`, compare argument types and
 * count the arguments. A name bound as something else is accepted without any check.
 *
 * The arguments are given by the type tags their own analyses computed. This is the
 * corrected behaviour. As written, `get_type()` of any argument but a constant answers the
 * base tag that no analysis writes (ExprRead.ArgumentTags). An argument typed `result` is
 * compared as it is. With no arguments the node holds a null expression list, and the type
 * loop dereferences it (`MissingArgument`). A routine without a formal list leaves the search
 * result null, which the check dereferences (`MissingFormals`).
 */
module AstCall {
  import opened PclBase
  import opened Symbol
  import SemLib

  // ---------------------------------------------------------------------------------
  // The check as written: every formal group is compared with the first argument
  // ---------------------------------------------------------------------------------

  /**
   * The type loop of `Call::sem` as written: its index `j` is only incremented after
   * `exit(1)`, so every name of every formal group is compared with argument 0.
   */
  function GroupsAsWritten(name: string, fl: FormalList, args: seq<Types>): Outcome
    decreases |fl|
  {
    if fl == [] then Pass
    else if |fl[0].ids| > 0 && |args| == 0 then Abort(MissingArgument(name))
    else if |fl[0].ids| > 0 && fl[0].ty.Tag() != args[0] then Abort(ArgumentMismatch(name))
    else GroupsAsWritten(name, fl[1..], args)
  }

  /** The whole check as written: the type loop, then the count against the sum of the groups' sizes. */
  function ArgsAsWritten(name: string, fl: FormalList, args: seq<Types>): Outcome {
    var g := GroupsAsWritten(name, fl, args);
    if g.Abort? then g
    else if |args| != Arity(fl) then Abort(ArityMismatch(name, Arity(fl), |args|))
    else Pass
  }

  /** The type loop passes exactly when every non-empty group has the first argument's type. */
  lemma {:induction false} GroupsAsWrittenPass(name: string, fl: FormalList, args: seq<Types>)
    ensures GroupsAsWritten(name, fl, args).Pass? <==>
      forall g :: 0 <= g < |fl| && |fl[g].ids| > 0 ==> |args| > 0 && fl[g].ty.Tag() == args[0]
    decreases |fl|
  {
    if fl != [] {
      GroupsAsWrittenPass(name, fl[1..], args);
      assert forall g :: 1 <= g < |fl| ==> fl[g] == fl[1..][g - 1];
    }
  }

  /**
   * The check as written accepts a call exactly when the argument count is the sum of the
   * groups' sizes and every non-empty formal group has the type of the first argument;
   * the types of the other arguments are never looked at.
   */
  lemma ArgsAsWrittenPass(name: string, fl: FormalList, args: seq<Types>)
    ensures ArgsAsWritten(name, fl, args).Pass? <==>
      |args| == Arity(fl) && forall g :: 0 <= g < |fl| && |fl[g].ids| > 0 ==> |args| > 0 && fl[g].ty.Tag() == args[0]
  {
    GroupsAsWrittenPass(name, fl, args);
  }

  /** The type loop either passes or stops with a missing first argument or a mismatch. */
  lemma {:induction false} GroupsAsWrittenErrors(name: string, fl: FormalList, args: seq<Types>)
    ensures var g := GroupsAsWritten(name, fl, args);
      g.Abort? ==> g.error == (if |args| == 0 then MissingArgument(name) else ArgumentMismatch(name))
    decreases |fl|
  {
    if fl != [] {
      GroupsAsWrittenErrors(name, fl[1..], args);
    }
  }

  /**
   * `Call::sem`'s counting and type loops as written: `expected` sums the groups' sizes
   * while each name of each group is compared with argument `j`, which stays 0; then the
   * count is compared.
   */
  method CheckArgumentsAsWritten(name: string, fl: FormalList, args: seq<Types>) returns (o: Outcome)
    ensures o == ArgsAsWritten(name, fl, args)
  {
    var expected := 0;
    if |fl| > 0 {
      var g := 0;
      while g < |fl|
        invariant 0 <= g <= |fl|
        invariant expected == Arity(fl[..g])
        invariant GroupsAsWritten(name, fl, args) == GroupsAsWritten(name, fl[g..], args)
      {
        var f := fl[g];
        expected := expected + |f.ids|;
        var j := 0;
        var i := 0;
        while i < |f.ids|
          invariant 0 <= i <= |f.ids|
          invariant i > 0 ==> |args| > 0 && f.ty.Tag() == args[0]
        {
          if |args| == 0 {
            return Abort(MissingArgument(name));
          }
          if f.ty.Tag() != args[j] {
            return Abort(ArgumentMismatch(name));
          }
          i := i + 1;
        }
        assert fl[g..][1..] == fl[g + 1..];
        assert fl[..g + 1][..g] == fl[..g];
        g := g + 1;
      }
      assert fl[..g] == fl;
    }
    var given := |args|;
    if given != expected {
      return Abort(ArityMismatch(name, expected, given));
    }
    o := Pass;
  }

  // ---------------------------------------------------------------------------------
  // The check as intended: argument i against the i-th formal name
  // ---------------------------------------------------------------------------------

  /** The type tag of every formal name, in order: each group's tag once per name. */
  function ParamTags(fl: FormalList): (r: seq<Types>)
    ensures |r| == Arity(fl)
  {
    if fl == [] then []
    else ParamTags(fl[..|fl| - 1]) + Repeat(fl[|fl| - 1].ty.Tag(), |fl[|fl| - 1].ids|)
  }

  /** The check as intended: the right number of arguments, each with its formal's type. */
  function ArgsCheck(name: string, fl: FormalList, args: seq<Types>): Outcome {
    if |args| != Arity(fl) then Abort(ArityMismatch(name, Arity(fl), |args|))
    else if args != ParamTags(fl) then Abort(ArgumentMismatch(name))
    else Pass
  }

  /** Flattening distributes over a list split into a prefix and one more group. */
  lemma ParamTagsSnoc(fl: FormalList, g: nat)
    requires g < |fl|
    ensures ParamTags(fl[..g + 1]) == ParamTags(fl[..g]) + Repeat(fl[g].ty.Tag(), |fl[g].ids|)
    ensures Arity(fl[..g + 1]) == Arity(fl[..g]) + |fl[g].ids|
  {
    assert fl[..g + 1][..g] == fl[..g];
  }

  /** A prefix of the groups has no more names than the whole list. */
  lemma {:induction false} ArityPrefix(fl: FormalList, g: nat)
    requires g <= |fl|
    ensures Arity(fl[..g]) <= Arity(fl)
    decreases |fl| - g
  {
    if g < |fl| {
      ParamTagsSnoc(fl, g);
      ArityPrefix(fl, g + 1);
    } else {
      assert fl[..g] == fl;
    }
  }

  /** The position of the `k`-th name of group `g` in the flattened parameter list. */
  function Slot(fl: FormalList, g: nat, k: nat): (p: nat)
    requires g < |fl| && k < |fl[g].ids|
    ensures p < Arity(fl)
  {
    ParamTagsSnoc(fl, g);
    ArityPrefix(fl, g + 1);
    Arity(fl[..g]) + k
  }

  /** In the flattened list, the `k`-th name of group `g` has that group's tag. */
  lemma {:induction false} ParamTagsAt(fl: FormalList, g: nat, k: nat)
    requires g < |fl| && k < |fl[g].ids|
    ensures ParamTags(fl)[Slot(fl, g, k)] == fl[g].ty.Tag()
    decreases |fl|
  {
    ParamTagsSnoc(fl, g);
    var last := |fl| - 1;
    var p := Slot(fl, g, k);
    if g < last {
      var init := fl[..last];
      ParamTagsAt(init, g, k);
      assert init[..g] == fl[..g] && init[g] == fl[g];
      assert p == Slot(init, g, k);
      ParamTagsSnoc(fl, last);
      assert fl[..last + 1] == fl;
      assert ParamTags(fl) == ParamTags(init) + Repeat(fl[last].ty.Tag(), |fl[last].ids|);
      assert ParamTags(fl)[p] == ParamTags(init)[p];
    } else {
      assert fl[..g + 1] == fl;
      assert ParamTags(fl) == ParamTags(fl[..g]) + Repeat(fl[g].ty.Tag(), |fl[g].ids|);
      assert ParamTags(fl)[p] == Repeat(fl[g].ty.Tag(), |fl[g].ids|)[k];
    }
  }

  /** Every position of the flattened list is the slot of one name of one group. */
  lemma {:induction false} ParamTagsCovered(fl: FormalList, p: nat) returns (g: nat, k: nat)
    requires p < Arity(fl)
    ensures g < |fl| && k < |fl[g].ids| && p == Slot(fl, g, k)
    decreases |fl|
  {
    var last := |fl| - 1;
    ParamTagsSnoc(fl, last);
    assert fl[..last + 1] == fl;
    if p < Arity(fl[..last]) {
      g, k := ParamTagsCovered(fl[..last], p);
      assert fl[..last][..g] == fl[..g] && fl[..last][g] == fl[g];
    } else {
      g, k := last, p - Arity(fl[..last]);
    }
  }

  /**
   * The intended check accepts a call exactly when there is one argument per formal name
   * and the `k`-th name of group `g` gets an argument of that group's type.
   */
  lemma ArgsCheckPositions(name: string, fl: FormalList, args: seq<Types>)
    ensures ArgsCheck(name, fl, args).Pass? <==>
      (|args| == Arity(fl) &&
       forall g, k :: 0 <= g < |fl| && 0 <= k < |fl[g].ids| ==> args[Slot(fl, g, k)] == fl[g].ty.Tag())
  {
    if |args| == Arity(fl) {
      if args == ParamTags(fl) {
        forall g, k | 0 <= g < |fl| && 0 <= k < |fl[g].ids| ensures args[Slot(fl, g, k)] == fl[g].ty.Tag() {
          ParamTagsAt(fl, g, k);
        }
      } else {
        var p :| 0 <= p < |args| && args[p] != ParamTags(fl)[p];
        var g, k := ParamTagsCovered(fl, p);
        ParamTagsAt(fl, g, k);
      }
    }
  }

  /** Compare the arguments from position `j` on with the names of one formal group. */
  method CheckGroup(f: Formal, args: seq<Types>, j: nat) returns (ok: bool, bad: nat)
    requires j + |f.ids| <= |args|
    ensures ok <==> args[j..j + |f.ids|] == Repeat(f.ty.Tag(), |f.ids|)
    ensures !ok ==> bad < |f.ids| && args[j + bad] != f.ty.Tag()
  {
    var i := 0;
    while i < |f.ids|
      invariant 0 <= i <= |f.ids|
      invariant args[j..j + i] == Repeat(f.ty.Tag(), i)
    {
      if args[j + i] != f.ty.Tag() {
        assert args[j..j + |f.ids|][i] == args[j + i];
        return false, i;
      }
      assert args[j..j + i + 1] == args[j..j + i] + [args[j + i]];
      i := i + 1;
    }
    return true, 0;
  }

  /** The intended counting loop: the number of formal names over all groups. */
  method CountNames(fl: FormalList) returns (expected: nat)
    ensures expected == Arity(fl)
  {
    expected := 0;
    var g := 0;
    while g < |fl|
      invariant 0 <= g <= |fl| && expected == Arity(fl[..g])
    {
      ParamTagsSnoc(fl, g);
      expected := expected + |fl[g].ids|;
      g := g + 1;
    }
    assert fl[..g] == fl;
  }

  /** The intended type loop: argument `j` against each name's group type, `j` advancing once per name. */
  method CompareTypes(fl: FormalList, args: seq<Types>) returns (ok: bool)
    requires |args| == Arity(fl)
    ensures ok <==> args == ParamTags(fl)
  {
    var j := 0;
    var g := 0;
    while g < |fl|
      invariant 0 <= g <= |fl| && j == Arity(fl[..g]) <= |args|
      invariant args[..j] == ParamTags(fl[..g])
    {
      ParamTagsSnoc(fl, g);
      ArityPrefix(fl, g + 1);
      var fine, i := CheckGroup(fl[g], args, j);
      if !fine {
        ParamTagsAt(fl, g, i);
        assert args[j + i] != ParamTags(fl)[j + i];
        return false;
      }
      assert args[..j + |fl[g].ids|] == args[..j] + args[j..j + |fl[g].ids|];
      j := j + |fl[g].ids|;
      g := g + 1;
    }
    assert fl[..g] == fl && args[..j] == args;
    ok := true;
  }

  /**
   * The intended loops: count the formal names, compare the count, then compare argument
   * `j` with each name's group type, advancing `j` once per name.
   */
  method CheckArguments(name: string, fl: FormalList, args: seq<Types>) returns (o: Outcome)
    ensures o == ArgsCheck(name, fl, args)
  {
    var expected := CountNames(fl);
    if |args| != expected {
      return Abort(ArityMismatch(name, expected, |args|));
    }
    var ok := CompareTypes(fl, args);
    o := if ok then Pass else Abort(ArgumentMismatch(name));
  }

  // ---------------------------------------------------------------------------------
  // The two checks side by side
  // ---------------------------------------------------------------------------------

  /** When all formal names share one type, the check as written and the intended one agree on success. */
  lemma UniformAgrees(name: string, fl: FormalList, args: seq<Types>, t: Types)
    requires forall g :: 0 <= g < |fl| ==> fl[g].ty.Tag() == t
    requires forall p :: 0 <= p < |args| ==> args[p] == t
    ensures ArgsAsWritten(name, fl, args).Pass? <==> ArgsCheck(name, fl, args).Pass?
  {
    ArgsAsWrittenPass(name, fl, args);
    if |args| == Arity(fl) {
      forall g | 0 <= g < |fl| && |fl[g].ids| > 0 ensures |args| > 0 {
        var _ := Slot(fl, g, 0);
      }
      forall p | 0 <= p < |args| ensures args[p] == ParamTags(fl)[p] {
        var g, k := ParamTagsCovered(fl, p);
        ParamTagsAt(fl, g, k);
      }
    }
  }

  /** The library's `readString` formals: an integer, then a character array. */
  function ReadStringFormals(): FormalList {
    SemLib.InputRoutines[4].formals
  }

  /**
   * `readString(n, s)` with an integer and a character array: the check as written
   * compares the array formal with the integer argument and stops, so no call of
   * `readString` can pass; the intended check accepts it.
   */
  lemma ReadStringRejected()
    ensures ArgsAsWritten("readString", ReadStringFormals(), [TypeInt, TypeArray]) == Abort(ArgumentMismatch("readString"))
    ensures ArgsCheck("readString", ReadStringFormals(), [TypeInt, TypeArray]) == Pass
    ensures forall args :: ArgsAsWritten("readString", ReadStringFormals(), args).Abort?
  {
    var fl := ReadStringFormals();
    assert fl == [SemLib.Param(IntDesc), SemLib.Param(ArrayDesc(TypeChar, -1))];
    forall args ensures ArgsAsWritten("readString", fl, args).Abort? {
      ArgsAsWrittenPass("readString", fl, args);
      assert fl[0].ty.Tag() == TypeInt && fl[1].ty.Tag() == TypeArray;
    }
  }

  /** Two one-name groups of the same type filled with different types: the check as written accepts. */
  lemma MixedArgumentsAccepted()
    ensures var fl := [Formal(["a", "b"], IntDesc, ByValue)];
      ArgsAsWritten("p", fl, [TypeInt, TypeBool]) == Pass && ArgsCheck("p", fl, [TypeInt, TypeBool]) == Abort(ArgumentMismatch("p"))
  {
    var fl := [Formal(["a", "b"], IntDesc, ByValue)];
    assert ParamTags(fl) == [TypeInt, TypeInt] by {
      assert fl[..0] == [];
    }
  }

  // ---------------------------------------------------------------------------------
  // The whole call
  // ---------------------------------------------------------------------------------

  /** A routine call checked against the search result for its formals: none found is fatal. */
  function FormalsOutcome(name: string, fl: Option<FormalList>, args: seq<Types>): Outcome {
    match fl
    case None => Abort(MissingFormals(name))
    case Some(f) => ArgsCheck(name, f, args)
  }

  /**
   * What a call is checked against: an unknown name is fatal; a procedure (function) is
   * checked against the formals the search for procedure (function) formals finds; any
   * other binding is accepted as it is.
   */
  ghost function CallSpec(st: SymbolTable, name: string, args: seq<Types>): Outcome
    reads st, st.scopes
  {
    match Home(st.Frames(), name)
    case None => Abort(UnknownVariable(name))
    case Some(h) =>
      var k := st.scopes[h].binds[name].kind;
      if k.Proc? then FormalsOutcome(name, Innermost(FormalFrames(st.Frames(), true), name), args)
      else if k.Func? then FormalsOutcome(name, Innermost(FormalFrames(st.Frames(), false), name), args)
      else Pass
  }

  /** The null check on the fetched formal list, then the argument check. */
  method CheckFormals(name: string, fl: Option<FormalList>, args: seq<Types>) returns (o: Outcome)
    ensures o == FormalsOutcome(name, fl, args)
  {
    if fl.None? {
      return Abort(MissingFormals(name));
    }
    o := CheckArguments(name, fl.value, args);
  }

  /** For a name bound as a procedure (function), the call is checked against the procedure (function) formals found. */
  lemma RoutineSpec(st: SymbolTable, name: string, args: seq<Types>, ofProc: bool)
    requires Home(st.Frames(), name).Some?
    requires var k := st.scopes[Home(st.Frames(), name).value].binds[name].kind; if ofProc then k.Proc? else k.Func?
    ensures CallSpec(st, name, args) == FormalsOutcome(name, Innermost(FormalFrames(st.Frames(), ofProc), name), args)
  {
  }

  /** The procedure branch: `getFormalsProcedureAll`, then the checks. */
  method ProcedureCall(st: SymbolTable, name: string, args: seq<Types>) returns (o: Outcome)
    requires Home(st.Frames(), name).Some? && st.scopes[Home(st.Frames(), name).value].binds[name].kind.Proc?
    ensures o == old(CallSpec(st, name, args))
  {
    RoutineSpec(st, name, args, true);
    var fl := st.FormalsAll(name, true);
    o := CheckFormals(name, fl, args);
  }

  /** The function branch: `getFormalsFuncAll`, then the checks. */
  method FunctionCall(st: SymbolTable, name: string, args: seq<Types>) returns (o: Outcome)
    requires Home(st.Frames(), name).Some? && st.scopes[Home(st.Frames(), name).value].binds[name].kind.Func?
    ensures o == old(CallSpec(st, name, args))
  {
    RoutineSpec(st, name, args, false);
    var fl := st.FormalsAll(name, false);
    o := CheckFormals(name, fl, args);
  }

  /**
   * `Call::sem` and `ExprCall::sem` (after the arguments' own analysis), with the argument
   * types compared position by position.
   */
  method CallSem(st: SymbolTable, name: string, args: seq<Types>) returns (o: Outcome)
    ensures o == old(CallSpec(st, name, args))
  {
    var r := st.Lookup(name);
    if r.Fail? {
      return Abort(r.error);
    }
    var isProc := st.FoundProc(name);
    if isProc {
      o := ProcedureCall(st, name, args);
      return;
    }
    var isFunc := st.FoundFunc(name);
    if isFunc {
      o := FunctionCall(st, name, args);
      return;
    }
    o := Pass;
  }

  /**
   * A call of a routine whose innermost binding carries its formal list is checked
   * against exactly that list, whatever outer scopes hold under the same name.
   */
  lemma CallUsesOwnFormals(st: SymbolTable, name: string, args: seq<Types>, h: nat, fl: FormalList)
    requires Home(st.Frames(), name) == Some(h)
    requires st.scopes[h].binds[name].kind in {Proc(Some(fl)), Func(Some(fl))}
    ensures CallSpec(st, name, args) == ArgsCheck(name, fl, args)
  {
    st.RoutineFormalsFound(name, st.scopes[h].binds[name].kind.Proc?);
  }

  /** A call of a name bound as a variable or a label is accepted without any check. */
  lemma CallOfNonRoutine(st: SymbolTable, name: string, args: seq<Types>, h: nat)
    requires Home(st.Frames(), name) == Some(h)
    requires st.scopes[h].binds[name].kind in {Plain, Label}
    ensures CallSpec(st, name, args) == Pass
  {
  }
}
