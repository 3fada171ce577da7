/**
 * The semantic analyzer's symbol table (include/symbol.hpp). A `Scope` maps each bound
 * name to its entry and its kind (plain, label, procedure or function with its formal
 * list), and keeps forward declarations, pointers created by `new`, labels that have a
 * statement, a running frame offset, a size and a queue of routine names. A
 * `SymbolTable` is a stack of scopes: insertion goes to the innermost one, lookups walk
 * from innermost to outermost.
 *
 * Every `exit(1)` becomes an `Outcome`/`Result` error; the state a method leaves
 * behind after an error is described only where the source leaves it meaningful.
 */
module Symbol {
  import opened PclBase

  /** A binding's semantic type and its frame offset. */
  datatype SymbolEntry = SymbolEntry(ty: Types, offset: int)

  /**
   * What the parallel maps `procs`, `procformals`, `funcs`, `funcformals` and `labels`
   * say about a bound name. Every insertion writes all five together, so they always
   * describe one of these four kinds. A routine's formal list is `None` when the routine
   * was declared without a parameter list (a null `Formal_list*`).
   */
  datatype Kind =
    | Plain
    | Label
    | Proc(formals: Option<FormalList>)
    | Func(formals: Option<FormalList>)

  datatype Binding = Binding(entry: SymbolEntry, kind: Kind)

  /** `locals` together with the kind maps, keyed by name. */
  type Bindings = map<string, Binding>

  /** A read through `std::map<string, bool>::operator[]`: a missing key reads as false. */
  function FlagAt(m: map<string, bool>, c: string): bool {
    c in m && m[c]
  }

  /** The non-null procedure (or function) formal lists of one scope. */
  function RoutineFormals(b: Bindings, ofProc: bool): (r: map<string, FormalList>)
    ensures forall c :: c in r <==> c in b && (if ofProc then b[c].kind.Proc? else b[c].kind.Func?) && b[c].kind.formals.Some?
    ensures forall c :: c in r ==> r[c] == b[c].kind.formals.value
  {
    map c | c in b && (if ofProc then b[c].kind.Proc? else b[c].kind.Func?) && b[c].kind.formals.Some? :: b[c].kind.formals.value
  }

  class Scope {
    /** `locals` with the kind of each name (`procs`, `procformals`, `funcs`, `funcformals`, `labels`). */
    var binds: Bindings
    /** `Center_Forwards`: names declared `forward` and not yet completed. */
    var forwards: map<string, bool>
    /** Routine names, in the order they were declared or completed. */
    var queue: seq<string>
    /** Rendered l-values that a `new` statement has allocated. */
    var news: map<string, bool>
    /** The keys of `labelStmt`: labels that have been attached to a statement. */
    var labelStmts: set<string>
    var offset: int
    var size: int
    /** The offset the scope was created with. */
    ghost var base: int

    /**
     * The size counts the bindings, the offset has advanced once per binding, every
     * binding's offset lies in `[base, offset)`, and only bound names are forward-declared.
     */
    ghost predicate Valid()
      reads this
    {
      && size == |binds|
      && offset == base + size
      && forwards.Keys <= binds.Keys
      && (forall c :: c in binds ==> base <= binds[c].entry.offset < offset)
    }

    /** No names, no forward declarations, no routines, no allocations, no label statements. */
    ghost predicate Empty()
      reads this
    {
      binds == map[] && forwards == map[] && queue == [] && news == map[] && labelStmts == {}
    }

    /** `Scope()`: offsets start at -1. */
    constructor ()
      ensures Valid() && Empty() && offset == -1 && size == 0
    {
      binds := map[];
      forwards, queue, news, labelStmts := map[], [], map[], {};
      offset, size := -1, 0;
      base := -1;
    }

    /** `Scope(ofs)`: offsets start at `ofs`. */
    constructor At(ofs: int)
      ensures Valid() && Empty() && offset == ofs && size == 0
    {
      binds := map[];
      forwards, queue, news, labelStmts := map[], [], map[], {};
      offset, size := ofs, 0;
      base := ofs;
    }

    /**
     * The change every successful insertion makes: `c` is bound at the old offset with
     * kind `k`, the offset and the size grow by one, allocations and label statements
     * stay as they were.
     */
    twostate predicate Entered(c: string, t: Types, k: Kind)
      reads this
    {
      && binds == old(binds)[c := Binding(SymbolEntry(t, old(offset)), k)]
      && offset == old(offset) + 1 && size == old(size) + 1 && base == old(base)
      && news == old(news) && labelStmts == old(labelStmts)
    }

    /**
     * The shared body of every insertion: a name already bound in this scope is fatal;
     * otherwise `c` is bound at the current offset with kind `k`.
     */
    method Enter(c: string, t: Types, k: Kind) returns (o: Outcome)
      requires Valid()
      modifies this
      ensures Valid()
      ensures o.Abort? <==> c in old(binds)
      ensures o.Abort? ==> o.error == DuplicateVariable(c) && unchanged(this)
      ensures o.Pass? ==> Entered(c, t, k)
      ensures forwards == old(forwards) && queue == old(queue)
    {
      if c in binds {
        return Abort(DuplicateVariable(c));
      }
      binds := binds[c := Binding(SymbolEntry(t, offset), k)];
      offset := offset + 1;
      size := size + 1;
      o := Pass;
    }

    /** `insert(c, t)`: a plain name. */
    method Insert(c: string, t: Types) returns (o: Outcome)
      requires Valid()
      modifies this
      ensures Valid()
      ensures o.Abort? <==> c in old(binds)
      ensures o.Abort? ==> o.error == DuplicateVariable(c) && unchanged(this)
      ensures o.Pass? ==> Entered(c, t, Plain)
      ensures forwards == old(forwards) && queue == old(queue)
    {
      o := Enter(c, t, Plain);
    }

    /** `insertForwardDecl(c, t)`: `insert`, then mark `c` as forward-declared. */
    method InsertForwardDecl(c: string, t: Types) returns (o: Outcome)
      requires Valid()
      modifies this
      ensures Valid()
      ensures o.Abort? <==> c in old(binds)
      ensures o.Abort? ==> o.error == DuplicateVariable(c) && unchanged(this)
      ensures o.Pass? ==> Entered(c, t, Plain)
      ensures o.Pass? ==> forwards == old(forwards)[c := true] && queue == old(queue)
    {
      o := Enter(c, t, Plain);
      if o.Pass? {
        forwards := forwards[c := true];
      }
    }

    /** `insertLabel(c, t)`: like `insert`, but `c` is a label. */
    method InsertLabel(c: string, t: Types) returns (o: Outcome)
      requires Valid()
      modifies this
      ensures Valid()
      ensures o.Abort? <==> c in old(binds)
      ensures o.Abort? ==> o.error == DuplicateVariable(c) && unchanged(this)
      ensures o.Pass? ==> Entered(c, t, Label)
      ensures forwards == old(forwards) && queue == old(queue)
    {
      o := Enter(c, t, Label);
    }

    /**
     * `insertProcedure(c, t, f, forward)`: `c` is a procedure with formals `f` (possibly
     * null); its forward flag is recorded (a key is stored even when the flag is false)
     * and `c` joins the routine queue, so it becomes the scope's parent routine.
     */
    method InsertProcedure(c: string, t: Types, f: Option<FormalList>, forward: bool) returns (o: Outcome)
      requires Valid()
      modifies this
      ensures Valid()
      ensures o.Abort? <==> c in old(binds)
      ensures o.Abort? ==> o.error == DuplicateVariable(c) && unchanged(this)
      ensures o.Pass? ==> Entered(c, t, Proc(f))
      ensures o.Pass? ==> forwards == old(forwards)[c := forward] && queue == old(queue) + [c]
      ensures o.Pass? ==> FoundForward(c) && GetParentFunction() == Ok(c)
    {
      o := Enter(c, t, Proc(f));
      if o.Pass? {
        forwards := forwards[c := forward];
        queue := queue + [c];
      }
    }

    /** `insertFunction(c, t, f, forward)`: as `insertProcedure`, for a function. */
    method InsertFunction(c: string, t: Types, f: Option<FormalList>, forward: bool) returns (o: Outcome)
      requires Valid()
      modifies this
      ensures Valid()
      ensures o.Abort? <==> c in old(binds)
      ensures o.Abort? ==> o.error == DuplicateVariable(c) && unchanged(this)
      ensures o.Pass? ==> Entered(c, t, Func(f))
      ensures o.Pass? ==> forwards == old(forwards)[c := forward] && queue == old(queue) + [c]
      ensures o.Pass? ==> FoundForward(c) && GetParentFunction() == Ok(c)
    {
      o := Enter(c, t, Func(f));
      if o.Pass? {
        forwards := forwards[c := forward];
        queue := queue + [c];
      }
    }

    /** `insertParent(c)`: append `c` to the routine queue. */
    method InsertParent(c: string)
      modifies this`queue
      ensures queue == old(queue) + [c]
      ensures old(Valid()) ==> Valid()
    {
      queue := queue + [c];
    }

    /** `getParentFunction()`: the most recent routine name; an empty queue is fatal. */
    function GetParentFunction(): Result<string>
      reads this
    {
      if |queue| > 0 then Ok(queue[|queue| - 1]) else Fail(NoParentFunction)
    }

    /** `lookup(c)`: the entry of `c`, or null. */
    function Lookup(c: string): Option<SymbolEntry>
      reads this
    {
      if c in binds then Some(binds[c].entry) else None
    }

    /** `found(c)`. */
    predicate Found(c: string)
      reads this
    {
      c in binds
    }

    /** `foundForward(c)`: whether a forward key exists, whatever flag it holds. */
    predicate FoundForward(c: string)
      reads this
    {
      c in forwards
    }

    /** `foundProc(c)`: `procs[c]`, false for a name never inserted. */
    predicate FoundProc(c: string)
      reads this
    {
      c in binds && binds[c].kind.Proc?
    }

    predicate FoundFunc(c: string)
      reads this
    {
      c in binds && binds[c].kind.Func?
    }

    predicate IsLabel(c: string)
      reads this
    {
      c in binds && binds[c].kind.Label?
    }

    predicate IsNew(c: string)
      reads this
    {
      FlagAt(news, c)
    }

    predicate LabelHasStmt(c: string)
      reads this
    {
      c in labelStmts
    }

    /** `getFormalsProcedure(c)`: `procformals[c]`, null unless `c` is a procedure with a formal list. */
    function GetFormalsProcedure(c: string): Option<FormalList>
      reads this
    {
      if FoundProc(c) then binds[c].kind.formals else None
    }

    function GetFormalsFunc(c: string): Option<FormalList>
      reads this
    {
      if FoundFunc(c) then binds[c].kind.formals else None
    }

    /** `makeNew(c)`: record that the l-value rendered as `c` was allocated. */
    method MakeNew(c: string)
      modifies this`news
      ensures news == old(news)[c := true]
    {
      news := news[c := true];
    }

    /** `clearForDecl(c)`: drop the forward key (erasing a missing key is undefined). */
    method ClearForDecl(c: string)
      requires Valid() && c in forwards
      modifies this`forwards
      ensures Valid() && forwards == old(forwards) - {c}
    {
      forwards := forwards - {c};
    }

    /** `insertLabelStmt(c, s)`: attach label `c` to a statement (the statement itself is not kept). */
    method InsertLabelStmt(c: string)
      modifies this`labelStmts
      ensures labelStmts == old(labelStmts) + {c}
    {
      labelStmts := labelStmts + {c};
    }
  }

  /** The bindings of each scope, outermost first. */
  ghost function BindsOf(ss: seq<Scope>): (r: seq<Bindings>)
    reads ss
    ensures |r| == |ss| && forall i :: 0 <= i < |ss| ==> r[i] == ss[i].binds
  {
    if ss == [] then [] else BindsOf(ss[..|ss| - 1]) + [ss[|ss| - 1].binds]
  }

  /** The non-null procedure (or function) formal lists of each scope, outermost first. */
  ghost function FormalFrames(frames: seq<Bindings>, ofProc: bool): (r: seq<map<string, FormalList>>)
    ensures |r| == |frames|
    ensures forall i :: 0 <= i < |frames| ==> r[i] == RoutineFormals(frames[i], ofProc)
  {
    if frames == [] then [] else FormalFrames(frames[..|frames| - 1], ofProc) + [RoutineFormals(frames[|frames| - 1], ofProc)]
  }

  lemma FormalFramesPrefix(frames: seq<Bindings>, ofProc: bool, h: nat)
    requires h <= |frames|
    ensures FormalFrames(frames, ofProc)[..h] == FormalFrames(frames[..h], ofProc)
  {
  }

  /**
   * Every scope of the stack is well formed and distinct from the others; the outermost
   * scope starts at offset 0 and every other scope starts where the enclosing one stood
   * when it was opened.
   */
  ghost predicate StackValid(ss: seq<Scope>)
    reads ss
  {
    && (forall i, j :: 0 <= i < j < |ss| ==> ss[i] != ss[j])
    && (forall i :: 0 <= i < |ss| ==> ss[i].Valid())
    && (|ss| > 0 ==> ss[0].base == 0)
    && (forall i, j :: 0 <= i && j == i + 1 && j < |ss| ==> ss[j].base == ss[i].offset)
  }

  /** A well-formed scope that starts where the stack stands can be pushed on it. */
  lemma StackPush(ss: seq<Scope>, s: Scope)
    requires StackValid(ss) && s.Valid() && s !in ss
    requires s.base == if ss == [] then 0 else ss[|ss| - 1].offset
    ensures StackValid(ss + [s])
  {
    var ext := ss + [s];
    assert forall i :: 0 <= i < |ss| ==> ext[i] == ss[i];
  }

  class SymbolTable {
    /** Outermost first; the last scope is the innermost one. */
    var scopes: seq<Scope>

    /** The stack of scopes is well formed. */
    ghost predicate Valid()
      reads this, scopes
    {
      StackValid(scopes)
    }

    /** The stack of bindings, outermost first. */
    ghost function Frames(): (r: seq<Bindings>)
      reads this, scopes
      ensures |r| == |scopes|
      ensures forall i :: 0 <= i < |scopes| ==> r[i] == scopes[i].binds
    {
      BindsOf(scopes)
    }

    function Top(): Scope
      reads this
      requires |scopes| > 0
    {
      scopes[|scopes| - 1]
    }

    constructor ()
      ensures Valid() && scopes == []
    {
      scopes := [];
    }

    /** `openScope()`: the new scope continues at the enclosing scope's offset, or at 0. */
    method OpenScope()
      requires Valid()
      modifies this
      ensures Valid()
      ensures |scopes| == |old(scopes)| + 1 && scopes[..|old(scopes)|] == old(scopes)
      ensures fresh(Top()) && Top().Empty() && Top().size == 0
      ensures Top().offset == if old(scopes) == [] then 0 else old(Top().offset)
      ensures Frames() == old(Frames()) + [map[]]
    {
      ghost var outer, f0 := scopes, Frames();
      var ofs := if scopes == [] then 0 else scopes[|scopes| - 1].offset;
      var s := new Scope.At(ofs);
      scopes := scopes + [s];
      StackPush(outer, s);
      assert forall i :: 0 <= i < |outer| ==> scopes[i].binds == f0[i];
      assert Frames() == f0 + [map[]];
    }

    /** `closeScope()`: the innermost scope and its bindings are gone. */
    method CloseScope()
      requires Valid() && |scopes| > 0
      modifies this
      ensures Valid() && scopes == old(scopes[..|scopes| - 1])
      ensures Frames() == old(Frames()[..|scopes| - 1])
    {
      scopes := scopes[..|scopes| - 1];
      assert Frames() == old(Frames()[..|scopes| - 1]);
    }

    /** The innermost scope holding `c`, by a reverse walk over the stack. */
    method FindHome(c: string) returns (k: Option<nat>)
      ensures scopes == old(scopes) && Frames() == old(Frames()) && Valid() == old(Valid())
      ensures k == Home(Frames(), c)
    {
      ghost var frames := Frames();
      var i := |scopes|;
      while i > 0
        invariant 0 <= i <= |scopes|
        invariant forall j :: i <= j < |scopes| ==> c !in frames[j]
      {
        if scopes[i - 1].Found(c) {
          HomeAt(frames, c, i - 1);
          return Some(i - 1);
        }
        i := i - 1;
      }
      HomeIsInnermost(frames, c);
      return None;
    }

    /** What `lookup(c)` answers: the innermost binding of `c`, or the fatal "Unknown variable". */
    ghost function Resolved(c: string): Result<SymbolEntry>
      reads this, scopes
    {
      match Innermost(Frames(), c)
      case Some(b) => Ok(b.entry)
      case None => Fail(UnknownVariable(c))
    }

    /** `lookup(c)`: the innermost binding of `c`; a name no scope holds is fatal. */
    method Lookup(c: string) returns (r: Result<SymbolEntry>)
      ensures scopes == old(scopes) && Frames() == old(Frames()) && Valid() == old(Valid())
      ensures r.Ok? <==> exists i :: 0 <= i < |scopes| && c in scopes[i].binds
      ensures r == Resolved(c)
    {
      var k := FindHome(c);
      HomeIsInnermost(Frames(), c);
      if k.None? {
        return Fail(UnknownVariable(c));
      }
      return Ok(scopes[k.value].binds[c].entry);
    }

    /** `foundProc(c)`: whether the innermost scope holding `c` holds it as a procedure; false if none does. */
    method FoundProc(c: string) returns (r: bool)
      ensures scopes == old(scopes) && Frames() == old(Frames()) && Valid() == old(Valid())
      ensures r <==> Home(Frames(), c).Some? && scopes[Home(Frames(), c).value].FoundProc(c)
    {
      var k := FindHome(c);
      if k.None? {
        return false;
      }
      return scopes[k.value].FoundProc(c);
    }

    /** `foundFunc(c)`: as `foundProc`, for functions. */
    method FoundFunc(c: string) returns (r: bool)
      ensures scopes == old(scopes) && Frames() == old(Frames()) && Valid() == old(Valid())
      ensures r <==> Home(Frames(), c).Some? && scopes[Home(Frames(), c).value].FoundFunc(c)
    {
      var k := FindHome(c);
      if k.None? {
        return false;
      }
      return scopes[k.value].FoundFunc(c);
    }

    /** Append `c` to the queue of `home`, the scope at index `k`; nothing else changes. */
    method PushQueue(home: Scope, k: nat, c: string)
      requires Valid() && k < |scopes| && scopes[k] == home
      modifies home`queue
      ensures Valid() && scopes == old(scopes)
      ensures home.queue == old(home.queue) + [c]
      ensures forall i :: 0 <= i < |scopes| && i != k ==> scopes[i].queue == old(scopes[i].queue)
    {
      home.InsertParent(c);
      OneScopeChanged(k);
    }

    /** `insertParent(c)`: push `c` on the queue of the innermost scope holding it; fatal if none does. */
    method InsertParent(c: string) returns (o: Outcome)
      requires Valid()
      modifies scopes`queue
      ensures Valid() && scopes == old(scopes)
      ensures var home := old(Home(Frames(), c));
        && (o.Pass? <==> home.Some?)
        && (o.Abort? ==> o.error == NotInKnownScope(c))
        && (o.Pass? ==> scopes[home.value].queue == old(scopes[home.value].queue) + [c])
        && (forall i :: 0 <= i < |scopes| && (o.Abort? || home != Some(i)) ==> scopes[i].queue == old(scopes[i].queue))
    {
      var k := FindHome(c);
      if k.None? {
        return Abort(NotInKnownScope(c));
      }
      PushQueue(scopes[k.value], k.value, c);
      o := Pass;
    }

    /**
     * `getFormalsProcedureAll(c)` (`ofProc`) and `getFormalsFuncAll(c)`: the innermost
     * non-null procedure (function) formal list of `c`; scopes holding null are skipped.
     */
    method FormalsAll(c: string, ofProc: bool) returns (r: Option<FormalList>)
      ensures scopes == old(scopes) && Frames() == old(Frames()) && Valid() == old(Valid())
      ensures r == Innermost(FormalFrames(Frames(), ofProc), c)
    {
      ghost var frames := FormalFrames(Frames(), ofProc);
      var i := |scopes|;
      while i > 0
        invariant 0 <= i <= |scopes|
        invariant forall j :: i <= j < |scopes| ==> c !in frames[j]
      {
        var f := if ofProc then scopes[i - 1].GetFormalsProcedure(c) else scopes[i - 1].GetFormalsFunc(c);
        if f.Some? {
          HomeAt(frames, c, i - 1);
          return f;
        }
        i := i - 1;
      }
      HomeIsInnermost(frames, c);
      return None;
    }

    /** A formal list is found exactly when some scope records a non-null one for `c`. */
    lemma FormalsSomewhere(c: string, ofProc: bool)
      ensures Innermost(FormalFrames(Frames(), ofProc), c).Some? <==>
        exists i :: 0 <= i < |scopes| && (if ofProc then scopes[i].GetFormalsProcedure(c) else scopes[i].GetFormalsFunc(c)).Some?
    {
      HomeIsInnermost(FormalFrames(Frames(), ofProc), c);
    }

    /**
     * For a name whose innermost binding is a procedure (function), the search for formals
     * finds that routine's own list when it has one: no scope above the binding mentions
     * the name. When the routine was declared without a list, the search carries on
     * below it and answers whatever the shadowed outer scopes hold.
     */
    lemma RoutineFormalsFound(c: string, ofProc: bool)
      requires Home(Frames(), c).Some?
      requires var s := scopes[Home(Frames(), c).value]; if ofProc then s.FoundProc(c) else s.FoundFunc(c)
      ensures var h := Home(Frames(), c).value; var f := scopes[h].binds[c].kind.formals;
        Innermost(FormalFrames(Frames(), ofProc), c) == if f.Some? then f else Innermost(FormalFrames(Frames()[..h], ofProc), c)
    {
      var h := Home(Frames(), c).value;
      NoFormalsAbove(c, ofProc);
      var frames := FormalFrames(Frames(), ofProc);
      if scopes[h].binds[c].kind.formals.Some? {
        HomeAt(frames, c, h);
      } else {
        HomeBelow(frames, c, h);
        FormalFramesPrefix(Frames(), ofProc, h);
      }
    }

    /** No scope above the innermost binding of `c` records formals for it. */
    lemma NoFormalsAbove(c: string, ofProc: bool)
      requires Home(Frames(), c).Some?
      ensures forall j :: Home(Frames(), c).value < j < |scopes| ==> c !in FormalFrames(Frames(), ofProc)[j]
    {
      HomeIsInnermost(Frames(), c);
      var h := Home(Frames(), c).value;
      forall j | h < j < |scopes| ensures c !in FormalFrames(Frames(), ofProc)[j] {
        assert c !in Frames()[j];
      }
    }

    /** `getSizeOfCurrentScope()`: the number of names bound in the innermost scope. */
    function GetSizeOfCurrentScope(): (n: int)
      reads this, scopes
      requires Valid() && |scopes| > 0
      ensures n == |Frames()[|scopes| - 1]|
    {
      Top().size
    }

    /** `foundResult()`: whether the innermost scope binds `result`. */
    predicate FoundResult()
      reads this, scopes
      requires |scopes| > 0
    {
      Top().Lookup("result").Some?
    }

    /**
     * `getParent()`: with one scope, the last routine of its queue; with two or more, the
     * last routine of the second-innermost scope's queue; with none (or an empty queue), fatal.
     */
    function GetParent(): Result<string>
      reads this, scopes
    {
      if |scopes| == 1 then scopes[0].GetParentFunction()
      else if |scopes| >= 2 then scopes[|scopes| - 2].GetParentFunction()
      else Fail(NoParentFunction)
    }

    // The remaining operations act on the innermost scope only.

    predicate FoundForward(c: string)
      reads this, scopes
      requires |scopes| > 0
    {
      Top().FoundForward(c)
    }

    predicate IsLabel(c: string)
      reads this, scopes
      requires |scopes| > 0
    {
      Top().IsLabel(c)
    }

    predicate IsNew(c: string)
      reads this, scopes
      requires |scopes| > 0
    {
      Top().IsNew(c)
    }

    predicate LabelHasStmt(c: string)
      reads this, scopes
      requires |scopes| > 0
    {
      Top().LabelHasStmt(c)
    }

    /** A name bound in the innermost scope resolves there, whatever outer scopes hold. */
    lemma TopShadows(c: string)
      requires |scopes| > 0 && c in Top().binds
      ensures Resolved(c) == Ok(Top().binds[c].entry)
    {
      HomeAt(Frames(), c, |scopes| - 1);
    }

    /** After a change confined to the innermost scope, the table stays well formed. */
    twostate lemma TopOnlyChanged()
      requires old(Valid()) && old(|scopes|) > 0
      requires scopes == old(scopes) && Top().Valid() && Top().base == old(Top().base)
      requires forall i :: 0 <= i < |scopes| - 1 ==> unchanged(scopes[i])
      ensures Valid()
      ensures forall i :: 0 <= i < |scopes| - 1 ==> Frames()[i] == old(Frames())[i]
    {
      forall i | 0 <= i < |scopes| - 1 ensures scopes[i].Valid() {
        assert old(scopes[i].Valid());
      }
    }

    /** After a change confined to scope `k` that keeps it well formed and keeps its offsets, the table stays well formed. */
    twostate lemma OneScopeChanged(k: nat)
      requires old(Valid()) && k < old(|scopes|) && scopes == old(scopes)
      requires forall i :: 0 <= i < |scopes| && i != k ==> unchanged(scopes[i])
      requires scopes[k].Valid() && scopes[k].base == old(scopes[k].base) && scopes[k].offset == old(scopes[k].offset)
      ensures Valid()
    {
      forall i | 0 <= i < |scopes| && i != k ensures scopes[i].Valid() {
        assert old(scopes[i].Valid());
      }
    }

    method Insert(c: string, t: Types) returns (o: Outcome)
      requires Valid() && |scopes| > 0
      modifies Top()
      ensures Valid() && scopes == old(scopes)
      ensures o.Abort? <==> c in old(Top().binds)
      ensures o.Abort? ==> o.error == DuplicateVariable(c)
      ensures o.Pass? ==> Top().Entered(c, t, Plain)
      ensures Top().forwards == old(Top().forwards) && Top().queue == old(Top().queue)
    {
      o := Top().Insert(c, t);
      TopOnlyChanged();
    }

    method InsertForwardDecl(c: string, t: Types) returns (o: Outcome)
      requires Valid() && |scopes| > 0
      modifies Top()
      ensures Valid() && scopes == old(scopes)
      ensures o.Abort? <==> c in old(Top().binds)
      ensures o.Abort? ==> o.error == DuplicateVariable(c)
      ensures o.Pass? ==> Top().Entered(c, t, Plain)
      ensures o.Pass? ==> Top().forwards == old(Top().forwards)[c := true] && Top().queue == old(Top().queue)
    {
      o := Top().InsertForwardDecl(c, t);
      TopOnlyChanged();
    }

    method InsertLabel(c: string, t: Types) returns (o: Outcome)
      requires Valid() && |scopes| > 0
      modifies Top()
      ensures Valid() && scopes == old(scopes)
      ensures o.Abort? <==> c in old(Top().binds)
      ensures o.Abort? ==> o.error == DuplicateVariable(c)
      ensures o.Pass? ==> Top().Entered(c, t, Label)
      ensures Top().forwards == old(Top().forwards) && Top().queue == old(Top().queue)
    {
      o := Top().InsertLabel(c, t);
      TopOnlyChanged();
    }

    method InsertProcedure(c: string, t: Types, f: Option<FormalList>, forward: bool) returns (o: Outcome)
      requires Valid() && |scopes| > 0
      modifies Top()
      ensures Valid() && scopes == old(scopes)
      ensures o.Abort? <==> c in old(Top().binds)
      ensures o.Abort? ==> o.error == DuplicateVariable(c)
      ensures o.Pass? ==> Top().Entered(c, t, Proc(f))
      ensures o.Pass? ==> Top().forwards == old(Top().forwards)[c := forward]
      ensures o.Pass? ==> Top().queue == old(Top().queue) + [c]
    {
      o := Top().InsertProcedure(c, t, f, forward);
      TopOnlyChanged();
    }

    method InsertFunction(c: string, t: Types, f: Option<FormalList>, forward: bool) returns (o: Outcome)
      requires Valid() && |scopes| > 0
      modifies Top()
      ensures Valid() && scopes == old(scopes)
      ensures o.Abort? <==> c in old(Top().binds)
      ensures o.Abort? ==> o.error == DuplicateVariable(c)
      ensures o.Pass? ==> Top().Entered(c, t, Func(f))
      ensures o.Pass? ==> Top().forwards == old(Top().forwards)[c := forward]
      ensures o.Pass? ==> Top().queue == old(Top().queue) + [c]
    {
      o := Top().InsertFunction(c, t, f, forward);
      TopOnlyChanged();
    }

    method MakeNew(c: string)
      requires Valid() && |scopes| > 0
      modifies Top()`news
      ensures Valid() && scopes == old(scopes)
      ensures Top().news == old(Top().news)[c := true]
    {
      Top().MakeNew(c);
      TopOnlyChanged();
    }

    method ClearForDecl(c: string)
      requires Valid() && |scopes| > 0 && c in Top().forwards
      modifies Top()`forwards
      ensures Valid() && scopes == old(scopes)
      ensures Top().forwards == old(Top().forwards) - {c}
    {
      Top().ClearForDecl(c);
      TopOnlyChanged();
    }

    method InsertLabelStmt(c: string)
      requires Valid() && |scopes| > 0
      modifies Top()`labelStmts
      ensures Valid() && scopes == old(scopes)
      ensures Top().labelStmts == old(Top().labelStmts) + {c}
    {
      Top().InsertLabelStmt(c);
      TopOnlyChanged();
    }

    /** Each scope's offsets only grow from its base, so bases never decrease inward. */
    lemma {:induction false} OffsetChain(i: nat, j: nat)
      requires Valid() && i < j < |scopes|
      ensures scopes[i].offset <= scopes[j].base
      decreases j - i
    {
      if j > i + 1 {
        OffsetChain(i, j - 1);
        assert scopes[j - 1].Valid();
      }
    }

    /**
     * Offsets are numbered from the enclosing scope: every binding of an inner scope has a
     * larger offset than every binding of an outer scope on the stack.
     */
    lemma OffsetsIncreaseInward(i: nat, j: nat, c: string, d: string)
      requires Valid() && i < j < |scopes|
      requires c in Frames()[i] && d in Frames()[j]
      ensures Frames()[i][c].entry.offset < Frames()[j][d].entry.offset
    {
      OffsetChain(i, j);
      assert scopes[i].Valid() && scopes[j].Valid();
    }
  }
}
