/**
 * The analysis of routine headers and their formal parameters, include/ast.hpp:
 * `Formal::sem` and `Formal_list::sem` (bind each parameter name in the innermost scope,
 * skipping names that scope holds a forward key for), the textual rendering `getstring`
 * that the forward check compares, and `semfor`/`sem` of `Procedure` and
 * `Function_not_from_llvm`.
 */
module AstDecl {
  import opened PclBase
  import opened Symbol

  // ---------------------------------------------------------------------------------
  // Binding parameter names
  // ---------------------------------------------------------------------------------

  /** A parameter name with the type tag it is bound with. */
  type Param = (string, Types)

  /** The names of one formal group, each paired with the group's tag. */
  function Tagged(ids: seq<string>, t: Types): (r: seq<Param>)
    ensures |r| == |ids| && forall i :: 0 <= i < |ids| ==> r[i] == (ids[i], t)
  {
    if ids == [] then [] else Tagged(ids[..|ids| - 1], t) + [(ids[|ids| - 1], t)]
  }

  /** Every parameter name of a formal list with its tag, in declaration order. */
  function Params(fl: FormalList): (r: seq<Param>)
    ensures |r| == Arity(fl)
  {
    if fl == [] then [] else Params(fl[..|fl| - 1]) + Tagged(fl[|fl| - 1].ids, fl[|fl| - 1].ty.Tag())
  }

  /** The two things binding a name changes in a scope: its bindings and its next offset. */
  datatype Frame = Frame(binds: Bindings, offset: int)

  /**
   * One parameter in a scope whose forward keys are `skip`: a forward-declared name is
   * left alone, a name already bound is fatal, any other name is bound as a plain
   * variable at the next offset.
   */
  function Step(r: Result<Frame>, p: Param, skip: set<string>): Result<Frame> {
    match r
    case Fail(_) => r
    case Ok(fr) =>
      if p.0 in skip then r
      else if p.0 in fr.binds then Fail(DuplicateVariable(p.0))
      else Ok(Frame(fr.binds[p.0 := Binding(SymbolEntry(p.1, fr.offset), Plain)], fr.offset + 1))
  }

  /** The parameters bound one after the other, starting from frame `f`. */
  function ParamsEffect(f: Frame, ps: seq<Param>, skip: set<string>): Result<Frame>
    decreases |ps|
  {
    if ps == [] then Ok(f) else Step(ParamsEffect(f, ps[..|ps| - 1], skip), ps[|ps| - 1], skip)
  }

  /** Continue binding `ps` after an earlier run, unless that run was fatal. */
  function Then(r: Result<Frame>, ps: seq<Param>, skip: set<string>): Result<Frame> {
    match r
    case Fail(_) => r
    case Ok(f) => ParamsEffect(f, ps, skip)
  }

  /** A name to be bound is new to the scope and does not occur earlier in the list. */
  predicate Bindable(n: Bindings, ps: seq<Param>, skip: set<string>) {
    && (forall j :: 0 <= j < |ps| && ps[j].0 !in skip ==> ps[j].0 !in n)
    && (forall i, j :: 0 <= i < j < |ps| && ps[j].0 !in skip ==> ps[i].0 != ps[j].0)
  }

  lemma ParamsEffectSnoc(f: Frame, ps: seq<Param>, p: Param, skip: set<string>)
    ensures ParamsEffect(f, ps + [p], skip) == Step(ParamsEffect(f, ps, skip), p, skip)
  {
    assert (ps + [p])[..|ps|] == ps;
  }

  /** Binding a concatenation is binding one part after the other. */
  lemma {:induction false} ParamsEffectAppend(f: Frame, a: seq<Param>, b: seq<Param>, skip: set<string>)
    ensures ParamsEffect(f, a + b, skip) == Then(ParamsEffect(f, a, skip), b, skip)
    decreases |b|
  {
    if b == [] {
      assert a + b == a;
    } else {
      var init := b[..|b| - 1];
      ParamsEffectAppend(f, a, init, skip);
      assert a + b == (a + init) + [b[|b| - 1]];
      ParamsEffectSnoc(f, a + init, b[|b| - 1], skip);
      var r := ParamsEffect(f, a, skip);
      if r.Ok? {
        ParamsEffectSnoc(r.value, init, b[|b| - 1], skip);
        assert init + [b[|b| - 1]] == b;
      }
    }
  }

  /**
   * The parameters bind without a fatal error exactly when every name that is not
   * forward-declared is new to the scope and occurs once; then the scope gains exactly
   * those names, each a plain variable of its tag, and keeps every binding it had.
   */
  lemma ParamsEffectOk(f: Frame, ps: seq<Param>, skip: set<string>)
    ensures ParamsEffect(f, ps, skip).Ok? <==> Bindable(f.binds, ps, skip)
    ensures ParamsEffect(f, ps, skip).Ok? ==> var r := ParamsEffect(f, ps, skip).value;
      && (forall c :: c in r.binds <==> c in f.binds || exists j :: 0 <= j < |ps| && ps[j].0 == c && c !in skip)
      && (forall c :: c in f.binds ==> r.binds[c] == f.binds[c])
      && (forall j :: 0 <= j < |ps| && ps[j].0 !in skip ==> r.binds[ps[j].0].entry.ty == ps[j].1 && r.binds[ps[j].0].kind == Plain)
  {
    ParamsEffectKeys(f, ps, skip);
    ParamsEffectValues(f, ps, skip);
  }

  /** Which runs succeed, and the names a successful run binds. */
  lemma {:induction false} ParamsEffectKeys(f: Frame, ps: seq<Param>, skip: set<string>)
    ensures ParamsEffect(f, ps, skip).Ok? <==> Bindable(f.binds, ps, skip)
    ensures ParamsEffect(f, ps, skip).Ok? ==> var r := ParamsEffect(f, ps, skip).value;
      forall c :: c in r.binds <==> c in f.binds || exists j :: 0 <= j < |ps| && ps[j].0 == c && c !in skip
    decreases |ps|
  {
    if ps != [] {
      var init, p := ps[..|ps| - 1], ps[|ps| - 1];
      ParamsEffectKeys(f, init, skip);
      assert forall j :: 0 <= j < |init| ==> init[j] == ps[j];
      var prev := ParamsEffect(f, init, skip);
      if prev.Ok? && p.0 !in skip && p.0 in prev.value.binds {
        if p.0 !in f.binds {
          var j :| 0 <= j < |init| && init[j].0 == p.0 && p.0 !in skip;
          assert ps[j].0 == ps[|ps| - 1].0;
        }
      }
    }
  }

  /** A successful run keeps the old bindings and binds each new name as a plain variable of its tag. */
  lemma {:induction false} ParamsEffectValues(f: Frame, ps: seq<Param>, skip: set<string>)
    ensures ParamsEffect(f, ps, skip).Ok? ==> var r := ParamsEffect(f, ps, skip).value;
      && (forall c :: c in f.binds ==> c in r.binds && r.binds[c] == f.binds[c])
      && (forall j :: 0 <= j < |ps| && ps[j].0 !in skip ==> ps[j].0 in r.binds && r.binds[ps[j].0].entry.ty == ps[j].1 && r.binds[ps[j].0].kind == Plain)
    decreases |ps|
  {
    if ps != [] {
      var init, p := ps[..|ps| - 1], ps[|ps| - 1];
      ParamsEffectValues(f, init, skip);
      ParamsEffectKeys(f, init, skip);
      assert forall j :: 0 <= j < |init| ==> init[j] == ps[j];
    }
  }

  /** A fatal error while binding names a parameter that is not forward-declared. */
  lemma {:induction false} ParamsEffectFail(f: Frame, ps: seq<Param>, skip: set<string>)
    ensures var r := ParamsEffect(f, ps, skip);
      r.Fail? ==> r.error.DuplicateVariable? && exists j :: 0 <= j < |ps| && ps[j].0 == r.error.name && ps[j].0 !in skip
    decreases |ps|
  {
    if ps != [] {
      var init := ps[..|ps| - 1];
      ParamsEffectFail(f, init, skip);
      if ParamsEffect(f, init, skip).Fail? {
        var j :| 0 <= j < |init| && init[j].0 == ParamsEffect(f, init, skip).error.name && init[j].0 !in skip;
        assert ps[j] == init[j];
      }
    }
  }

  lemma ParamsSnoc(fl: FormalList, g: nat)
    requires g < |fl|
    ensures Params(fl[..g + 1]) == Params(fl[..g]) + Tagged(fl[g].ids, fl[g].ty.Tag())
  {
    assert fl[..g + 1][..g] == fl[..g];
  }

  lemma TaggedSnoc(ids: seq<string>, t: Types, i: nat)
    requires i < |ids|
    ensures Tagged(ids[..i + 1], t) == Tagged(ids[..i], t) + [(ids[i], t)]
  {
    assert ids[..i + 1][..i] == ids[..i];
  }

  /** One name of `Formal::sem`: inserted unless the innermost scope holds a forward key for it. */
  method FormalName(st: SymbolTable, c: string, t: Types) returns (o: Outcome)
    requires st.Valid() && |st.scopes| > 0
    modifies st.Top()
    ensures st.Valid() && st.scopes == old(st.scopes)
    ensures var e := Step(Ok(old(Frame(st.Top().binds, st.Top().offset))), (c, t), old(st.Top().forwards.Keys));
      (o.Pass? <==> e.Ok?) && (o.Pass? ==> Frame(st.Top().binds, st.Top().offset) == e.value) && (o.Abort? ==> o.error == e.error)
    ensures st.Top().forwards == old(st.Top().forwards) && st.Top().queue == old(st.Top().queue)
    ensures o.Pass? ==> st.Top().news == old(st.Top().news) && st.Top().labelStmts == old(st.Top().labelStmts)
  {
    if st.FoundForward(c) {
      return Pass;
    }
    o := st.Insert(c, t);
  }

  /** A fatal error ends the binding: later parameters change nothing. */
  lemma FailSticky(f: Frame, a: seq<Param>, b: seq<Param>, skip: set<string>)
    requires ParamsEffect(f, a, skip).Fail?
    ensures ParamsEffect(f, a + b, skip) == ParamsEffect(f, a, skip)
  {
    ParamsEffectAppend(f, a, b, skip);
  }

  /** Binding one more name of a group. */
  lemma NameStep(f: Frame, ids: seq<string>, t: Types, i: nat, skip: set<string>)
    requires i < |ids|
    ensures ParamsEffect(f, Tagged(ids[..i + 1], t), skip) == Step(ParamsEffect(f, Tagged(ids[..i], t), skip), (ids[i], t), skip)
  {
    TaggedSnoc(ids, t, i);
    ParamsEffectSnoc(f, Tagged(ids[..i], t), (ids[i], t), skip);
  }

  /** A fatal error on a name of a group is the outcome of the whole group. */
  lemma NameFail(f: Frame, ids: seq<string>, t: Types, i: nat, skip: set<string>)
    requires i <= |ids| && ParamsEffect(f, Tagged(ids[..i], t), skip).Fail?
    ensures ParamsEffect(f, Tagged(ids, t), skip) == ParamsEffect(f, Tagged(ids[..i], t), skip)
  {
    FailSticky(f, Tagged(ids[..i], t), Tagged(ids, t)[i..], skip);
    assert Tagged(ids[..i], t) + Tagged(ids, t)[i..] == Tagged(ids, t);
  }

  /** Binding one more group of a formal list. */
  lemma GroupStep(f: Frame, fl: FormalList, g: nat, skip: set<string>)
    requires g < |fl|
    ensures ParamsEffect(f, Params(fl[..g + 1]), skip) == Then(ParamsEffect(f, Params(fl[..g]), skip), Tagged(fl[g].ids, fl[g].ty.Tag()), skip)
  {
    ParamsSnoc(fl, g);
    ParamsEffectAppend(f, Params(fl[..g]), Tagged(fl[g].ids, fl[g].ty.Tag()), skip);
  }

  /** A fatal error on a group is the outcome of the whole list. */
  lemma GroupFail(f: Frame, fl: FormalList, g: nat, skip: set<string>)
    requires g <= |fl| && ParamsEffect(f, Params(fl[..g]), skip).Fail?
    ensures ParamsEffect(f, Params(fl), skip) == ParamsEffect(f, Params(fl[..g]), skip)
  {
    PrefixOfParams(fl, g);
    var k := Arity(fl[..g]);
    FailSticky(f, Params(fl[..g]), Params(fl)[k..], skip);
    assert Params(fl)[..k] + Params(fl)[k..] == Params(fl);
  }

  /**
   * `Formal::sem`: each name of the group is inserted into the innermost scope as a
   * variable of the group's tag, unless that scope holds a forward key for it.
   */
  method FormalSem(st: SymbolTable, f: Formal) returns (o: Outcome)
    requires st.Valid() && |st.scopes| > 0
    modifies st.Top()
    ensures st.Valid() && st.scopes == old(st.scopes)
    ensures var e := ParamsEffect(old(Frame(st.Top().binds, st.Top().offset)), Tagged(f.ids, f.ty.Tag()), old(st.Top().forwards.Keys));
      (o.Pass? <==> e.Ok?) && (o.Pass? ==> Frame(st.Top().binds, st.Top().offset) == e.value) && (o.Abort? ==> o.error == e.error)
    ensures st.Top().forwards == old(st.Top().forwards) && st.Top().queue == old(st.Top().queue)
    ensures o.Pass? ==> st.Top().news == old(st.Top().news) && st.Top().labelStmts == old(st.Top().labelStmts)
  {
    ghost var f0, skip := Frame(st.Top().binds, st.Top().offset), st.Top().forwards.Keys;
    var t := f.ty.Tag();
    var i := 0;
    while i < |f.ids|
      invariant 0 <= i <= |f.ids|
      invariant st.Valid() && st.scopes == old(st.scopes)
      invariant ParamsEffect(f0, Tagged(f.ids[..i], t), skip) == Ok(Frame(st.Top().binds, st.Top().offset))
      invariant st.Top().forwards == old(st.Top().forwards) && st.Top().queue == old(st.Top().queue)
      invariant st.Top().news == old(st.Top().news) && st.Top().labelStmts == old(st.Top().labelStmts)
    {
      o := NameSem(st, f.ids, t, i, f0, skip);
      if o.Abort? {
        return;
      }
      i := i + 1;
    }
    assert f.ids[..i] == f.ids;
    o := Pass;
  }

  /** One turn of the loop of `Formal::sem`: bind the `i`-th name of the group. */
  method NameSem(st: SymbolTable, ids: seq<string>, t: Types, i: nat, ghost f0: Frame, ghost skip: set<string>) returns (o: Outcome)
    requires st.Valid() && |st.scopes| > 0 && i < |ids| && skip == st.Top().forwards.Keys
    requires ParamsEffect(f0, Tagged(ids[..i], t), skip) == Ok(Frame(st.Top().binds, st.Top().offset))
    modifies st.Top()
    ensures st.Valid() && st.scopes == old(st.scopes)
    ensures o.Pass? ==> ParamsEffect(f0, Tagged(ids[..i + 1], t), skip) == Ok(Frame(st.Top().binds, st.Top().offset))
    ensures o.Abort? ==> ParamsEffect(f0, Tagged(ids, t), skip) == Fail(o.error)
    ensures st.Top().forwards == old(st.Top().forwards) && st.Top().queue == old(st.Top().queue)
    ensures o.Pass? ==> st.Top().news == old(st.Top().news) && st.Top().labelStmts == old(st.Top().labelStmts)
  {
    NameStep(f0, ids, t, i, skip);
    o := FormalName(st, ids[i], t);
    if o.Abort? {
      NameFail(f0, ids, t, i + 1, skip);
    }
  }

  /** `Formal_list::sem`: the groups' names are bound one group after the other. */
  method FormalListSem(st: SymbolTable, fl: FormalList) returns (o: Outcome)
    requires st.Valid() && |st.scopes| > 0
    modifies st.Top()
    ensures st.Valid() && st.scopes == old(st.scopes)
    ensures var e := ParamsEffect(old(Frame(st.Top().binds, st.Top().offset)), Params(fl), old(st.Top().forwards.Keys));
      (o.Pass? <==> e.Ok?) && (o.Pass? ==> Frame(st.Top().binds, st.Top().offset) == e.value) && (o.Abort? ==> o.error == e.error)
    ensures st.Top().forwards == old(st.Top().forwards) && st.Top().queue == old(st.Top().queue)
    ensures o.Pass? ==> st.Top().news == old(st.Top().news) && st.Top().labelStmts == old(st.Top().labelStmts)
  {
    ghost var f0, skip := Frame(st.Top().binds, st.Top().offset), st.Top().forwards.Keys;
    var g := 0;
    while g < |fl|
      invariant 0 <= g <= |fl|
      invariant st.Valid() && st.scopes == old(st.scopes)
      invariant ParamsEffect(f0, Params(fl[..g]), skip) == Ok(Frame(st.Top().binds, st.Top().offset))
      invariant st.Top().forwards == old(st.Top().forwards) && st.Top().queue == old(st.Top().queue)
      invariant st.Top().news == old(st.Top().news) && st.Top().labelStmts == old(st.Top().labelStmts)
    {
      o := GroupSem(st, fl, g, f0, skip);
      if o.Abort? {
        return;
      }
      g := g + 1;
    }
    assert fl[..g] == fl;
    o := Pass;
  }

  /** One turn of the loop of `Formal_list::sem`: bind the `g`-th group. */
  method GroupSem(st: SymbolTable, fl: FormalList, g: nat, ghost f0: Frame, ghost skip: set<string>) returns (o: Outcome)
    requires st.Valid() && |st.scopes| > 0 && g < |fl| && skip == st.Top().forwards.Keys
    requires ParamsEffect(f0, Params(fl[..g]), skip) == Ok(Frame(st.Top().binds, st.Top().offset))
    modifies st.Top()
    ensures st.Valid() && st.scopes == old(st.scopes)
    ensures o.Pass? ==> ParamsEffect(f0, Params(fl[..g + 1]), skip) == Ok(Frame(st.Top().binds, st.Top().offset))
    ensures o.Abort? ==> ParamsEffect(f0, Params(fl), skip) == Fail(o.error)
    ensures st.Top().forwards == old(st.Top().forwards) && st.Top().queue == old(st.Top().queue)
    ensures o.Pass? ==> st.Top().news == old(st.Top().news) && st.Top().labelStmts == old(st.Top().labelStmts)
  {
    GroupStep(f0, fl, g, skip);
    o := FormalSem(st, fl[g]);
    if o.Abort? {
      GroupFail(f0, fl, g + 1, skip);
    }
  }

  /** The parameters of a prefix of the groups are a prefix of all the parameters. */
  lemma {:induction false} PrefixOfParams(fl: FormalList, g: nat)
    requires g <= |fl|
    ensures Arity(fl[..g]) <= Arity(fl) && Params(fl)[..Arity(fl[..g])] == Params(fl[..g])
    decreases |fl| - g
  {
    if g == |fl| {
      assert fl[..g] == fl;
    } else {
      PrefixOfParams(fl, g + 1);
      ParamsSnoc(fl, g);
      var k := Arity(fl[..g]);
      assert Params(fl[..g + 1])[..k] == Params(fl[..g]);
      assert Params(fl)[..k] == Params(fl)[..Arity(fl[..g + 1])][..k];
    }
  }

  // ---------------------------------------------------------------------------------
  // Rendering formal lists (`getstring`)
  // ---------------------------------------------------------------------------------

  /** The value of a `Types` enumerator; `getstring` appends it to the text as one character. */
  function Ordinal(t: Types): (n: nat)
    ensures n < 11
  {
    match t
    case TypeInt => 0 case TypeBool => 1 case TypeChar => 2 case TypeReal => 3
    case TypeString => 4 case TypeArray => 5 case TypePointer => 6 case TypeProc => 7
    case TypeResult => 8 case TypeNil => 9 case TypeLabel => 10
  }

  /** The identifiers of an `Id_list`, each followed by a comma and a space. */
  function JoinIds(ids: seq<string>): string {
    if ids == [] then "" else JoinIds(ids[..|ids| - 1]) + ids[|ids| - 1] + ", "
  }

  /** `Formal::getstring`: the identifier list and the type's enumerator; the pass mode is not rendered. */
  function RenderFormal(f: Formal): string {
    "Formal(" + "Idlist(" + JoinIds(f.ids) + ")" + [Ordinal(f.ty.Tag()) as char] + ")"
  }

  function JoinFormals(fl: FormalList): string {
    if fl == [] then "" else JoinFormals(fl[..|fl| - 1]) + RenderFormal(fl[|fl| - 1]) + ", "
  }

  /** `Formal_list::getstring`; an empty list is left without its closing parenthesis. */
  function Render(fl: FormalList): string {
    "Formallist(" + (if fl == [] then "" else JoinFormals(fl) + ")")
  }

  /** Two formal groups that can only be told apart by what `getstring` leaves out. */
  predicate SameShape(a: Formal, b: Formal) {
    a.ids == b.ids && a.ty.Tag() == b.ty.Tag()
  }

  lemma {:induction false} JoinFormalsShape(a: FormalList, b: FormalList)
    requires |a| == |b| && forall i :: 0 <= i < |a| ==> SameShape(a[i], b[i])
    ensures JoinFormals(a) == JoinFormals(b)
  {
    if a != [] {
      JoinFormalsShape(a[..|a| - 1], b[..|b| - 1]);
      assert SameShape(a[|a| - 1], b[|b| - 1]);
    }
  }

  /**
   * The rendering sees only identifiers and type tags: lists that differ only in pass
   * modes, array sizes or element types, or pointer targets render alike.
   */
  lemma RenderShape(a: FormalList, b: FormalList)
    requires |a| == |b| && forall i :: 0 <= i < |a| ==> SameShape(a[i], b[i])
    ensures Render(a) == Render(b)
  {
    JoinFormalsShape(a, b);
  }

  /** A non-empty list renders with its closing parenthesis, so it never renders like the empty list. */
  lemma RenderEmptyDiffers(fl: FormalList)
    requires fl != []
    ensures Render(fl) != Render([])
  {
    assert |Render(fl)| > |Render([])|;
  }

  // ---------------------------------------------------------------------------------
  // Routine headers
  // ---------------------------------------------------------------------------------

  /**
   * A routine header: `Procedure` or `Function_not_from_llvm`. A header written without
   * parentheses has a null formal list (`None`).
   */
  datatype Header =
    | ProcHeader(name: string, formals: Option<FormalList>)
    | FuncHeader(name: string, formals: Option<FormalList>, ret: TypeDesc)
  {
    /** The type the routine's name is bound with. */
    function Tag(): Types {
      if ProcHeader? then TypeProc else ret.Tag()
    }

    /** The kind the routine's name is bound with, carrying its formal list. */
    function RoutineKind(): Kind {
      if ProcHeader? then Proc(formals) else Func(formals)
    }

    /** `Function_not_from_llvm::sem` refuses a function returning an array. */
    predicate ArrayResult() {
      FuncHeader? && ret.Tag() == TypeArray
    }
  }

  /** `semfor`: bind the routine as forward-declared in the innermost scope. */
  method HeaderSemFor(st: SymbolTable, h: Header) returns (o: Outcome)
    requires st.Valid() && |st.scopes| > 0
    modifies st.Top()
    ensures st.Valid() && st.scopes == old(st.scopes)
    ensures o.Abort? <==> h.name in old(st.Top().binds)
    ensures o.Abort? ==> o.error == DuplicateVariable(h.name)
    ensures o.Pass? ==> st.Top().Entered(h.name, h.Tag(), h.RoutineKind())
    ensures o.Pass? ==> st.Top().forwards == old(st.Top().forwards)[h.name := true]
    ensures o.Pass? ==> st.Top().queue == old(st.Top().queue) + [h.name]
  {
    if h.ProcHeader? {
      o := st.InsertProcedure(h.name, TypeProc, h.formals, true);
    } else {
      o := st.InsertFunction(h.name, h.ret.Tag(), h.formals, true);
    }
  }

  /** The formal lists of a forward declaration and its completion must render alike; a null list is dereferenced. */
  function FormalsAgree(name: string, prior: Option<FormalList>, current: Option<FormalList>): Outcome {
    if prior.None? || current.None? then Abort(MissingFormals(name))
    else if Render(prior.value) != Render(current.value) then Abort(ForwardMismatch(name))
    else Pass
  }

  /**
   * The check completing a forward declaration: the formal list found for the routine
   * (procedure formals for a procedure, function formals for a function) against the
   * header's own list.
   */
  ghost function ForwardCheck(st: SymbolTable, h: Header): Outcome
    reads st, st.scopes
  {
    if h.ProcHeader? then FormalsAgree(h.name, Innermost(FormalFrames(st.Frames(), true), h.name), h.formals)
    else FormalsAgree(h.name, Innermost(FormalFrames(st.Frames(), false), h.name), h.formals)
  }

  /** Fetch the formals recorded for the routine and compare them with the header's. */
  method CompareForward(st: SymbolTable, h: Header) returns (o: Outcome)
    ensures o == old(ForwardCheck(st, h))
    ensures st.scopes == old(st.scopes) && st.Frames() == old(st.Frames()) && st.Valid() == old(st.Valid())
  {
    var prior: Option<FormalList>;
    if h.ProcHeader? {
      prior := st.FormalsAll(h.name, true);
    } else {
      prior := st.FormalsAll(h.name, false);
    }
    o := FormalsAgree(h.name, prior, h.formals);
  }

  /**
   * The forward branch of `sem`: compare the formal lists, drop the forward key and
   * append the routine to the queue of the innermost scope holding it. That scope is the
   * innermost one, since a scope only holds forward keys for names it binds.
   */
  method CompleteForward(st: SymbolTable, h: Header) returns (o: Outcome)
    requires st.Valid() && |st.scopes| > 0 && h.name in st.Top().forwards
    modifies st.Top()`forwards, st.Top()`queue
    ensures st.Valid() && st.scopes == old(st.scopes)
    ensures o == old(ForwardCheck(st, h))
    ensures o.Pass? ==> st.Top().forwards == old(st.Top().forwards) - {h.name}
    ensures o.Pass? ==> st.Top().queue == old(st.Top().queue) + [h.name]
    ensures o.Abort? ==> st.Top().forwards == old(st.Top().forwards) && st.Top().queue == old(st.Top().queue)
  {
    o := CompareForward(st, h);
    if o.Abort? {
      return;
    }
    DropForward(st, h.name);
  }

  /** `clearForDecl`, then `insertParent`, which finds the name in the innermost scope. */
  method DropForward(st: SymbolTable, c: string)
    requires st.Valid() && |st.scopes| > 0 && c in st.Top().forwards
    modifies st.Top()`forwards, st.Top()`queue
    ensures st.Valid() && st.scopes == old(st.scopes)
    ensures st.Top().forwards == old(st.Top().forwards) - {c}
    ensures st.Top().queue == old(st.Top().queue) + [c]
  {
    st.ClearForDecl(c);
    var k := |st.scopes| - 1;
    assert st.Top().Valid();
    HomeAt(st.Frames(), c, k);
    st.PushQueue(st.Top(), k, c);
  }

  /**
   * Whether `sem` takes the forward branch. As written it asks `foundForward`, which is
   * true as soon as the innermost scope holds a key for the name, whatever its flag; the
   * intended test reads the flag.
   */
  predicate Pending(st: SymbolTable, h: Header, asWritten: bool)
    reads st, st.scopes
    requires |st.scopes| > 0
  {
    if asWritten then h.name in st.Top().forwards else FlagAt(st.Top().forwards, h.name)
  }

  /** The outcome of binding the header: the forward check, or the insertion of a new routine. */
  ghost function EnterOutcome(st: SymbolTable, h: Header, pending: bool): Outcome
    reads st, st.scopes
    requires |st.scopes| > 0
  {
    if pending then ForwardCheck(st, h)
    else if h.name in st.Top().binds then Abort(DuplicateVariable(h.name))
    else Pass
  }

  /** The innermost scope's bindings and offset once the header is bound. */
  function HeaderFrame(st: SymbolTable, h: Header, pending: bool): Frame
    reads st, st.scopes
    requires |st.scopes| > 0
  {
    var top := st.Top();
    if pending then Frame(top.binds, top.offset)
    else Frame(top.binds[h.name := Binding(SymbolEntry(h.Tag(), top.offset), h.RoutineKind())], top.offset + 1)
  }

  /**
   * The innermost scope's forward keys once the header is bound: a completed forward
   * declaration loses its key, a new routine gets one holding false.
   */
  function HeaderForwards(st: SymbolTable, h: Header, pending: bool): map<string, bool>
    reads st, st.scopes
    requires |st.scopes| > 0
  {
    if pending then st.Top().forwards - {h.name} else st.Top().forwards[h.name := false]
  }

  /** Bind the header, by the forward branch or by inserting the routine (`forward` false). */
  method EnterHeader(st: SymbolTable, h: Header, pending: bool) returns (o: Outcome)
    requires st.Valid() && |st.scopes| > 0 && (pending ==> h.name in st.Top().forwards)
    modifies st.Top()
    ensures st.Valid() && st.scopes == old(st.scopes)
    ensures o == old(EnterOutcome(st, h, pending))
    ensures o.Pass? ==> Frame(st.Top().binds, st.Top().offset) == old(HeaderFrame(st, h, pending))
    ensures o.Pass? ==> st.Top().forwards == old(HeaderForwards(st, h, pending))
    ensures o.Pass? ==> st.Top().queue == old(st.Top().queue) + [h.name]
    ensures o.Pass? ==> st.Top().news == old(st.Top().news) && st.Top().labelStmts == old(st.Top().labelStmts)
  {
    if pending {
      o := EnterForward(st, h);
    } else {
      o := EnterRoutine(st, h);
    }
  }

  /** Complete a pending forward declaration, in the terms of the header's effect. */
  method EnterForward(st: SymbolTable, h: Header) returns (o: Outcome)
    requires st.Valid() && |st.scopes| > 0 && h.name in st.Top().forwards
    modifies st.Top()
    ensures st.Valid() && st.scopes == old(st.scopes)
    ensures o == old(EnterOutcome(st, h, true))
    ensures o.Pass? ==> Frame(st.Top().binds, st.Top().offset) == old(HeaderFrame(st, h, true))
    ensures o.Pass? ==> st.Top().forwards == old(HeaderForwards(st, h, true))
    ensures o.Pass? ==> st.Top().queue == old(st.Top().queue) + [h.name]
    ensures o.Pass? ==> st.Top().news == old(st.Top().news) && st.Top().labelStmts == old(st.Top().labelStmts)
  {
    o := CompleteForward(st, h);
  }

  /** Insert a routine that is not pending completion, as a procedure or as a function. */
  method EnterRoutine(st: SymbolTable, h: Header) returns (o: Outcome)
    requires st.Valid() && |st.scopes| > 0
    modifies st.Top()
    ensures st.Valid() && st.scopes == old(st.scopes)
    ensures o == old(EnterOutcome(st, h, false))
    ensures o.Pass? ==> Frame(st.Top().binds, st.Top().offset) == old(HeaderFrame(st, h, false))
    ensures o.Pass? ==> st.Top().forwards == old(HeaderForwards(st, h, false))
    ensures o.Pass? ==> st.Top().queue == old(st.Top().queue) + [h.name]
    ensures o.Pass? ==> st.Top().news == old(st.Top().news) && st.Top().labelStmts == old(st.Top().labelStmts)
  {
    if h.ProcHeader? {
      o := st.InsertProcedure(h.name, TypeProc, h.formals, false);
    } else {
      o := st.InsertFunction(h.name, h.ret.Tag(), h.formals, false);
    }
  }

  /** What `sem` decides before any parameter is bound. */
  ghost function HeaderOutcome(st: SymbolTable, h: Header, asWritten: bool): Outcome
    reads st, st.scopes
    requires |st.scopes| > 0
  {
    if h.ArrayResult() then Abort(ArrayFunction(h.name)) else EnterOutcome(st, h, Pending(st, h, asWritten))
  }

  /**
   * `Procedure::sem` and `Function_not_from_llvm::sem` as written: after the header is
   * bound, a function's formal list is analysed in the innermost scope, which is the
   * scope enclosing the function (a null list is dereferenced).
   */
  method HeaderSemAsWritten(st: SymbolTable, h: Header) returns (o: Outcome)
    requires st.Valid() && |st.scopes| > 0
    modifies st.Top()
    ensures st.Valid() && st.scopes == old(st.scopes)
    ensures var first := old(HeaderOutcome(st, h, true));
      first.Abort? ==> o == first
    ensures var first, pending := old(HeaderOutcome(st, h, true)), old(Pending(st, h, true));
      first.Pass? ==>
        && st.Top().forwards == old(HeaderForwards(st, h, pending))
        && st.Top().queue == old(st.Top().queue) + [h.name]
        && (h.ProcHeader? ==> o == Pass && Frame(st.Top().binds, st.Top().offset) == old(HeaderFrame(st, h, pending)))
        && (h.FuncHeader? && h.formals.None? ==> o == Abort(MissingFormals(h.name)))
        && (o.Pass? ==> st.Top().labelStmts == old(st.Top().labelStmts))
    ensures var first, pending := old(HeaderOutcome(st, h, true)), old(Pending(st, h, true));
      first.Pass? && h.FuncHeader? && h.formals.Some? ==>
        var e := ParamsEffect(old(HeaderFrame(st, h, pending)), Params(h.formals.value), old(HeaderForwards(st, h, pending)).Keys);
        (o.Pass? <==> e.Ok?) && (o.Pass? ==> Frame(st.Top().binds, st.Top().offset) == e.value) && (o.Abort? ==> o.error == e.error)
  {
    if h.ArrayResult() {
      return Abort(ArrayFunction(h.name));
    }
    var pending := st.FoundForward(h.name);
    o := EnterHeader(st, h, pending);
    if o.Abort? || h.ProcHeader? {
      return;
    }
    if h.formals.None? {
      return Abort(MissingFormals(h.name));
    }
    o := FormalListSem(st, h.formals.value);
  }

  /**
   * The header analysis as intended: the forward branch is taken only for a name whose
   * forward flag is set, and the formals are left to the routine's own body, which binds
   * them in its scope.
   */
  method HeaderSem(st: SymbolTable, h: Header) returns (o: Outcome)
    requires st.Valid() && |st.scopes| > 0
    modifies st.Top()
    ensures st.Valid() && st.scopes == old(st.scopes)
    ensures o == old(HeaderOutcome(st, h, false))
    ensures var pending := old(Pending(st, h, false));
      o.Pass? ==>
        && Frame(st.Top().binds, st.Top().offset) == old(HeaderFrame(st, h, pending))
        && st.Top().forwards == old(HeaderForwards(st, h, pending))
        && st.Top().queue == old(st.Top().queue) + [h.name]
        && st.Top().labelStmts == old(st.Top().labelStmts)
  {
    if h.ArrayResult() {
      return Abort(ArrayFunction(h.name));
    }
    var pending := FlagAt(st.Top().forwards, h.name);
    o := EnterHeader(st, h, pending);
  }

  // ---------------------------------------------------------------------------------
  // Headers in a fresh scope
  // ---------------------------------------------------------------------------------

  /** A table with one empty scope, as a body's `openScope` leaves it. */
  method FreshTable() returns (st: SymbolTable)
    ensures st.Valid() && |st.scopes| == 1 && st.Top().binds == map[] && st.Top().forwards == map[]
    ensures st.Top().labelStmts == {}
    ensures fresh(st) && fresh(st.Top())
  {
    st := new SymbolTable();
    st.OpenScope();
  }

  /** In a table with one scope, the formals found for a name are those recorded in that scope. */
  lemma OneScopeFormals(st: SymbolTable, c: string, ofProc: bool)
    requires |st.scopes| == 1
    ensures Innermost(FormalFrames(st.Frames(), ofProc), c) ==
      if c in RoutineFormals(st.Top().binds, ofProc) then Some(RoutineFormals(st.Top().binds, ofProc)[c]) else None
  {
    var frames := FormalFrames(st.Frames(), ofProc);
    assert frames == [] + [frames[0]];
    HomePush([], frames[0], c);
  }

  /**
   * A procedure defined twice in one scope: the first definition stores a forward key
   * holding false, so the second is taken for the completion of a forward declaration
   * and accepted.
   */
  method RedefinitionAsWritten() returns (o1: Outcome, o2: Outcome)
    ensures o1 == Pass && o2 == Pass
  {
    var st := FreshTable();
    var h := ProcHeader("p", Some([]));
    o1 := HeaderSemAsWritten(st, h);
    assert st.Top().forwards == map["p" := false];
    OneScopeFormals(st, "p", true);
    o2 := HeaderSemAsWritten(st, h);
  }

  /** With the flag read, the second definition is a duplicate. */
  method RedefinitionRejected() returns (o1: Outcome, o2: Outcome)
    ensures o1 == Pass && o2 == Abort(DuplicateVariable("p"))
  {
    var st := FreshTable();
    var h := ProcHeader("p", Some([]));
    o1 := HeaderSem(st, h);
    assert st.Top().forwards == map["p" := false];
    o2 := HeaderSem(st, h);
  }

  /** Two functions with a parameter `x` declared side by side in one scope. */
  function Unary(name: string): Header {
    FuncHeader(name, Some([Formal(["x"], IntDesc, ByValue)]), IntDesc)
  }

  lemma UnaryParams(name: string)
    ensures Params(Unary(name).formals.value) == [("x", TypeInt)]
  {
    var fl := Unary(name).formals.value;
    assert fl[..0] == [];
    assert ["x"][..0] == [];
  }

  /**
   * A new function `name(x)` in a scope where `x` is not forward-declared: its header binds,
   * and its parameter `x` binds after it unless the scope already holds an `x`.
   */
  lemma UnaryHeader(st: SymbolTable, name: string)
    requires |st.scopes| > 0 && name != "x"
    requires name !in st.Top().binds && name !in st.Top().forwards && "x" !in st.Top().forwards
    ensures HeaderOutcome(st, Unary(name), true) == Pass && !Pending(st, Unary(name), true)
    ensures var f := HeaderFrame(st, Unary(name), false);
      ParamsEffect(f, Params(Unary(name).formals.value), HeaderForwards(st, Unary(name), false).Keys) ==
        if "x" in st.Top().binds then Fail(DuplicateVariable("x"))
        else Ok(Frame(f.binds["x" := Binding(SymbolEntry(TypeInt, f.offset), Plain)], f.offset + 1))
  {
    UnaryParams(name);
  }

  /**
   * As written, the first function's parameter is bound in the enclosing scope, so the
   * second function's parameter of the same name is a duplicate.
   */
  method SharedParameterAsWritten() returns (o1: Outcome, o2: Outcome)
    ensures o1 == Pass && o2 == Abort(DuplicateVariable("x"))
  {
    var st := FreshTable();
    UnaryHeader(st, "f");
    o1 := HeaderSemAsWritten(st, Unary("f"));
    assert "x" in st.Top().binds && "g" !in st.Top().binds && "g" !in st.Top().forwards && "x" !in st.Top().forwards;
    UnaryHeader(st, "g");
    o2 := HeaderSemAsWritten(st, Unary("g"));
  }

  /** As intended, both headers bind only their routine's name. */
  method SharedParameterCorrected() returns (o1: Outcome, o2: Outcome)
    ensures o1 == Pass && o2 == Pass
  {
    var st := FreshTable();
    o1 := HeaderSem(st, Unary("f"));
    o2 := HeaderSem(st, Unary("g"));
  }

  /** A one-parameter list `x` of the given type and pass mode. */
  function Single(ty: TypeDesc, mode: PassMode): FormalList {
    [Formal(["x"], ty, mode)]
  }

  /** The rendering of a one-parameter list carries the parameter's type as its 30th character. */
  lemma SingleRendered(ty: TypeDesc, mode: PassMode)
    ensures |Render(Single(ty, mode))| > 29 && Render(Single(ty, mode))[29] == Ordinal(ty.Tag()) as char
  {
    var fl := Single(ty, mode);
    var r := "Formal(Idlist(x, )" + [Ordinal(ty.Tag()) as char] + ")";
    assert fl[..0] == [] && ["x"][..0] == [];
    assert JoinIds(["x"]) == "x, ";
    assert RenderFormal(fl[0]) == r;
    assert JoinFormals(fl) == r + ", ";
    assert Render(fl) == "Formallist(" + (r + ", ") + ")";
    assert Render(fl)[29] == r[18];
  }

  /** One-parameter lists whose parameters differ in type render differently. */
  lemma TypesRenderApart(mode: PassMode)
    ensures Render(Single(IntDesc, mode)) != Render(Single(CharDesc, mode))
  {
    SingleRendered(IntDesc, mode);
    SingleRendered(CharDesc, mode);
  }

  /** `procedure p(fl); forward` in a fresh table. */
  method ForwardP(fl: FormalList) returns (st: SymbolTable, o: Outcome)
    ensures o == Pass
    ensures st.Valid() && |st.scopes| == 1 && fresh(st) && fresh(st.Top())
    ensures "p" in st.Top().forwards
    ensures Innermost(FormalFrames(st.Frames(), true), "p") == Some(fl)
  {
    st := FreshTable();
    o := HeaderSemFor(st, ProcHeader("p", Some(fl)));
    OneScopeFormals(st, "p", true);
  }

  /** Completing the forward procedure `p` compares the recorded list with the new one. */
  lemma CompletionOutcome(st: SymbolTable, fl: FormalList, current: FormalList)
    requires |st.scopes| > 0 && "p" in st.Top().forwards
    requires Innermost(FormalFrames(st.Frames(), true), "p") == Some(fl)
    ensures Pending(st, ProcHeader("p", Some(current)), true)
    ensures HeaderOutcome(st, ProcHeader("p", Some(current)), true) == FormalsAgree("p", Some(fl), Some(current))
  {
  }

  /** A forward declaration completed with a list that differs only in the pass mode is accepted. */
  method ModeIgnored() returns (o1: Outcome, o2: Outcome)
    ensures o1 == Pass && o2 == Pass
  {
    RenderShape(Single(IntDesc, ByValue), Single(IntDesc, ByReference));
    var st;
    st, o1 := ForwardP(Single(IntDesc, ByValue));
    CompletionOutcome(st, Single(IntDesc, ByValue), Single(IntDesc, ByReference));
    o2 := HeaderSemAsWritten(st, ProcHeader("p", Some(Single(IntDesc, ByReference))));
  }

  /** A forward declaration completed with a parameter of another type is a mismatch. */
  method TypeMismatch() returns (o1: Outcome, o2: Outcome)
    ensures o1 == Pass && o2 == Abort(ForwardMismatch("p"))
  {
    TypesRenderApart(ByValue);
    var st;
    st, o1 := ForwardP(Single(IntDesc, ByValue));
    CompletionOutcome(st, Single(IntDesc, ByValue), Single(CharDesc, ByValue));
    o2 := HeaderSemAsWritten(st, ProcHeader("p", Some(Single(CharDesc, ByValue))));
  }
}
