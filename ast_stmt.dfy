/**
 * The analysis of statements, declarations and routine bodies, include/ast.hpp:
 * `Stmtlist::sem`, `Block::sem`, `If::sem`, `While::sem`, `LabelStmt::sem`, the
 * statement checks of the other modules, `Local::sem`, `Local_list::sem` and `Body::sem`.
 *
 * Expressions appear as already-typed operands. Every statement works on the innermost
 * scope; a routine body opens a scope of its own, analyses its declarations and its
 * block in it and closes it again.
 *
 * Two variants are modelled side by side, selected by `asWritten`: the analysis with three
 * of the source's defects left in, and the analysis with those three corrected (a labelled
 * statement attaches its label; a nested compound statement does not bind the
 * routine's parameters a second time; a routine header takes the corrected path of
 * `AstDecl.HeaderSem`). Both variants use the corrected call check and the types the
 * expressions' analyses computed (AstCall and ExprRead describe the code as written there).
 */
module AstStmt {
  import opened PclBase
  import opened Symbol
  import opened AstSem
  import opened AstCall
  import opened AstDecl

  datatype Stmt =
    | Assign(target: Operand, value: Operand)
    | If(cond: Operand, thenStmt: Stmt, elseStmt: Option<Stmt>)
    | While(cond: Operand, body: Stmt)
    | Block(stmts: seq<Stmt>)
    | Call(name: string, args: seq<Types>)
    | New(target: Operand, size: Option<Operand>)
    | Dispose(target: Operand, brackets: bool)
    | Goto(dest: string)
    | Labeled(name: string, stmt: Stmt)
    | Return

  /** One `Local`; a `Decl_list` of several declarations is a run of `Vars` locals. */
  datatype Local =
    | Vars(ids: seq<string>, ty: Types)
    | Labels(ids: seq<string>)
    | Routine(header: Header, body: Body)
    | Forward(header: Header)

  /** A routine body: its local declarations and its block. */
  datatype Body = Body(locals: seq<Local>, block: seq<Stmt>)

  // ---------------------------------------------------------------------------------
  // What a statement contains
  // ---------------------------------------------------------------------------------

  /** The targets of the `goto` statements inside `s`. */
  function Gotos(s: Stmt): set<string>
    decreases s
  {
    match s
    case If(_, a, e) => Gotos(a) + (if e.Some? then Gotos(e.value) else {})
    case While(_, b) => Gotos(b)
    case Block(ss) => GotosIn(ss)
    case Goto(l) => {l}
    case Labeled(_, t) => Gotos(t)
    case _ => {}
  }

  function GotosIn(ss: seq<Stmt>): set<string>
    decreases ss
  {
    if ss == [] then {} else GotosIn(ss[..|ss| - 1]) + Gotos(ss[|ss| - 1])
  }

  /** The labels of the labelled statements inside `s`. */
  function LabelsOf(s: Stmt): set<string>
    decreases s
  {
    match s
    case If(_, a, e) => LabelsOf(a) + (if e.Some? then LabelsOf(e.value) else {})
    case While(_, b) => LabelsOf(b)
    case Block(ss) => LabelsIn(ss)
    case Labeled(l, t) => {l} + LabelsOf(t)
    case _ => {}
  }

  function LabelsIn(ss: seq<Stmt>): set<string>
    decreases ss
  {
    if ss == [] then {} else LabelsIn(ss[..|ss| - 1]) + LabelsOf(ss[|ss| - 1])
  }

  /** The labels a statement attaches: none as written, its labelled statements' when corrected. */
  function Attached(s: Stmt, asWritten: bool): set<string> {
    if asWritten then {} else LabelsOf(s)
  }

  function AttachedIn(ss: seq<Stmt>, asWritten: bool): set<string> {
    if asWritten then {} else LabelsIn(ss)
  }

  /**
   * The checks of `s` that depend on its operands alone: conditions are boolean,
   * assignments match, `new` and `dispose` get a pointer of the right kind. An operand
   * typed `result` is left out, because its type is read from the table.
   */
  predicate Checked(s: Stmt)
    decreases s
  {
    match s
    case Assign(t, v) => t.ty != TypeResult ==> v.ty == t.ty
    case If(c, a, e) => (c.ty != TypeResult ==> c.ty == TypeBool) && Checked(a) && (e.Some? ==> Checked(e.value))
    case While(c, b) => (c.ty != TypeResult ==> c.ty == TypeBool) && Checked(b)
    case Block(ss) => CheckedIn(ss)
    case New(t, n) => t.ty != TypeResult && (n.Some? ==> n.value.ty != TypeResult) ==> NewCheck(t, n).Pass?
    case Dispose(t, b) => t.ty != TypeResult ==> t.ty == TypePointer && (b ==> t.elem == TypeArray)
    case Labeled(_, t) => Checked(t)
    case _ => true
  }

  predicate CheckedIn(ss: seq<Stmt>)
    decreases ss
  {
    forall i :: 0 <= i < |ss| ==> Checked(ss[i])
  }

  /**
   * Statements with nothing to check: `return`, a labelled inert statement and, when a
   * compound statement binds no parameters, a block of inert statements.
   */
  predicate Inert(s: Stmt, asWritten: bool)
    decreases s
  {
    match s
    case Return => true
    case Labeled(_, t) => Inert(t, asWritten)
    case Block(ss) => !asWritten && InertIn(ss, asWritten)
    case _ => false
  }

  predicate InertIn(ss: seq<Stmt>, asWritten: bool)
    decreases ss
  {
    forall i :: 0 <= i < |ss| ==> Inert(ss[i], asWritten)
  }

  /** The labels a declaration introduces. */
  function Declared(l: Local): set<string> {
    if l.Labels? then set i | 0 <= i < |l.ids| :: l.ids[i] else {}
  }

  function DeclaredIn(ls: seq<Local>): set<string> {
    if ls == [] then {} else DeclaredIn(ls[..|ls| - 1]) + Declared(ls[|ls| - 1])
  }

  lemma GotosSnoc(ss: seq<Stmt>, i: nat)
    requires i < |ss|
    ensures GotosIn(ss[..i + 1]) == GotosIn(ss[..i]) + Gotos(ss[i])
    ensures LabelsIn(ss[..i + 1]) == LabelsIn(ss[..i]) + LabelsOf(ss[i])
    ensures forall w :: AttachedIn(ss[..i + 1], w) == AttachedIn(ss[..i], w) + Attached(ss[i], w)
  {
    assert ss[..i + 1][..i] == ss[..i];
  }

  /** How the goto targets and attached labels of a compound statement split over its parts. */
  lemma Parts(s: Stmt, asWritten: bool)
    ensures s.If? && s.elseStmt.Some? ==>
      && Gotos(s) == Gotos(s.thenStmt) + Gotos(s.elseStmt.value)
      && Attached(s, asWritten) == Attached(s.thenStmt, asWritten) + Attached(s.elseStmt.value, asWritten)
    ensures s.If? && s.elseStmt.None? ==> Gotos(s) == Gotos(s.thenStmt) && Attached(s, asWritten) == Attached(s.thenStmt, asWritten)
    ensures s.While? ==> Gotos(s) == Gotos(s.body) && Attached(s, asWritten) == Attached(s.body, asWritten)
    ensures s.Labeled? ==>
      && Gotos(s) == Gotos(s.stmt)
      && (asWritten ==> Attached(s, asWritten) == Attached(s.stmt, asWritten))
      && (!asWritten ==> Attached(s, asWritten) == Attached(s.stmt, asWritten) + {s.name})
  {
  }

  lemma DeclaredSnoc(ls: seq<Local>, i: nat)
    requires i < |ls|
    ensures DeclaredIn(ls[..i + 1]) == DeclaredIn(ls[..i]) + Declared(ls[i])
  {
    assert ls[..i + 1][..i] == ls[..i];
  }

  // ---------------------------------------------------------------------------------
  // What a statement may change
  // ---------------------------------------------------------------------------------

  /** The parts of the innermost scope that statements change or rely on. */
  datatype Snapshot = Snapshot(binds: Bindings, forwards: map<string, bool>, queue: seq<string>, labelStmts: set<string>)

  function Snap(sc: Scope): Snapshot
    reads sc
  {
    Snapshot(sc.binds, sc.forwards, sc.queue, sc.labelStmts)
  }

  /**
   * From `a` to `b` the scope only gained plain variables, kept every binding it had,
   * its forward keys and routine queue, and attached exactly the labels `attached`.
   */
  predicate Grew(a: Snapshot, b: Snapshot, attached: set<string>) {
    && (forall c :: c in a.binds ==> c in b.binds && b.binds[c] == a.binds[c])
    && (forall c :: c in b.binds && c !in a.binds ==> b.binds[c].kind.Plain?)
    && b.forwards == a.forwards && b.queue == a.queue
    && b.labelStmts == a.labelStmts + attached
  }

  /** Every target is a label of the scope that is attached to a statement. */
  predicate Reaches(b: Snapshot, targets: set<string>) {
    forall l :: l in targets ==> l in b.binds && b.binds[l].kind.Label? && l in b.labelStmts
  }

  lemma GrewTrans(a: Snapshot, b: Snapshot, c: Snapshot, x: set<string>, y: set<string>)
    requires Grew(a, b, x) && Grew(b, c, y)
    ensures Grew(a, c, x + y)
  {
  }

  lemma GrewAfter(a: Snapshot, b: Snapshot, c: Snapshot, y: set<string>)
    requires Grew(a, b, {}) && Grew(b, c, y)
    ensures Grew(a, c, y)
  {
  }

  /** Binding one new plain variable, and nothing else, is growth with nothing attached. */
  lemma GrewByPlain(a: Snapshot, b: Snapshot, c: string, e: SymbolEntry)
    requires c !in a.binds && b.binds == a.binds[c := Binding(e, Plain)]
    requires b.forwards == a.forwards && b.queue == a.queue && b.labelStmts == a.labelStmts
    ensures Grew(a, b, {})
  {
  }

  lemma GrewSelf(a: Snapshot)
    ensures Grew(a, a, {}) && Reaches(a, {})
  {
  }

  lemma ReachesKept(b: Snapshot, c: Snapshot, t: set<string>, y: set<string>)
    requires Reaches(b, t) && Grew(b, c, y)
    ensures Reaches(c, t)
  {
  }

  lemma ReachesGrow(b: Snapshot, c: Snapshot, t: set<string>, u: set<string>, y: set<string>)
    requires Reaches(b, t) && Reaches(c, u) && Grew(b, c, y)
    ensures Reaches(c, t + u)
  {
  }

  // ---------------------------------------------------------------------------------
  // The parameters a block binds
  // ---------------------------------------------------------------------------------

  /**
   * The formal list `Block::sem` binds: the parent routine's function formals, or
   * failing those its procedure formals, found by the all-scopes search.
   */
  ghost function ParentFormals(st: SymbolTable): Result<Option<FormalList>>
    reads st, st.scopes
  {
    match st.GetParent()
    case Fail(e) => Fail(e)
    case Ok(p) =>
      var f := Innermost(FormalFrames(st.Frames(), false), p);
      Ok(if f.Some? then f else Innermost(FormalFrames(st.Frames(), true), p))
  }

  /** The outcome of binding those formals in the innermost scope. */
  ghost function BindOutcome(st: SymbolTable): Outcome
    reads st, st.scopes
    requires |st.scopes| > 0
  {
    match ParentFormals(st)
    case Fail(e) => Abort(e)
    case Ok(None) => Pass
    case Ok(Some(fl)) =>
      var e := ParamsEffect(Frame(st.Top().binds, st.Top().offset), Params(fl), st.Top().forwards.Keys);
      if e.Ok? then Pass else Abort(e.error)
  }

  /** The search `Block::sem` makes for the parent routine's formals; it changes nothing. */
  method FindParentFormals(st: SymbolTable, parent: string) returns (fl: Option<FormalList>)
    requires st.GetParent() == Ok(parent)
    ensures old(ParentFormals(st)) == Ok(fl)
    ensures st.scopes == old(st.scopes) && st.Frames() == old(st.Frames()) && st.Valid() == old(st.Valid())
  {
    fl := st.FormalsAll(parent, false);
    if fl.None? {
      fl := st.FormalsAll(parent, true);
    }
  }

  /** `Formal_list::sem` in the innermost scope, seen as a change of its snapshot. */
  method BindFormals(st: SymbolTable, fl: FormalList) returns (o: Outcome)
    requires st.Valid() && |st.scopes| > 0
    modifies st.Top()
    ensures st.Valid() && st.scopes == old(st.scopes)
    ensures var e := ParamsEffect(old(Frame(st.Top().binds, st.Top().offset)), Params(fl), old(st.Top().forwards.Keys));
      && o == (if e.Ok? then Pass else Abort(e.error))
      && (o.Pass? ==> Frame(st.Top().binds, st.Top().offset) == e.value)
    ensures o.Pass? ==> Grew(old(Snap(st.Top())), Snap(st.Top()), {})
  {
    var top := st.Top();
    ghost var f0, skip := Frame(top.binds, top.offset), top.forwards.Keys;
    o := FormalListSem(st, fl);
    ParamsEffectOk(f0, Params(fl), skip);
  }

  /** The first half of `Block::sem`: re-bind the parent routine's formals in the innermost scope. */
  method BindParentFormals(st: SymbolTable) returns (o: Outcome)
    requires st.Valid() && |st.scopes| > 0
    modifies st.Top()
    ensures st.Valid() && st.scopes == old(st.scopes)
    ensures o == old(BindOutcome(st))
    ensures o.Pass? ==> Grew(old(Snap(st.Top())), Snap(st.Top()), {})
  {
    var parent := st.GetParent();
    if parent.Fail? {
      return Abort(parent.error);
    }
    BindOutcomeOf(st);
    ghost var s0 := Snap(st.Top());
    var fl := FindParentFormals(st, parent.value);
    assert Snap(st.Top()) == s0;
    o := BindFound(st, fl);
  }

  /** Bind the formals the search found, if it found any. */
  method BindFound(st: SymbolTable, fl: Option<FormalList>) returns (o: Outcome)
    requires st.Valid() && |st.scopes| > 0
    modifies st.Top()
    ensures st.Valid() && st.scopes == old(st.scopes)
    ensures fl.None? ==> o == Pass
    ensures fl.Some? ==> var e := ParamsEffect(old(Frame(st.Top().binds, st.Top().offset)), Params(fl.value), old(st.Top().forwards.Keys));
      o == if e.Ok? then Pass else Abort(e.error)
    ensures o.Pass? ==> Grew(old(Snap(st.Top())), Snap(st.Top()), {})
  {
    if fl.None? {
      return Pass;
    }
    o := BindFormals(st, fl.value);
  }

  /** Once the search has found `fl`, the outcome of binding is that of binding `fl`. */
  lemma BindOutcomeOf(st: SymbolTable)
    requires |st.scopes| > 0 && ParentFormals(st).Ok?
    ensures var fl := ParentFormals(st).value; fl.None? ==> BindOutcome(st) == Pass
    ensures var fl := ParentFormals(st).value; fl.Some? ==>
      var e := ParamsEffect(Frame(st.Top().binds, st.Top().offset), Params(fl.value), st.Top().forwards.Keys);
      BindOutcome(st) == if e.Ok? then Pass else Abort(e.error)
  {
  }

  // ---------------------------------------------------------------------------------
  // Statements
  // ---------------------------------------------------------------------------------

  /**
   * `sem` of one statement. On success the scope only grew, every `goto` target is a
   * label attached to a statement, and the statement is well typed. Beyond that, a `goto` and a call decide exactly as
   * `Goto::sem` and `Call::sem` do, an inert statement always passes, and as written a
   * compound statement fails as soon as re-binding the formals fails.
   */
  method StmtSem(st: SymbolTable, s: Stmt, asWritten: bool) returns (o: Outcome)
    requires st.Valid() && |st.scopes| > 0
    modifies st.Top()
    ensures st.Valid() && st.scopes == old(st.scopes)
    ensures o.Pass? ==> Grew(old(Snap(st.Top())), Snap(st.Top()), Attached(s, asWritten))
    ensures o.Pass? ==> Reaches(Snap(st.Top()), Gotos(s))
    ensures o.Pass? ==> Checked(s)
    ensures Inert(s, asWritten) ==> o == Pass
    ensures s.Goto? ==> o == old(GotoSem(st, s.dest))
    ensures s.Call? ==> o == old(CallSpec(st, s.name, s.args))
    ensures s.Block? && asWritten && old(BindOutcome(st)).Abort? ==> o == old(BindOutcome(st))
    decreases s, 3
  {
    match s
    case If(_, _, _) =>
      o := IfSem(st, s, asWritten);
    case While(_, _) =>
      o := WhileSem(st, s, asWritten);
    case Block(ss) =>
      if asWritten {
        o := BlockSem(st, ss, asWritten);
      } else {
        o := StmtListSem(st, ss, asWritten);
      }
    case Labeled(_, _) =>
      o := LabeledSem(st, s, asWritten);
    case Assign(_, _) =>
      o := AssignStmt(st, s, asWritten);
      assert Attached(s, asWritten) == {} && Gotos(s) == {};
    case New(_, _) =>
      o := NewStmt(st, s, asWritten);
      GrewSelf(Snap(st.Top()));
      assert Attached(s, asWritten) == {} && Gotos(s) == {};
    case _ =>
      o := CheckStmt(st, s, asWritten);
  }

  /** `Assign::sem`, which may bind `result` in the innermost scope. */
  method AssignStmt(st: SymbolTable, s: Stmt, asWritten: bool) returns (o: Outcome)
    requires st.Valid() && |st.scopes| > 0 && s.Assign?
    modifies st.Top()
    ensures st.Valid() && st.scopes == old(st.scopes)
    ensures o.Pass? ==> Grew(old(Snap(st.Top())), Snap(st.Top()), {})
    ensures o.Pass? ==> s.target.ty != TypeResult ==> s.value.ty == s.target.ty
  {
    ghost var s0 := Snap(st.Top());
    ghost var found, ofs := st.FoundResult(), st.Top().offset;
    o := AssignSem(st, s.target, s.value);
    if o.Pass? {
      ghost var s1 := Snap(st.Top());
      if s.target.ty != TypeResult || found {
        assert s1 == s0;
        GrewSelf(s0);
      } else {
        assert "result" !in s0.binds;
        GrewByPlain(s0, s1, "result", SymbolEntry(s.value.ty, ofs));
      }
    }
  }

  /** `New::sem`, which records the allocated l-value in the innermost scope. */
  method NewStmt(st: SymbolTable, s: Stmt, asWritten: bool) returns (o: Outcome)
    requires st.Valid() && |st.scopes| > 0 && s.New?
    modifies st.Top()
    ensures st.Valid() && st.scopes == old(st.scopes)
    ensures o.Pass? ==> Snap(st.Top()) == old(Snap(st.Top()))
    ensures o.Pass? ==> Checked(s)
  {
    var result := st.Lookup("result");
    o := NewSem(st, s.target, s.size, result);
  }

  /** The statements whose analysis only checks: a call, `dispose`, `goto` and `return`. */
  method CheckStmt(st: SymbolTable, s: Stmt, asWritten: bool) returns (o: Outcome)
    requires |st.scopes| > 0 && (s.Call? || s.Dispose? || s.Goto? || s.Return?)
    ensures o.Pass? ==> Grew(old(Snap(st.Top())), Snap(st.Top()), Attached(s, asWritten))
    ensures o.Pass? ==> Reaches(Snap(st.Top()), Gotos(s))
    ensures o.Pass? ==> Checked(s)
    ensures s.Goto? ==> o == GotoSem(st, s.dest)
    ensures s.Call? ==> o == old(CallSpec(st, s.name, s.args))
    ensures s.Return? ==> o == Pass
  {
    var result := st.Lookup("result");
    match s {
      case Call(name, args) =>
        o := CallSem(st, name, args);
      case Dispose(target, brackets) =>
        o := DisposeSem(st, target, brackets, result);
      case Goto(l) =>
        o := GotoSem(st, l);
      case Return =>
        o := Pass;
    }
    assert Snap(st.Top()) == old(Snap(st.Top()));
    GrewSelf(Snap(st.Top()));
    assert Attached(s, asWritten) == {};
  }

  /** `If::sem`: the condition must be boolean; then both branches are analysed. */
  method IfSem(st: SymbolTable, s: Stmt, asWritten: bool) returns (o: Outcome)
    requires st.Valid() && |st.scopes| > 0 && s.If?
    modifies st.Top()
    ensures st.Valid() && st.scopes == old(st.scopes)
    ensures o.Pass? ==> Grew(old(Snap(st.Top())), Snap(st.Top()), Attached(s, asWritten))
    ensures o.Pass? ==> Reaches(Snap(st.Top()), Gotos(s))
    ensures o.Pass? ==> Checked(s)
    decreases s, 1
  {
    var result := st.Lookup("result");
    o := ConditionSem(s.cond, result);
    if o.Abort? {
      return;
    }
    if s.elseStmt.None? {
      o := StmtSem(st, s.thenStmt, asWritten);
    } else {
      o := BranchesSem(st, s, asWritten);
    }
    Parts(s, asWritten);
  }

  /** The two branches of an `if` with an `else`, analysed one after the other. */
  method BranchesSem(st: SymbolTable, s: Stmt, asWritten: bool) returns (o: Outcome)
    requires st.Valid() && |st.scopes| > 0 && s.If? && s.elseStmt.Some?
    modifies st.Top()
    ensures st.Valid() && st.scopes == old(st.scopes)
    ensures o.Pass? ==>
      && Grew(old(Snap(st.Top())), Snap(st.Top()), Attached(s.thenStmt, asWritten) + Attached(s.elseStmt.value, asWritten))
      && Reaches(Snap(st.Top()), Gotos(s.thenStmt) + Gotos(s.elseStmt.value))
      && Checked(s.thenStmt) && Checked(s.elseStmt.value)
    decreases s, 0
  {
    ghost var s0 := Snap(st.Top());
    o := StmtSem(st, s.thenStmt, asWritten);
    if o.Abort? {
      return;
    }
    ghost var s1 := Snap(st.Top());
    o := StmtSem(st, s.elseStmt.value, asWritten);
    if o.Pass? {
      GrewTrans(s0, s1, Snap(st.Top()), Attached(s.thenStmt, asWritten), Attached(s.elseStmt.value, asWritten));
      ReachesGrow(s1, Snap(st.Top()), Gotos(s.thenStmt), Gotos(s.elseStmt.value), Attached(s.elseStmt.value, asWritten));
    }
  }

  /** `While::sem`: the condition must be boolean; then the body is analysed once. */
  method WhileSem(st: SymbolTable, s: Stmt, asWritten: bool) returns (o: Outcome)
    requires st.Valid() && |st.scopes| > 0 && s.While?
    modifies st.Top()
    ensures st.Valid() && st.scopes == old(st.scopes)
    ensures o.Pass? ==> Grew(old(Snap(st.Top())), Snap(st.Top()), Attached(s, asWritten))
    ensures o.Pass? ==> Reaches(Snap(st.Top()), Gotos(s))
    ensures o.Pass? ==> Checked(s)
    decreases s, 0
  {
    var result := st.Lookup("result");
    o := ConditionSem(s.cond, result);
    if o.Abort? {
      return;
    }
    o := StmtSem(st, s.body, asWritten);
  }

  /**
   * `LabelStmt::sem`. As written it only analyses the statement, so no label is ever
   * attached; corrected, the label is attached once the statement has been analysed,
   * the point at which code generation registers the label's block. That covers jumps
   * back to an earlier labelled statement only: in `L: goto L`, and in a jump forward, the
   * label has no statement yet when the `goto` is analysed.
   */
  method LabeledSem(st: SymbolTable, s: Stmt, asWritten: bool) returns (o: Outcome)
    requires st.Valid() && |st.scopes| > 0 && s.Labeled?
    modifies st.Top()
    ensures st.Valid() && st.scopes == old(st.scopes)
    ensures o.Pass? ==> Grew(old(Snap(st.Top())), Snap(st.Top()), Attached(s, asWritten))
    ensures o.Pass? ==> Reaches(Snap(st.Top()), Gotos(s))
    ensures o.Pass? ==> Checked(s)
    ensures Inert(s.stmt, asWritten) ==> o == Pass
    decreases s, 0
  {
    ghost var s0 := Snap(st.Top());
    o := StmtSem(st, s.stmt, asWritten);
    Parts(s, asWritten);
    if o.Abort? || asWritten {
      return;
    }
    ghost var s1 := Snap(st.Top());
    st.InsertLabelStmt(s.name);
    GrewTrans(s0, s1, Snap(st.Top()), Attached(s.stmt, asWritten), {s.name});
    ReachesKept(s1, Snap(st.Top()), Gotos(s.stmt), {s.name});
  }

  /**
   * `Block::sem`: the parent routine's formals are bound in the innermost scope, then
   * the statements are analysed in order. A routine body's own block does this in both
   * variants; a nested compound statement does it only as written.
   */
  method BlockSem(st: SymbolTable, ss: seq<Stmt>, asWritten: bool) returns (o: Outcome)
    requires st.Valid() && |st.scopes| > 0
    modifies st.Top()
    ensures st.Valid() && st.scopes == old(st.scopes)
    ensures o.Pass? ==> Grew(old(Snap(st.Top())), Snap(st.Top()), AttachedIn(ss, asWritten))
    ensures o.Pass? ==> Reaches(Snap(st.Top()), GotosIn(ss))
    ensures o.Pass? ==> CheckedIn(ss)
    ensures old(BindOutcome(st)).Abort? ==> o == old(BindOutcome(st))
    decreases ss, 2
  {
    ghost var s0 := Snap(st.Top());
    o := BindParentFormals(st);
    if o.Abort? {
      return;
    }
    ghost var s1 := Snap(st.Top());
    o := StmtListSem(st, ss, asWritten);
    if o.Pass? {
      GrewAfter(s0, s1, Snap(st.Top()), AttachedIn(ss, asWritten));
    }
  }

  /** `Stmtlist::sem`: the statements in order, stopping at the first that fails. */
  method StmtListSem(st: SymbolTable, ss: seq<Stmt>, asWritten: bool) returns (o: Outcome)
    requires st.Valid() && |st.scopes| > 0
    modifies st.Top()
    ensures st.Valid() && st.scopes == old(st.scopes)
    ensures o.Pass? ==> Grew(old(Snap(st.Top())), Snap(st.Top()), AttachedIn(ss, asWritten))
    ensures o.Pass? ==> Reaches(Snap(st.Top()), GotosIn(ss))
    ensures o.Pass? ==> CheckedIn(ss)
    ensures InertIn(ss, asWritten) ==> o == Pass
    decreases ss, 1
  {
    ghost var s0 := Snap(st.Top());
    ListStart(s0, ss, asWritten);
    var i := 0;
    while i < |ss|
      invariant 0 <= i <= |ss|
      invariant st.Valid() && st.scopes == old(st.scopes)
      invariant Grew(s0, Snap(st.Top()), AttachedIn(ss[..i], asWritten))
      invariant Reaches(Snap(st.Top()), GotosIn(ss[..i]))
      invariant CheckedIn(ss[..i])
    {
      o := StmtStep(st, ss, i, asWritten, s0);
      if o.Abort? {
        return;
      }
      i := i + 1;
    }
    assert ss[..i] == ss;
    o := Pass;
  }

  /** The empty prefix of a list attaches nothing, reaches nothing and checks nothing. */
  lemma ListStart(a: Snapshot, ss: seq<Stmt>, asWritten: bool)
    ensures Grew(a, a, AttachedIn(ss[..0], asWritten)) && Reaches(a, GotosIn(ss[..0])) && CheckedIn(ss[..0])
  {
    assert ss[..0] == [];
    GrewSelf(a);
  }

  /** One statement of a list, extending what the statements before it established. */
  method StmtStep(st: SymbolTable, ss: seq<Stmt>, i: nat, asWritten: bool, ghost s0: Snapshot) returns (o: Outcome)
    requires st.Valid() && |st.scopes| > 0 && i < |ss|
    requires Grew(s0, Snap(st.Top()), AttachedIn(ss[..i], asWritten))
    requires Reaches(Snap(st.Top()), GotosIn(ss[..i]))
    requires CheckedIn(ss[..i])
    modifies st.Top()
    ensures st.Valid() && st.scopes == old(st.scopes)
    ensures o.Pass? ==> Grew(s0, Snap(st.Top()), AttachedIn(ss[..i + 1], asWritten))
    ensures o.Pass? ==> Reaches(Snap(st.Top()), GotosIn(ss[..i + 1]))
    ensures o.Pass? ==> CheckedIn(ss[..i + 1])
    ensures Inert(ss[i], asWritten) ==> o == Pass
    decreases ss, 0
  {
    ghost var before := Snap(st.Top());
    o := StmtSem(st, ss[i], asWritten);
    if o.Pass? {
      Extend(s0, before, Snap(st.Top()), ss, i, asWritten);
    }
  }

  /** What a list prefix established, extended by the statement that follows it. */
  lemma Extend(s0: Snapshot, b: Snapshot, c: Snapshot, ss: seq<Stmt>, i: nat, asWritten: bool)
    requires i < |ss|
    requires Grew(s0, b, AttachedIn(ss[..i], asWritten)) && Reaches(b, GotosIn(ss[..i])) && CheckedIn(ss[..i])
    requires Grew(b, c, Attached(ss[i], asWritten)) && Reaches(c, Gotos(ss[i])) && Checked(ss[i])
    ensures Grew(s0, c, AttachedIn(ss[..i + 1], asWritten))
    ensures Reaches(c, GotosIn(ss[..i + 1]))
    ensures CheckedIn(ss[..i + 1])
  {
    GotosSnoc(ss, i);
    GrewTrans(s0, b, c, AttachedIn(ss[..i], asWritten), Attached(ss[i], asWritten));
    ReachesGrow(b, c, GotosIn(ss[..i]), Gotos(ss[i]), Attached(ss[i], asWritten));
    assert ss[..i + 1] == ss[..i] + [ss[i]];
  }

  // ---------------------------------------------------------------------------------
  // Declarations and bodies
  // ---------------------------------------------------------------------------------

  /** Every label binding of `b` was a label binding of `a` or is one of `declared`. */
  predicate LabelsFrom(a: Bindings, b: Bindings, declared: set<string>) {
    forall c :: c in b && b[c].kind.Label? ==> (c in a && a[c].kind.Label?) || c in declared
  }

  lemma LabelsFromTrans(a: Bindings, b: Bindings, c: Bindings, x: set<string>, y: set<string>)
    requires LabelsFrom(a, b, x) && LabelsFrom(b, c, y)
    ensures LabelsFrom(a, c, x + y)
  {
  }

  /**
   * A routine's header, as written by `Procedure::sem` or `Function_not_from_llvm::sem`,
   * corrected by `AstDecl.HeaderSem`. It binds no label and attaches none.
   */
  method RoutineHeaderSem(st: SymbolTable, h: Header, asWritten: bool) returns (o: Outcome)
    requires st.Valid() && |st.scopes| > 0
    modifies st.Top()
    ensures st.Valid() && st.scopes == old(st.scopes)
    ensures asWritten && old(HeaderOutcome(st, h, true)).Abort? ==> o == old(HeaderOutcome(st, h, true))
    ensures !asWritten ==> o == old(HeaderOutcome(st, h, false))
    ensures o.Pass? ==> st.Top().labelStmts == old(st.Top().labelStmts)
    ensures o.Pass? ==> LabelsFrom(old(st.Top().binds), st.Top().binds, {})
  {
    if !asWritten {
      o := HeaderSem(st, h);
      return;
    }
    ghost var pending := Pending(st, h, true);
    ghost var f := HeaderFrame(st, h, pending);
    ghost var skip := HeaderForwards(st, h, pending).Keys;
    o := HeaderSemAsWritten(st, h);
    if o.Pass? && h.FuncHeader? && h.formals.Some? {
      ParamsEffectOk(f, Params(h.formals.value), skip);
    }
  }

  /**
   * `Local::sem`: a run of variable declarations, a label declaration, a routine
   * (header, then body) or a forward declaration. On success the innermost scope attaches
   * no label, and its only new label bindings are the labels this declaration declares.
   */
  method LocalSem(st: SymbolTable, l: Local, asWritten: bool) returns (o: Outcome)
    requires st.Valid() && |st.scopes| > 0
    modifies st, st.Top()
    ensures st.Valid() && st.scopes == old(st.scopes)
    ensures o.Pass? ==> st.Top().labelStmts == old(st.Top().labelStmts)
    ensures o.Pass? ==> LabelsFrom(old(st.Top().binds), st.Top().binds, Declared(l))
    ensures l.Labels? && o.Pass? ==> forall i :: 0 <= i < |l.ids| ==> st.IsLabel(l.ids[i])
    ensures l.Vars? || l.Labels? ==>
      (o.Pass? <==> Distinct(l.ids) && forall i :: 0 <= i < |l.ids| ==> l.ids[i] !in old(st.Top().binds))
    ensures l.Forward? ==> (o.Abort? <==> l.header.name in old(st.Top().binds))
    decreases l
  {
    match l
    case Vars(ids, t) =>
      o := DeclSem(st, ids, t);
    case Labels(ids) =>
      o := LabelSem(st, ids);
      if o.Pass? {
        assert forall c :: c in ids ==> c in Declared(l) by {
          forall c | c in ids ensures c in Declared(l) {
            var i :| 0 <= i < |ids| && ids[i] == c;
          }
        }
      }
    case Forward(h) =>
      o := HeaderSemFor(st, h);
    case Routine(h, b) =>
      o := RoutineSem(st, h, b, asWritten);
  }

  /** A routine: its header in the enclosing scope, then its body in a scope of its own. */
  method RoutineSem(st: SymbolTable, h: Header, b: Body, asWritten: bool) returns (o: Outcome)
    requires st.Valid() && |st.scopes| > 0
    modifies st, st.Top()
    ensures st.Valid() && st.scopes == old(st.scopes)
    ensures o.Pass? ==> st.Top().labelStmts == old(st.Top().labelStmts)
    ensures o.Pass? ==> LabelsFrom(old(st.Top().binds), st.Top().binds, {})
    decreases b, 1
  {
    o := RoutineHeaderSem(st, h, asWritten);
    if o.Abort? {
      return;
    }
    var size;
    ghost var inner;
    o, size, inner := BodySem(st, b, asWritten);
  }

  /**
   * `Body::sem`: open a scope, analyse the declarations and the block in it, record the
   * scope's size and close it. On success `inner` is the closed scope's bindings and
   * `size` their number; every `goto` target of the block is a label declared by the
   * body and attached to one of its labelled statements, so as written, where no label
   * is ever attached, a body with a `goto` never passes.
   */
  method BodySem(st: SymbolTable, b: Body, asWritten: bool) returns (o: Outcome, size: int, ghost inner: Bindings)
    requires st.Valid()
    modifies st
    ensures st.Valid() && st.scopes == old(st.scopes)
    ensures o.Pass? ==> size == |inner|
    ensures o.Pass? ==> forall t :: t in GotosIn(b.block) ==>
      && t in inner && inner[t].kind.Label?
      && t in DeclaredIn(b.locals)
      && t in AttachedIn(b.block, asWritten)
    ensures o.Pass? && asWritten ==> GotosIn(b.block) == {}
    ensures o.Pass? ==> CheckedIn(b.block)
    decreases b, 0
  {
    st.OpenScope();
    var top := st.Top();
    o := LocalsSem(st, b.locals, asWritten);
    size, inner := 0, map[];
    if o.Abort? {
      st.CloseScope();
      return;
    }
    ghost var s1 := Snap(top);
    o := BlockSem(st, b.block, asWritten);
    if o.Pass? {
      size := st.GetSizeOfCurrentScope();
      inner := top.binds;
      forall t | t in GotosIn(b.block) ensures t in DeclaredIn(b.locals) {
        assert t in s1.binds;
      }
    }
    st.CloseScope();
  }

  /** `Local_list::sem` in a scope just opened: the declarations in order. */
  method LocalsSem(st: SymbolTable, ls: seq<Local>, asWritten: bool) returns (o: Outcome)
    requires st.Valid() && |st.scopes| > 0
    requires st.Top().labelStmts == {} && st.Top().binds == map[]
    modifies st, st.Top()
    ensures st.Valid() && st.scopes == old(st.scopes)
    ensures o.Pass? ==> st.Top().labelStmts == {}
    ensures o.Pass? ==> LabelsFrom(map[], st.Top().binds, DeclaredIn(ls))
    decreases ls
  {
    var i := 0;
    while i < |ls|
      invariant 0 <= i <= |ls|
      invariant st.Valid() && st.scopes == old(st.scopes)
      invariant st.Top().labelStmts == {}
      invariant LabelsFrom(map[], st.Top().binds, DeclaredIn(ls[..i]))
    {
      ghost var before := st.Top().binds;
      o := LocalSem(st, ls[i], asWritten);
      if o.Abort? {
        return;
      }
      DeclaredSnoc(ls, i);
      LabelsFromTrans(map[], before, st.Top().binds, DeclaredIn(ls[..i]), Declared(ls[i]));
      i := i + 1;
    }
    assert ls[..i] == ls;
    o := Pass;
  }

  // ---------------------------------------------------------------------------------
  // Two programs that show the corrected defects
  // ---------------------------------------------------------------------------------

  /** A fresh table whose one scope has declared the label `L`. */
  method LabelL() returns (st: SymbolTable)
    ensures st.Valid() && |st.scopes| == 1 && fresh(st) && fresh(st.Top())
    ensures st.IsLabel("L") && st.Top().labelStmts == {}
  {
    st := FreshTable();
    var d := LabelSem(st, ["L"]);
    assert d.Pass? by {
      assert Distinct(["L"]);
    }
    assert st.IsLabel(["L"][0]);
  }

  /**
   * `label L; ... L: return; goto L` in one scope. As written the labelled statement
   * attaches nothing, so the backward jump to a completed labelled statement is fatal.
   */
  method BackwardGotoAsWritten() returns (o: Outcome)
    ensures o == Abort(LabelWithoutStatement("L"))
  {
    var st := LabelL();
    ghost var s0 := Snap(st.Top());
    var a := StmtSem(st, Labeled("L", Return), true);
    assert Inert(Labeled("L", Return), true) && Attached(Labeled("L", Return), true) == {};
    assert st.IsLabel("L") && !st.LabelHasStmt("L");
    o := StmtSem(st, Goto("L"), true);
  }

  /** Corrected, the label is attached once its statement is analysed and the jump passes. */
  method BackwardGotoCorrected() returns (o: Outcome)
    ensures o == Pass
  {
    var st := LabelL();
    ghost var s0 := Snap(st.Top());
    var a := StmtSem(st, Labeled("L", Return), false);
    assert Inert(Labeled("L", Return), false) && Attached(Labeled("L", Return), false) == {"L"};
    assert st.IsLabel("L") && st.LabelHasStmt("L");
    o := StmtSem(st, Goto("L"), false);
  }

  /**
   * A table inside the body of `procedure p(x: integer)`: `p` is declared in the outer
   * scope and its body's own block has bound `x` in the inner one.
   */
  method InsideProcedure() returns (st: SymbolTable)
    ensures st.Valid() && |st.scopes| == 2 && fresh(st) && fresh(st.Top())
    ensures BindOutcome(st) == Abort(DuplicateVariable("x"))
  {
    var fl := Single(IntDesc, ByValue);
    UnaryParams("p");
    assert Params(fl) == [("x", TypeInt)];
    st := EnterProcedureBody(fl);
    var top := st.Top();
    var o := BindFormals(st, fl);
    assert [("x", TypeInt)][..0] == [];
    assert top.binds.Keys == {"x"};
    ParentIsP(st, fl);
    assert ParamsEffect(Frame(top.binds, top.offset), [("x", TypeInt)], {}) == Fail(DuplicateVariable("x"));
  }

  /** `procedure p(fl)` declared in a fresh table, and the scope of its body opened. */
  method EnterProcedureBody(fl: FormalList) returns (st: SymbolTable)
    ensures st.Valid() && |st.scopes| == 2 && fresh(st) && fresh(st.Top())
    ensures st.Top().binds == map[] && st.Top().forwards == map[]
    ensures st.scopes[0].queue != [] && st.scopes[0].queue[|st.scopes[0].queue| - 1] == "p"
    ensures "p" in st.scopes[0].binds && st.scopes[0].binds["p"].kind == Proc(Some(fl))
  {
    st := FreshTable();
    var o := st.InsertProcedure("p", TypeProc, Some(fl), false);
    st.OpenScope();
  }

  /** The parent of a two-scope table whose outer scope last declared `p(fl)` is `p`. */
  lemma ParentIsP(st: SymbolTable, fl: FormalList)
    requires |st.scopes| == 2 && st.scopes[0].queue != [] && st.scopes[0].queue[|st.scopes[0].queue| - 1] == "p"
    requires "p" in st.scopes[0].binds && st.scopes[0].binds["p"].kind == Proc(Some(fl))
    requires "p" !in st.scopes[1].binds
    ensures st.GetParent() == Ok("p") && ParentFormals(st) == Ok(Some(fl))
  {
    HomeAt(FormalFrames(st.Frames(), true), "p", 0);
    HomeIsInnermost(FormalFrames(st.Frames(), false), "p");
  }

  /** As written, an empty compound statement in that body binds `x` again and is fatal. */
  method NestedBlockAsWritten() returns (o: Outcome)
    ensures o == Abort(DuplicateVariable("x"))
  {
    var st := InsideProcedure();
    o := StmtSem(st, Block([]), true);
  }

  /** Corrected, the nested compound statement binds nothing and passes. */
  method NestedBlockCorrected() returns (o: Outcome)
    ensures o == Pass
  {
    var st := InsideProcedure();
    o := StmtSem(st, Block([]), false);
  }
}
