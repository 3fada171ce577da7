/**
 * `Library::init` (include/sem_lib.hpp): before a program is analysed, the runtime
 * library's procedures and functions are entered into the current scope of the symbol
 * table, one fixed insertion after another. Every library formal is a single parameter
 * named `dummy4207210396`, built with the two-argument `Formal` constructor, so its pass
 * mode is unset; `writeString` and `readString` take a character array of size -1.
 */
module SemLib {
  import opened PclBase
  import opened Symbol
  import AstTypes

  /** One library routine as `init` registers it. Procedures get the type `TYPE_proc`. */
  datatype Signature = Signature(name: string, isProc: bool, result: Types, formals: FormalList)

  /** The one-parameter formal group every library routine uses. */
  function Param(ty: TypeDesc): Formal {
    Formal(["dummy4207210396"], ty, Unset)
  }

  /** The output procedures, registered first. */
  const OutputRoutines: seq<Signature> := [
    Signature("writeInteger", true, TypeProc, [Param(IntDesc)]),
    Signature("writeBoolean", true, TypeProc, [Param(BoolDesc)]),
    Signature("writeChar", true, TypeProc, [Param(CharDesc)]),
    Signature("writeReal", true, TypeProc, [Param(RealDesc)]),
    Signature("writeString", true, TypeProc, [Param(ArrayDesc(TypeChar, -1))])]

  /** The input routines: four functions without formals, then the procedure `readString`. */
  const InputRoutines: seq<Signature> := [
    Signature("readInteger", false, TypeInt, []),
    Signature("readBoolean", false, TypeBool, []),
    Signature("readChar", false, TypeChar, []),
    Signature("readReal", false, TypeReal, []),
    Signature("readString", true, TypeProc, [Param(IntDesc), Param(ArrayDesc(TypeChar, -1))])]

  /** The first arithmetic functions. */
  const MathRoutines: seq<Signature> := [
    Signature("abs", false, TypeInt, [Param(IntDesc)]),
    Signature("fabs", false, TypeReal, [Param(RealDesc)]),
    Signature("sqrt", false, TypeReal, [Param(RealDesc)]),
    Signature("sin", false, TypeReal, [Param(RealDesc)]),
    Signature("cos", false, TypeReal, [Param(RealDesc)])]

  /** The remaining arithmetic functions; `pi` takes no argument. */
  const MoreMathRoutines: seq<Signature> := [
    Signature("tan", false, TypeReal, [Param(RealDesc)]),
    Signature("arctan", false, TypeReal, [Param(RealDesc)]),
    Signature("exp", false, TypeReal, [Param(RealDesc)]),
    Signature("ln", false, TypeReal, [Param(RealDesc)]),
    Signature("pi", false, TypeReal, [])]

  /** The conversion functions, registered last. */
  const ConversionRoutines: seq<Signature> := [
    Signature("trunc", false, TypeInt, [Param(RealDesc)]),
    Signature("round", false, TypeInt, [Param(RealDesc)]),
    Signature("ord", false, TypeInt, [Param(CharDesc)]),
    Signature("chr", false, TypeChar, [Param(IntDesc)])]

  /** Every registration of `init`, in the order it performs them. */
  const Library: seq<Signature> :=
    OutputRoutines + InputRoutines + MathRoutines + MoreMathRoutines + ConversionRoutines

  /** The routine names of a list of registrations, in order. */
  function NamesOf(sigs: seq<Signature>): (r: seq<string>)
    ensures |r| == |sigs| && forall i :: 0 <= i < |sigs| ==> r[i] == sigs[i].name
  {
    seq(|sigs|, i requires 0 <= i < |sigs| => sigs[i].name)
  }

  /** The kind a registration gives its name: a procedure or a function, always with its formals. */
  function KindOf(s: Signature): Kind {
    if s.isProc then Proc(Some(s.formals)) else Func(Some(s.formals))
  }

  /** What the successive insertions do to a scope's bindings, starting at offset `ofs`. */
  function BindAll(n: Bindings, sigs: seq<Signature>, ofs: int): Bindings {
    if sigs == [] then n
    else
      var s := sigs[|sigs| - 1];
      BindAll(n, sigs[..|sigs| - 1], ofs)[s.name := Binding(SymbolEntry(s.result, ofs + |sigs| - 1), KindOf(s))]
  }

  /** What the successive insertions do to the forward map: a `false` key per routine. */
  function Unforward(fw: map<string, bool>, ns: seq<string>): (r: map<string, bool>)
    ensures forall c :: c in r <==> c in fw || c in ns
    ensures forall c :: c in ns ==> r[c] == false
    ensures forall c :: c in fw && c !in ns ==> r[c] == fw[c]
  {
    if ns == [] then fw else Unforward(fw, ns[..|ns| - 1])[ns[|ns| - 1] := false]
  }

  /** The insertions bind exactly the registered names, on top of what was bound. */
  lemma {:induction false} BindAllKeys(n: Bindings, sigs: seq<Signature>, ofs: int, c: string)
    ensures c in BindAll(n, sigs, ofs) <==> c in n || c in NamesOf(sigs)
  {
    if sigs != [] {
      BindAllKeys(n, sigs[..|sigs| - 1], ofs, c);
    }
  }

  /**
   * `s` is bound at offset `ofs` with its result type, as a procedure or as a function
   * (not as a label), with its formal list.
   */
  predicate Installed(b: Bindings, s: Signature, ofs: int) {
    s.name in b && b[s.name] == Binding(SymbolEntry(s.result, ofs), KindOf(s))
  }

  /**
   * After the insertions of duplicate-free registrations, the `i`-th routine is installed at
   * offset `ofs + i`.
   */
  lemma {:induction false} BindAllReadsBack(n: Bindings, sigs: seq<Signature>, ofs: int, i: nat)
    requires Distinct(NamesOf(sigs)) && i < |sigs|
    ensures Installed(BindAll(n, sigs, ofs), sigs[i], ofs + i)
  {
    var init, last := sigs[..|sigs| - 1], sigs[|sigs| - 1];
    if i < |sigs| - 1 {
      assert NamesOf(sigs)[i] != NamesOf(sigs)[|sigs| - 1];
      assert NamesOf(init) == NamesOf(sigs)[..|sigs| - 1];
      BindAllReadsBack(n, init, ofs, i);
    }
  }

  /** The names of the output, input and remaining registrations, in registration order. */
  const WriteNames: seq<string> := ["writeInteger", "writeBoolean", "writeChar", "writeReal", "writeString"]
  const ReadNames: seq<string> := ["readInteger", "readBoolean", "readChar", "readReal", "readString"]
  const OtherNames: seq<string> := [
    "abs", "fabs", "sqrt", "sin", "cos", "tan", "arctan", "exp", "ln", "pi",
    "trunc", "round", "ord", "chr"]

  lemma LibraryNames()
    ensures NamesOf(Library) == WriteNames + ReadNames + OtherNames
  {
  }

  /** Appending two duplicate-free lists with no name in common gives a duplicate-free list. */
  lemma DistinctAppend(a: seq<string>, b: seq<string>)
    requires Distinct(a) && Distinct(b)
    requires forall i, j :: 0 <= i < |a| && 0 <= j < |b| ==> a[i] != b[j]
    ensures Distinct(a + b)
  {
    forall i, j | 0 <= i < j < |a + b| ensures (a + b)[i] != (a + b)[j] {
      if j < |a| {
        assert a[i] != a[j];
      } else if i >= |a| {
        assert b[i - |a|] != b[j - |a|];
      } else {
        assert a[i] != b[j - |a|];
      }
    }
  }

  lemma OtherNamesDistinct()
    ensures Distinct(OtherNames)
  {
  }

  /**
   * The output and input names differ in their first letter, and both are longer than any
   * other library name.
   */
  lemma NamesDistinct()
    ensures Distinct(WriteNames + ReadNames + OtherNames)
  {
    assert Distinct(WriteNames) && Distinct(ReadNames);
    assert forall i :: 0 <= i < 5 ==> WriteNames[i][0] == 'w' && ReadNames[i][0] == 'r';
    DistinctAppend(WriteNames, ReadNames);
    OtherNamesDistinct();
    assert forall i :: 0 <= i < 10 ==> |(WriteNames + ReadNames)[i]| >= 8;
    assert forall j :: 0 <= j < 14 ==> |OtherNames[j]| <= 6;
    DistinctAppend(WriteNames + ReadNames, OtherNames);
  }

  /** The 24 library names are pairwise distinct. */
  lemma LibraryDistinct()
    ensures |Library| == 24 && Distinct(NamesOf(Library))
  {
    LibraryNames();
    NamesDistinct();
  }

  /** The registered names are exactly the names `isLibFunc` recognises. */
  lemma LibraryIsLibFunc()
    ensures forall c :: c in NamesOf(Library) <==> AstTypes.IsLibFunc(c)
  {
    LibraryNames();
  }

  /**
   * The procedures are exactly the routines typed `TYPE_proc`, and every formal group holds
   * one name, so each library routine takes one argument per formal group.
   */
  lemma LibraryShapes()
    ensures forall i :: 0 <= i < |Library| ==> (Library[i].isProc <==> Library[i].result == TypeProc)
    ensures forall i :: 0 <= i < |Library| ==> Arity(Library[i].formals) == |Library[i].formals|
  {
  }

  /** A snapshot of the parts of a scope that the insertions change. */
  datatype Snapshot = Snapshot(binds: Bindings, offset: int, queue: seq<string>, forwards: map<string, bool>)

  function Snap(top: Scope): Snapshot
    reads top
  {
    Snapshot(top.binds, top.offset, top.queue, top.forwards)
  }

  /**
   * A successful registration: `s` is bound at the current offset as a procedure or a
   * function with its formals, the offset advances, `s` joins the routine queue and gets a
   * `false` forward key.
   */
  function Apply(p: Snapshot, s: Signature): Snapshot {
    Snapshot(p.binds[s.name := Binding(SymbolEntry(s.result, p.offset), KindOf(s))],
             p.offset + 1, p.queue + [s.name], p.forwards[s.name := false])
  }

  /** One registration on a scope snapshot, or the duplicate error it stops with. */
  function Next(r: Result<Snapshot>, s: Signature): Result<Snapshot> {
    match r
    case Fail(e) => Fail(e)
    case Ok(p) => if s.name in p.binds then Fail(DuplicateVariable(s.name)) else Ok(Apply(p, s))
  }

  /** How an insertion's outcome and the scope it leaves are compared with `Next`. */
  function Effect(o: Outcome, p: Snapshot): Result<Snapshot> {
    if o.Pass? then Ok(p) else Fail(o.error)
  }

  /** The registrations `sigs`, first to last, starting from `r`. */
  function Run(r: Result<Snapshot>, sigs: seq<Signature>): Result<Snapshot>
    decreases |sigs|
  {
    if sigs == [] then r else Run(Next(r, sigs[0]), sigs[1..])
  }

  lemma {:induction false} RunSnoc(r: Result<Snapshot>, sigs: seq<Signature>, s: Signature)
    ensures Run(r, sigs + [s]) == Next(Run(r, sigs), s)
    decreases |sigs|
  {
    if sigs != [] {
      assert (sigs + [s])[1..] == sigs[1..] + [s];
      RunSnoc(Next(r, sigs[0]), sigs[1..], s);
    }
  }

  lemma {:induction false} RunAppend(r: Result<Snapshot>, a: seq<Signature>, b: seq<Signature>)
    ensures Run(r, a + b) == Run(Run(r, a), b)
    decreases |a|
  {
    if a != [] {
      assert (a + b)[1..] == a[1..] + b;
      RunAppend(Next(r, a[0]), a[1..], b);
    } else {
      assert a + b == b;
    }
  }

  /** A failed registration keeps its error through the rest. */
  lemma {:induction false} RunFailed(e: Fatal, sigs: seq<Signature>)
    ensures Run(Fail(e), sigs) == Fail(e)
    decreases |sigs|
  {
    if sigs != [] {
      RunFailed(e, sigs[1..]);
    }
  }

  /** The closed form of `Run` for a successful run of `sigs` from `s0`. */
  function Registered(s0: Snapshot, sigs: seq<Signature>): Snapshot {
    Snapshot(BindAll(s0.binds, sigs, s0.offset), s0.offset + |sigs|, s0.queue + NamesOf(sigs), Unforward(s0.forwards, NamesOf(sigs)))
  }

  /** Registering one more routine extends the closed form by one `Apply`. */
  lemma ApplyRegistered(s0: Snapshot, sigs: seq<Signature>)
    requires sigs != []
    ensures Registered(s0, sigs) == Apply(Registered(s0, sigs[..|sigs| - 1]), sigs[|sigs| - 1])
  {
    var init, last := sigs[..|sigs| - 1], sigs[|sigs| - 1];
    var ns := NamesOf(sigs);
    assert ns == NamesOf(init) + [last.name];
  }

  /**
   * A run that succeeds binds the routines in order at the next offsets, appends them to
   * the routine queue and gives each a `false` forward key.
   */
  lemma {:induction false} RunValue(s0: Snapshot, sigs: seq<Signature>)
    requires Run(Ok(s0), sigs).Ok?
    ensures Run(Ok(s0), sigs).value == Registered(s0, sigs)
  {
    if sigs != [] {
      var init, last := sigs[..|sigs| - 1], sigs[|sigs| - 1];
      assert sigs == init + [last];
      RunSnoc(Ok(s0), init, last);
      if Run(Ok(s0), init).Fail? {
        RunFailed(Run(Ok(s0), init).error, [last]);
      }
      RunValue(s0, init);
      ApplyRegistered(s0, sigs);
    }
  }

  /**
   * For duplicate-free registrations, the run succeeds exactly when none of the names was
   * bound at the start.
   */
  lemma {:induction false} RunSucceeds(s0: Snapshot, sigs: seq<Signature>)
    requires Distinct(NamesOf(sigs))
    ensures Run(Ok(s0), sigs).Ok? <==> forall i :: 0 <= i < |sigs| ==> sigs[i].name !in s0.binds
  {
    if sigs != [] {
      var init, last := sigs[..|sigs| - 1], sigs[|sigs| - 1];
      assert sigs == init + [last];
      RunSnoc(Ok(s0), init, last);
      assert NamesOf(init) == NamesOf(sigs)[..|sigs| - 1];
      RunSucceeds(s0, init);
      if Run(Ok(s0), init).Ok? {
        RunValue(s0, init);
        assert last.name !in NamesOf(init) by {
          forall j | 0 <= j < |init| ensures NamesOf(init)[j] != last.name {
            assert NamesOf(sigs)[j] != NamesOf(sigs)[|sigs| - 1];
          }
        }
        BindAllKeys(s0.binds, init, s0.offset, last.name);
      }
    }
  }

  /** A run that fails stops at a routine whose name was bound at the start. */
  lemma {:induction false} RunFailure(s0: Snapshot, sigs: seq<Signature>)
    requires Distinct(NamesOf(sigs)) && Run(Ok(s0), sigs).Fail?
    ensures exists i :: (0 <= i < |sigs| && sigs[i].name in s0.binds &&
                         Run(Ok(s0), sigs).error == DuplicateVariable(sigs[i].name))
  {
    var init, last := sigs[..|sigs| - 1], sigs[|sigs| - 1];
    assert sigs == init + [last];
    RunSnoc(Ok(s0), init, last);
    assert NamesOf(init) == NamesOf(sigs)[..|sigs| - 1];
    if Run(Ok(s0), init).Fail? {
      RunFailure(s0, init);
      var i :| 0 <= i < |init| && init[i].name in s0.binds && Run(Ok(s0), init).error == DuplicateVariable(init[i].name);
      assert sigs[i] == init[i];
    } else {
      RunValue(s0, init);
      assert last.name !in NamesOf(init) by {
        forall j | 0 <= j < |init| ensures NamesOf(init)[j] != last.name {
          assert NamesOf(sigs)[j] != NamesOf(sigs)[|sigs| - 1];
        }
      }
      BindAllKeys(s0.binds, init, s0.offset, last.name);
      assert sigs[|sigs| - 1] == last;
    }
  }

  /**
   * One line of `init`: `insertProcedure(name, TYPE_proc, formals, false)` for a procedure,
   * `insertFunction(name, type, formals, false)` for a function. It fails on a name the
   * scope already binds, and otherwise registers the routine as `Apply` describes.
   */
  method Insert(st: SymbolTable, s: Signature) returns (o: Outcome)
    requires st.Valid() && |st.scopes| > 0 && (s.isProc ==> s.result == TypeProc)
    modifies st.Top()
    ensures st.Valid() && st.scopes == old(st.scopes)
    ensures o.Abort? <==> s.name in old(st.Top().binds)
    ensures o.Abort? ==> o.error == DuplicateVariable(s.name)
    ensures o.Pass? ==> Snap(st.Top()) == Apply(old(Snap(st.Top())), s)
  {
    if s.isProc {
      o := st.InsertProcedure(s.name, TypeProc, Some(s.formals), false);
    } else {
      o := st.InsertFunction(s.name, s.result, Some(s.formals), false);
    }
  }

  /** The same insertion, stated as one step of `Run`. */
  method Register(st: SymbolTable, s: Signature) returns (o: Outcome)
    requires st.Valid() && |st.scopes| > 0 && (s.isProc ==> s.result == TypeProc)
    modifies st.Top()
    ensures st.Valid() && st.scopes == old(st.scopes)
    ensures Effect(o, Snap(st.Top())) == Next(Ok(old(Snap(st.Top()))), s)
  {
    ghost var p := Snap(st.Top());
    o := Insert(st, s);
    assert Next(Ok(p), s) == if s.name in p.binds then Fail(DuplicateVariable(s.name)) else Ok(Apply(p, s));
  }

  lemma UnrollOutput(r: Result<Snapshot>)
    ensures Run(r, OutputRoutines) == Next(Next(Next(Next(Next(r, OutputRoutines[0]), OutputRoutines[1]), OutputRoutines[2]), OutputRoutines[3]), OutputRoutines[4])
  {
    assert OutputRoutines[0..][1..] == OutputRoutines[1..];
    assert OutputRoutines[1..][1..] == OutputRoutines[2..];
    assert OutputRoutines[2..][1..] == OutputRoutines[3..];
    assert OutputRoutines[3..][1..] == OutputRoutines[4..];
    assert OutputRoutines[4..][1..] == OutputRoutines[5..];
  }

  /** The output procedures `writeInteger` … `writeString` (the first five insertions). */
  method RegisterOutput(st: SymbolTable) returns (o: Outcome)
    requires st.Valid() && |st.scopes| > 0
    modifies st.Top()
    ensures st.Valid() && st.scopes == old(st.scopes)
    ensures Effect(o, Snap(st.Top())) == Run(Ok(old(Snap(st.Top()))), OutputRoutines)
  {
    UnrollOutput(Ok(Snap(st.Top())));
    o := Register(st, OutputRoutines[0]);
    if o.Abort? { return; }
    o := Register(st, OutputRoutines[1]);
    if o.Abort? { return; }
    o := Register(st, OutputRoutines[2]);
    if o.Abort? { return; }
    o := Register(st, OutputRoutines[3]);
    if o.Abort? { return; }
    o := Register(st, OutputRoutines[4]);
  }

  lemma UnrollInput(r: Result<Snapshot>)
    ensures Run(r, InputRoutines) == Next(Next(Next(Next(Next(r, InputRoutines[0]), InputRoutines[1]), InputRoutines[2]), InputRoutines[3]), InputRoutines[4])
  {
    assert InputRoutines[0..][1..] == InputRoutines[1..];
    assert InputRoutines[1..][1..] == InputRoutines[2..];
    assert InputRoutines[2..][1..] == InputRoutines[3..];
    assert InputRoutines[3..][1..] == InputRoutines[4..];
    assert InputRoutines[4..][1..] == InputRoutines[5..];
  }

  /** The input routines `readInteger` … `readString`. */
  method RegisterInput(st: SymbolTable) returns (o: Outcome)
    requires st.Valid() && |st.scopes| > 0
    modifies st.Top()
    ensures st.Valid() && st.scopes == old(st.scopes)
    ensures Effect(o, Snap(st.Top())) == Run(Ok(old(Snap(st.Top()))), InputRoutines)
  {
    UnrollInput(Ok(Snap(st.Top())));
    o := Register(st, InputRoutines[0]);
    if o.Abort? { return; }
    o := Register(st, InputRoutines[1]);
    if o.Abort? { return; }
    o := Register(st, InputRoutines[2]);
    if o.Abort? { return; }
    o := Register(st, InputRoutines[3]);
    if o.Abort? { return; }
    o := Register(st, InputRoutines[4]);
  }

  lemma UnrollMath(r: Result<Snapshot>)
    ensures Run(r, MathRoutines) == Next(Next(Next(Next(Next(r, MathRoutines[0]), MathRoutines[1]), MathRoutines[2]), MathRoutines[3]), MathRoutines[4])
  {
    assert MathRoutines[0..][1..] == MathRoutines[1..];
    assert MathRoutines[1..][1..] == MathRoutines[2..];
    assert MathRoutines[2..][1..] == MathRoutines[3..];
    assert MathRoutines[3..][1..] == MathRoutines[4..];
    assert MathRoutines[4..][1..] == MathRoutines[5..];
  }

  /** The functions `abs`, `fabs`, `sqrt`, `sin` and `cos`. */
  method RegisterMath(st: SymbolTable) returns (o: Outcome)
    requires st.Valid() && |st.scopes| > 0
    modifies st.Top()
    ensures st.Valid() && st.scopes == old(st.scopes)
    ensures Effect(o, Snap(st.Top())) == Run(Ok(old(Snap(st.Top()))), MathRoutines)
  {
    UnrollMath(Ok(Snap(st.Top())));
    o := Register(st, MathRoutines[0]);
    if o.Abort? { return; }
    o := Register(st, MathRoutines[1]);
    if o.Abort? { return; }
    o := Register(st, MathRoutines[2]);
    if o.Abort? { return; }
    o := Register(st, MathRoutines[3]);
    if o.Abort? { return; }
    o := Register(st, MathRoutines[4]);
  }

  lemma UnrollMoreMath(r: Result<Snapshot>)
    ensures Run(r, MoreMathRoutines) == Next(Next(Next(Next(Next(r, MoreMathRoutines[0]), MoreMathRoutines[1]), MoreMathRoutines[2]), MoreMathRoutines[3]), MoreMathRoutines[4])
  {
    assert MoreMathRoutines[0..][1..] == MoreMathRoutines[1..];
    assert MoreMathRoutines[1..][1..] == MoreMathRoutines[2..];
    assert MoreMathRoutines[2..][1..] == MoreMathRoutines[3..];
    assert MoreMathRoutines[3..][1..] == MoreMathRoutines[4..];
    assert MoreMathRoutines[4..][1..] == MoreMathRoutines[5..];
  }

  /** The functions `tan`, `arctan`, `exp`, `ln` and `pi`. */
  method RegisterMoreMath(st: SymbolTable) returns (o: Outcome)
    requires st.Valid() && |st.scopes| > 0
    modifies st.Top()
    ensures st.Valid() && st.scopes == old(st.scopes)
    ensures Effect(o, Snap(st.Top())) == Run(Ok(old(Snap(st.Top()))), MoreMathRoutines)
  {
    UnrollMoreMath(Ok(Snap(st.Top())));
    o := Register(st, MoreMathRoutines[0]);
    if o.Abort? { return; }
    o := Register(st, MoreMathRoutines[1]);
    if o.Abort? { return; }
    o := Register(st, MoreMathRoutines[2]);
    if o.Abort? { return; }
    o := Register(st, MoreMathRoutines[3]);
    if o.Abort? { return; }
    o := Register(st, MoreMathRoutines[4]);
  }

  lemma UnrollConversions(r: Result<Snapshot>)
    ensures Run(r, ConversionRoutines) == Next(Next(Next(Next(r, ConversionRoutines[0]), ConversionRoutines[1]), ConversionRoutines[2]), ConversionRoutines[3])
  {
    assert ConversionRoutines[0..][1..] == ConversionRoutines[1..];
    assert ConversionRoutines[1..][1..] == ConversionRoutines[2..];
    assert ConversionRoutines[2..][1..] == ConversionRoutines[3..];
    assert ConversionRoutines[3..][1..] == ConversionRoutines[4..];
  }

  /** The conversion functions `trunc`, `round`, `ord` and `chr`. */
  method RegisterConversions(st: SymbolTable) returns (o: Outcome)
    requires st.Valid() && |st.scopes| > 0
    modifies st.Top()
    ensures st.Valid() && st.scopes == old(st.scopes)
    ensures Effect(o, Snap(st.Top())) == Run(Ok(old(Snap(st.Top()))), ConversionRoutines)
  {
    UnrollConversions(Ok(Snap(st.Top())));
    o := Register(st, ConversionRoutines[0]);
    if o.Abort? { return; }
    o := Register(st, ConversionRoutines[1]);
    if o.Abort? { return; }
    o := Register(st, ConversionRoutines[2]);
    if o.Abort? { return; }
    o := Register(st, ConversionRoutines[3]);
  }

  /** The library table run stage by stage. */
  lemma RunLibrary(r: Result<Snapshot>)
    ensures Run(r, Library) ==
      Run(Run(Run(Run(Run(r, OutputRoutines), InputRoutines), MathRoutines), MoreMathRoutines), ConversionRoutines)
  {
    var a := OutputRoutines + InputRoutines;
    RunAppend(r, a + MathRoutines + MoreMathRoutines, ConversionRoutines);
    RunAppend(r, a + MathRoutines, MoreMathRoutines);
    RunAppend(r, a, MathRoutines);
    RunAppend(r, OutputRoutines, InputRoutines);
  }

  /**
   * `init()`: the 24 insertions, in order. Its effect on the current scope is `Run` over the
   * library table: the duplicate error of the first library name already bound there, or
   * the scope with every routine registered.
   */
  method Init(st: SymbolTable) returns (o: Outcome)
    requires st.Valid() && |st.scopes| > 0
    modifies st.Top()
    ensures st.Valid() && st.scopes == old(st.scopes)
    ensures Effect(o, Snap(st.Top())) == Run(Ok(old(Snap(st.Top()))), Library)
  {
    ghost var r0 := Ok(Snap(st.Top()));
    o := RegisterOutput(st);
    if o.Abort? {
      RunFailed(o.error, InputRoutines); RunFailed(o.error, MathRoutines);
      RunFailed(o.error, MoreMathRoutines); RunFailed(o.error, ConversionRoutines);
      RunLibrary(r0);
      return;
    }
    o := RegisterInput(st);
    if o.Abort? {
      RunFailed(o.error, MathRoutines); RunFailed(o.error, MoreMathRoutines); RunFailed(o.error, ConversionRoutines);
      RunLibrary(r0);
      return;
    }
    o := RegisterMath(st);
    if o.Abort? {
      RunFailed(o.error, MoreMathRoutines); RunFailed(o.error, ConversionRoutines);
      RunLibrary(r0);
      return;
    }
    o := RegisterMoreMath(st);
    if o.Abort? {
      RunFailed(o.error, ConversionRoutines);
      RunLibrary(r0);
      return;
    }
    o := RegisterConversions(st);
    RunLibrary(r0);
  }

  /**
   * What `init` does to a scope: it fails exactly when a library name is already bound
   * there (so never on an empty scope), with that name's duplicate error. Otherwise the
   * scope binds exactly its old names and the `isLibFunc` names; the `i`-th routine sits at
   * offset `offset + i` with its result type, flagged and given formals as a procedure or a
   * function; the offset advances by 24; the routines join the queue in order, so `chr`
   * becomes the parent routine; and each has a `false` forward key.
   */
  lemma InitEffect(s0: Snapshot)
    ensures Run(Ok(s0), Library).Ok? <==> forall i :: 0 <= i < |Library| ==> Library[i].name !in s0.binds
    ensures Run(Ok(s0), Library).Fail? ==> exists i :: (0 <= i < |Library| &&
      Library[i].name in s0.binds && Run(Ok(s0), Library).error == DuplicateVariable(Library[i].name))
    ensures Run(Ok(s0), Library).Ok? ==> (
      var p := Run(Ok(s0), Library).value;
      && (forall c :: c in p.binds <==> c in s0.binds || AstTypes.IsLibFunc(c))
      && (forall i :: 0 <= i < |Library| ==> Installed(p.binds, Library[i], s0.offset + i))
      && p.offset == s0.offset + 24 && p.queue == s0.queue + NamesOf(Library) && p.queue[|p.queue| - 1] == "chr"
      && (forall c :: AstTypes.IsLibFunc(c) ==> c in p.forwards && !p.forwards[c]))
  {
    LibraryDistinct();
    LibraryIsLibFunc();
    RunSucceeds(s0, Library);
    if Run(Ok(s0), Library).Ok? {
      RunValue(s0, Library);
      forall c {
        BindAllKeys(s0.binds, Library, s0.offset, c);
      }
      forall i | 0 <= i < |Library| {
        BindAllReadsBack(s0.binds, Library, s0.offset, i);
      }
    } else {
      RunFailure(s0, Library);
    }
  }
}
