/**
 * The pure typing helpers of the AST (include/ast.hpp): structural equality of array and
 * pointer descriptors, the runtime-library name test, the lowering of semantic types to
 * LLVM scalar types, and the operator typing decisions of `BinOp::sem` and `UnOp::sem`.
 */
module AstTypes {
  import opened PclBase

  // ---------------------------------------------------------------------------------
  // Array::operator== and Pointer::operator==
  // ---------------------------------------------------------------------------------

  /**
   * `Array::operator==(that)`: `that` is described by the tag stored in it, its element
   * type and its size. The argument is itself an `Array`, and the constructor always
   * stores the array tag (ast.hpp:424). So the case of any other tag is never reached.
   */
  function ArrayEquals(a: TypeDesc, thatValue: Types, thatOftype: Types, thatSize: int): bool
    requires a.ArrayDesc?
  {
    thatValue == TypeArray && a.oftype == thatOftype && a.size == thatSize
  }

  /** Two array descriptors are equal exactly when element type and size agree. */
  lemma ArrayEqualsIsStructural(a: TypeDesc, b: TypeDesc)
    requires a.ArrayDesc? && b.ArrayDesc?
    ensures ArrayEquals(a, b.Tag(), b.oftype, b.size) <==> a.oftype == b.oftype && a.size == b.size
    ensures ArrayEquals(a, b.Tag(), b.oftype, b.size) <==> a == b
  {
  }

  /**
   * `Pointer::operator==(that)`: true when `that` carries the nil tag, or the pointer tag
   * with the same pointee type.
   */
  function PointerEquals(p: TypeDesc, thatValue: Types, thatOftype: Types): bool
    requires p.PointerDesc?
  {
    thatValue == TypeNil || (thatValue == TypePointer && p.oftype == thatOftype)
  }

  /**
   * Against another pointer descriptor the comparison is equality of pointee types. The
   * argument of `Pointer::operator==` is itself a `Pointer`, and the constructor always
   * stores the pointer tag (ast.hpp:469-470). So only that first clause describes a
   * reachable call. The other two describe the branches for a nil tag and for any other
   * tag, which no `Pointer` reaches.
   */
  lemma PointerEqualsCases(p: TypeDesc, q: TypeDesc, other: Types, t: Types)
    requires p.PointerDesc? && q.PointerDesc?
    ensures PointerEquals(p, q.Tag(), q.oftype) <==> p == q
    ensures PointerEquals(p, TypeNil, t)
    ensures other != TypeNil && other != TypePointer ==> !PointerEquals(p, other, t)
  {
  }

  // ---------------------------------------------------------------------------------
  // isLibFunc
  // ---------------------------------------------------------------------------------

  /** The runtime library's routine names, in the order `isLibFunc` tests them: input/output first. */
  const IoNames: seq<string> := [
    "writeInteger", "writeBoolean", "writeReal", "writeChar", "writeString",
    "readInteger", "readBoolean", "readChar", "readString", "readReal"]
  const MathNames: seq<string> := [
    "abs", "fabs", "sqrt", "sin", "cos", "tan", "arctan", "exp", "ln", "pi",
    "trunc", "round", "ord", "chr"]
  const LibraryNames: seq<string> := IoNames + MathNames

  /** `isLibFunc(id)`: the chain of 24 string comparisons. */
  function IsLibFunc(id: string): (r: bool)
    ensures r <==> id in LibraryNames
  {
    IsIoName(id) || IsMathName(id)
  }

  /** The first ten comparisons of the chain. */
  function IsIoName(id: string): (r: bool)
    ensures r <==> id in IoNames
  {
    id == "writeInteger" || id == "writeBoolean" || id == "writeReal" || id == "writeChar" ||
    id == "writeString" || id == "readInteger" || id == "readBoolean" ||
    id == "readChar" || id == "readString" || id == "readReal"
  }

  /** The other fourteen. */
  function IsMathName(id: string): (r: bool)
    ensures r <==> id in MathNames
  {
    id == "abs" || id == "fabs" || id == "sqrt" || id == "sin" ||
    id == "cos" || id == "tan" || id == "arctan" || id == "exp" ||
    id == "ln" || id == "pi" || id == "trunc" || id == "round" ||
    id == "ord" || id == "chr"
  }

  // ---------------------------------------------------------------------------------
  // Pass modes and type_to_llvm
  // ---------------------------------------------------------------------------------

  /** `Formal`'s three-argument constructor: only the keyword `var` means by reference. */
  function ModeOfKeyword(keyword: string): (m: PassMode)
    ensures m == ByReference <==> keyword == "var"
    ensures m != Unset
  {
    if keyword == "var" then ByReference else ByValue
  }

  /** `Formal::getby()`: the stored string; the two-argument constructor leaves it empty. */
  function PassString(m: PassMode): (s: string)
    ensures s == "PASS_BY_REFERENCE" <==> m == ByReference
  {
    match m
    case ByReference => "PASS_BY_REFERENCE"
    case ByValue => "PASS_BY_VALUE"
    case Unset => ""
  }

  /** The LLVM types `type_to_llvm` can produce. */
  datatype LlvmType = I1 | I8 | I32 | PointerTo(pointee: LlvmType)

  /**
   * `type_to_llvm(type, pm)`: bool, int and char become `i1`, `i32` and `i8`; any other
   * tag only prints "cannot cast" and leaves the result undefined (`None` here). The
   * exact string `PASS_BY_REFERENCE` wraps the scalar in a pointer.
   */
  function TypeToLlvm(t: Types, pm: string): (r: Option<LlvmType>)
    ensures r.Some? <==> t == TypeBool || t == TypeInt || t == TypeChar
    ensures r.Some? ==> (r.value.PointerTo? <==> pm == "PASS_BY_REFERENCE")
  {
    var scalar := match t
      case TypeBool => Some(I1)
      case TypeInt => Some(I32)
      case TypeChar => Some(I8)
      case _ => None;
    if scalar.Some? && pm == "PASS_BY_REFERENCE" then Some(PointerTo(scalar.value)) else scalar
  }

  /**
   * By reference is by value behind one pointer, any other pass string lowers like by value,
   * and distinct scalar tags get distinct LLVM types.
   */
  lemma TypeToLlvmModes(s: Types, t: Types, pm: string)
    ensures TypeToLlvm(t, "PASS_BY_REFERENCE") ==
      (if TypeToLlvm(t, "PASS_BY_VALUE").Some? then Some(PointerTo(TypeToLlvm(t, "PASS_BY_VALUE").value)) else None)
    ensures pm != "PASS_BY_REFERENCE" ==> TypeToLlvm(t, pm) == TypeToLlvm(t, "PASS_BY_VALUE")
    ensures TypeToLlvm(s, pm).Some? && TypeToLlvm(s, pm) == TypeToLlvm(t, pm) ==> s == t
  {
  }

  // ---------------------------------------------------------------------------------
  // Operator typing (BinOp::sem, UnOp::sem)
  // ---------------------------------------------------------------------------------

  /**
   * What an operator's `sem` decides: the result type it sets (`None`: the node's type is
   * left unset) and whether it printed "Type mismatch". Neither case is fatal.
   */
  datatype Typing = Typing(ty: Option<Types>, diagnosed: bool)

  predicate Numeric(t: Types) {
    t == TypeInt || t == TypeReal
  }

  const Typed := (t: Types) => Typing(Some(t), false)
  const Mismatch := Typing(None, true)

  /**
   * `BinOp::sem` after `result` operands are resolved: which result type each operator
   * gets for a pair of operand types.
   */
  function BinOpTyping(op: string, l: Types, r: Types): Typing {
    if op == "+" || op == "-" || op == "*" then
      if l == TypeInt && r == TypeInt then Typed(TypeInt)
      else if Numeric(l) && Numeric(r) then Typed(TypeReal)
      else Mismatch
    else if op == "/" then
      if Numeric(l) && Numeric(r) then Typed(TypeReal) else Mismatch
    else if op == "mod" || op == "div" then
      if l == TypeInt && r == TypeInt then Typed(TypeInt) else Mismatch
    else if op == "<" || op == ">" || op == "<=" || op == ">=" then
      if Numeric(l) && Numeric(r) then Typed(TypeBool) else Mismatch
    else if op == "=" || op == "<>" then
      if Numeric(l) && Numeric(r) then Typed(TypeBool)
      else if l == r && l != TypeArray then Typed(TypeBool)
      else Mismatch
    else if op == "or" || op == "and" then
      if l == TypeBool && r == TypeBool then Typed(TypeBool) else Typing(None, false)
    else Typing(None, false)
  }

  /** `+ - *`: Int for Int×Int, Real for any numeric pair holding a Real, a mismatch otherwise. */
  lemma ArithmeticTyping(op: string, l: Types, r: Types)
    requires op == "+" || op == "-" || op == "*"
    ensures BinOpTyping(op, l, r).ty == Some(TypeInt) <==> l == TypeInt && r == TypeInt
    ensures BinOpTyping(op, l, r).ty == Some(TypeReal) <==> Numeric(l) && Numeric(r) && (l == TypeReal || r == TypeReal)
    ensures BinOpTyping(op, l, r).diagnosed <==> BinOpTyping(op, l, r).ty.None?
    ensures BinOpTyping(op, l, r).ty.None? <==> !(Numeric(l) && Numeric(r))
  {
  }

  /** `/` accepts exactly the pairs `+` accepts, and always yields Real, even for Int×Int. */
  lemma DivisionTyping(l: Types, r: Types)
    ensures BinOpTyping("/", l, r).ty.Some? <==> BinOpTyping("+", l, r).ty.Some?
    ensures BinOpTyping("/", l, r).ty.Some? ==> BinOpTyping("/", l, r).ty == Some(TypeReal)
    ensures BinOpTyping("/", l, r).diagnosed <==> !(Numeric(l) && Numeric(r))
  {
  }

  /** `div`/`mod` accept only Int×Int and yield Int. */
  lemma IntegerDivisionTyping(op: string, l: Types, r: Types)
    requires op == "div" || op == "mod"
    ensures BinOpTyping(op, l, r) == if l == TypeInt && r == TypeInt then Typed(TypeInt) else Mismatch
  {
  }

  /**
   * The comparisons always yield Bool; the order tests accept numeric pairs, and `=`/`<>`
   * accept those and also two identical non-array types.
   */
  lemma ComparisonTyping(op: string, l: Types, r: Types)
    requires op in ["<", ">", "<=", ">=", "=", "<>"]
    ensures BinOpTyping(op, l, r).ty.Some? ==> BinOpTyping(op, l, r).ty == Some(TypeBool)
    ensures op in ["<", ">", "<=", ">="] ==> (BinOpTyping(op, l, r).ty.Some? <==> Numeric(l) && Numeric(r))
    ensures op in ["=", "<>"] ==>
      (BinOpTyping(op, l, r).ty.Some? <==> (Numeric(l) && Numeric(r)) || (l == r && l != TypeArray))
    ensures BinOpTyping("<", l, r).ty.Some? ==> BinOpTyping("=", l, r).ty.Some?
    ensures BinOpTyping(op, l, r).diagnosed <==> BinOpTyping(op, l, r).ty.None?
  {
    OrderTyping("<", l, r);
    EqualityTyping("=", l, r);
    if op in ["<", ">", "<=", ">="] {
      OrderTyping(op, l, r);
    } else {
      EqualityTyping(op, l, r);
    }
  }

  /** The order tests type exactly the numeric pairs, as Bool. */
  lemma OrderTyping(op: string, l: Types, r: Types)
    requires op in ["<", ">", "<=", ">="]
    ensures BinOpTyping(op, l, r) == if Numeric(l) && Numeric(r) then Typed(TypeBool) else Mismatch
  {
  }

  /** `=` and `<>` type the numeric pairs and two identical non-array types, as Bool. */
  lemma EqualityTyping(op: string, l: Types, r: Types)
    requires op in ["=", "<>"]
    ensures BinOpTyping(op, l, r) ==
      if (Numeric(l) && Numeric(r)) || (l == r && l != TypeArray) then Typed(TypeBool) else Mismatch
  {
  }

  /** `and`/`or` type only Bool×Bool, and never report a mismatch. */
  lemma LogicalTyping(op: string, l: Types, r: Types)
    requires op == "and" || op == "or"
    ensures BinOpTyping(op, l, r).ty.Some? <==> l == TypeBool && r == TypeBool
    ensures !BinOpTyping(op, l, r).diagnosed
  {
  }

  /** Whatever the operator, an assigned result type is Int, Real or Bool. */
  lemma BinOpResultTypes(op: string, l: Types, r: Types)
    ensures BinOpTyping(op, l, r).ty.Some? ==>
      BinOpTyping(op, l, r).ty.value in {TypeInt, TypeReal, TypeBool}
    ensures BinOpTyping(op, l, r).ty.Some? ==> !BinOpTyping(op, l, r).diagnosed
  {
  }

  /**
   * `UnOp::sem` as written: for `+`/`-` the Real test and the Int test are two separate
   * `if`s, so a Real operand gets type Real and then falls into the Int test's `else`,
   * which prints "Type mismatch".
   */
  function UnOpTypingAsWritten(op: string, t: Types): Typing {
    if op == "+" || op == "-" then
      if t == TypeInt then Typing(Some(TypeInt), false)
      else if t == TypeReal then Typing(Some(TypeReal), true)
      else Mismatch
    else if op == "not" then
      if t == TypeBool then Typed(TypeBool) else Typing(None, false)
    else Typing(None, false)
  }

  /** The spurious diagnostic: `-x` with a Real `x` is reported as a mismatch. */
  lemma UnOpRealReported(op: string)
    requires op == "+" || op == "-"
    ensures UnOpTypingAsWritten(op, TypeReal) == Typing(Some(TypeReal), true)
  {
  }

  /** `UnOp::sem` with the Int test chained by `else if`, as the comment beside it intends. */
  function UnOpTyping(op: string, t: Types): Typing {
    if op == "+" || op == "-" then
      if t == TypeReal then Typed(TypeReal)
      else if t == TypeInt then Typed(TypeInt)
      else Mismatch
    else if op == "not" then
      if t == TypeBool then Typed(TypeBool) else Typing(None, false)
    else Typing(None, false)
  }

  /**
   * Sign operators keep a numeric operand's type and report exactly the non-numeric ones;
   * `not` types only Bool. The corrected rule differs from the written one only on Real.
   */
  lemma UnOpTypingSpec(op: string, t: Types)
    ensures (op == "+" || op == "-") ==>
      && (UnOpTyping(op, t).diagnosed <==> !Numeric(t))
      && (Numeric(t) ==> UnOpTyping(op, t).ty == Some(t))
    ensures op == "not" ==> (UnOpTyping(op, t).ty.Some? <==> t == TypeBool) && !UnOpTyping(op, t).diagnosed
    ensures t != TypeReal ==> UnOpTyping(op, t) == UnOpTypingAsWritten(op, t)
  {
  }
}
