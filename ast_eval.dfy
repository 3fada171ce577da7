/**
 * The constant evaluator `eval()` of the AST expression nodes (include/ast.hpp), on C++
 * 32-bit `int`. Signed overflow and division by zero are undefined behaviour in C++; the
 * model makes them an explicit `Undefined` value instead of giving them a number.
 */
module AstEval {

  const Int32Min: int := -0x8000_0000
  const Int32Max: int := 0x7fff_ffff

  predicate InInt32(n: int) {
    Int32Min <= n <= Int32Max
  }

  type Int32 = n: int | Int32Min <= n <= Int32Max

  function Abs(n: int): nat {
    if n < 0 then -n else n
  }

  /** C++ `/` on `int`: the quotient truncated toward zero. */
  function TruncDiv(a: int, b: int): int
    requires b != 0
  {
    var q := Abs(a) / Abs(b);
    if (a < 0) == (b < 0) then q else -q
  }

  /** C++ `%` on `int`: the remainder that goes with the truncated quotient. */
  function TruncRem(a: int, b: int): int
    requires b != 0
  {
    a - b * TruncDiv(a, b)
  }

  lemma NegMul(x: int, y: int)
    ensures (-x) * y == -(x * y) && x * (-y) == -(x * y)
  {
  }

  lemma SignedProduct(a: int, b: int, q: int)
    requires b != 0
    ensures b * (if (a < 0) == (b < 0) then q else -q) == (if a < 0 then -(Abs(b) * q) else Abs(b) * q)
  {
    NegMul(Abs(b), q);
    NegMul(b, q);
  }

  /** The product of divisor and truncated quotient carries the dividend's sign. */
  lemma TruncProduct(a: int, b: int)
    requires b != 0
    ensures b * TruncDiv(a, b) == (if a < 0 then -(Abs(b) * (Abs(a) / Abs(b))) else Abs(b) * (Abs(a) / Abs(b)))
  {
    SignedProduct(a, b, Abs(a) / Abs(b));
  }

  /**
   * Truncated division: the remainder is smaller than the divisor in magnitude and takes
   * the dividend's sign, and the quotient never overshoots the dividend.
   */
  lemma TruncDivision(a: int, b: int)
    requires b != 0
    ensures a == b * TruncDiv(a, b) + TruncRem(a, b)
    ensures Abs(TruncRem(a, b)) < Abs(b)
    ensures TruncRem(a, b) == 0 || (TruncRem(a, b) < 0 <==> a < 0)
    ensures Abs(b * TruncDiv(a, b)) <= Abs(a)
    ensures Abs(TruncDiv(a, b)) == Abs(a) / Abs(b)
  {
    var q, m := Abs(a) / Abs(b), Abs(a) % Abs(b);
    DivParts(Abs(a), Abs(b));
    TruncProduct(a, b);
    var p := Abs(b) * q;
    assert b * TruncDiv(a, b) == (if a < 0 then -p else p);
    assert TruncRem(a, b) == if a < 0 then -m else m;
  }

  /** Euclidean division of naturals: the product part lies between zero and the dividend. */
  lemma DivParts(x: nat, y: nat)
    requires y > 0
    ensures x == y * (x / y) + x % y && 0 <= x % y < y
    ensures 0 <= y * (x / y) <= x
  {
    assert x / y >= 0;
  }

  /** On non-negative operands C++ and Dafny division agree. */
  lemma TruncDivNonNegative(a: int, b: int)
    requires a >= 0 && b > 0
    ensures TruncDiv(a, b) == a / b && TruncRem(a, b) == a % b
  {
  }

  /**
   * The expression nodes as `eval()` sees them. `Intconst` holds an `int`; `Realconst`
   * and the variable reads `Id`/`Result` (which read the runtime stack) are not evaluated
   * by the model.
   */
  datatype Expr =
    | IntConst(n: Int32)
    | BoolConst(b: bool)
    | CharConst            // `Charconst::eval` returns 0
    | StringConst          // `Stringconst::eval` returns 0
    | NilConst             // `Nil::eval` returns 0
    | OtherNode            // `Rvalue`/`Lvalue` defaults, `ArElement`, `Reference`, `Dereference`: -1
    | RealConst
    | VariableRead
    | Bin(left: Expr, op: string, right: Expr)
    | Un(op: string, operand: Expr)

  /** An evaluation: a 32-bit value, undefined behaviour, or a value the model does not compute. */
  datatype Value = Defined(v: int) | Undefined | Unknown

  /** The C++ result of an arithmetic operation on two `int`s, undefined when it overflows. */
  function Checked(n: int): (r: Value)
    ensures r.Defined? <==> InInt32(n)
    ensures r.Defined? ==> r.v == n
  {
    if InInt32(n) then Defined(n) else Undefined
  }

  function Truth(b: bool): int {
    if b then 1 else 0
  }

  /** Integer division and remainder: undefined for a zero divisor and for `INT_MIN / -1`. */
  function Quotient(a: int, b: int): Value {
    if b == 0 then Undefined else Checked(TruncDiv(a, b))
  }

  function Remainder(a: int, b: int): Value {
    if b == 0 || !InInt32(TruncDiv(a, b)) then Undefined else Checked(TruncRem(a, b))
  }

  /** The operators whose two operands are both always evaluated. */
  predicate Strict(op: string) {
    op in ["+", "-", "*", "/", "%", "=", "<", ">", "<=", ">=", "<>", "div", "mod"]
  }

  /** One strict operator on two `int`s. */
  function Apply(op: string, a: int, b: int): (r: Value)
    requires Strict(op)
    ensures r.Defined? ==> InInt32(r.v)
  {
    if op == "+" then Checked(a + b)
    else if op == "-" then Checked(a - b)
    else if op == "*" then Checked(a * b)
    else if op == "/" || op == "div" then Quotient(a, b)
    else if op == "%" || op == "mod" then Remainder(a, b)
    else if op == "=" then Defined(Truth(a == b))
    else if op == "<" then Defined(Truth(a < b))
    else if op == ">" then Defined(Truth(a > b))
    else if op == "<=" then Defined(Truth(a <= b))
    else if op == ">=" then Defined(Truth(a >= b))
    else Defined(Truth(a != b))
  }

  /** Both operands are evaluated (in an unspecified order); undefined behaviour in either wins. */
  function Both(op: string, a: Value, b: Value): (r: Value)
    requires Strict(op)
    ensures r.Defined? ==> InInt32(r.v)
  {
    if a.Undefined? || b.Undefined? then Undefined
    else if a.Unknown? || b.Unknown? then Unknown
    else Apply(op, a.v, b.v)
  }

  /**
   * C++ `||` and `&&`: the right operand's value `b` matters only when the left one does
   * not decide the result.
   */
  function Logical(op: string, a: Value, b: Value): (r: Value)
    requires op == "or" || op == "and"
    ensures r.Defined? ==> r.v == 0 || r.v == 1
  {
    match a
    case Defined(x) =>
      if op == "or" && x != 0 then Defined(1)
      else if op == "and" && x == 0 then Defined(0)
      else (match b case Defined(y) => Defined(Truth(y != 0)) case other => other)
    case other => other
  }

  /** `UnOp::eval` on the operand's value. */
  function Unary(op: string, a: Value): (r: Value)
    requires a.Defined? ==> InInt32(a.v)
    ensures r.Defined? ==> InInt32(r.v)
  {
    if op == "+" then a
    else if op == "-" then (match a case Defined(x) => Checked(-x) case other => other)
    else if op == "not" then (match a case Defined(x) => Defined(Truth(x == 0)) case other => other)
    else Defined(0)
  }

  /** `BinOp::eval` and `UnOp::eval` over the tree; an unknown operator gives 0. */
  function Eval(e: Expr): (r: Value)
    ensures r.Defined? ==> InInt32(r.v)
    decreases e
  {
    match e
    case IntConst(n) => Defined(n)
    case BoolConst(b) => Defined(Truth(b))
    case CharConst => Defined(0)
    case StringConst => Defined(0)
    case NilConst => Defined(0)
    case OtherNode => Defined(-1)
    case RealConst => Unknown
    case VariableRead => Unknown
    case Bin(l, op, r) =>
      if op == "or" || op == "and" then Logical(op, Eval(l), Eval(r))
      else if Strict(op) then Both(op, Eval(l), Eval(r))
      else Defined(0)
    case Un(op, x) => Unary(op, Eval(x))
  }

  /** Comparisons and the logical operators yield 0 or 1. */
  lemma BooleanResults(l: Expr, op: string, r: Expr)
    requires op in ["=", "<", ">", "<=", ">=", "<>", "or", "and"]
    ensures Eval(Bin(l, op, r)).Defined? ==> Eval(Bin(l, op, r)).v == 0 || Eval(Bin(l, op, r)).v == 1
  {
  }

  /** `/` and `div` are the same truncated quotient; `%` and `mod` the same remainder. */
  lemma DivisionSpellings(l: Expr, r: Expr)
    ensures Eval(Bin(l, "/", r)) == Eval(Bin(l, "div", r))
    ensures Eval(Bin(l, "%", r)) == Eval(Bin(l, "mod", r))
  {
    QuotientOps(l, r, "/");
    QuotientOps(l, r, "div");
    RemainderOps(l, r, "%");
    RemainderOps(l, r, "mod");
  }

  /** Both spellings of the quotient evaluate their operands and divide. */
  lemma QuotientOps(l: Expr, r: Expr, op: string)
    requires op == "/" || op == "div"
    ensures Eval(Bin(l, op, r)) ==
      match (Eval(l), Eval(r))
      case (Defined(a), Defined(b)) => Quotient(a, b)
      case (a, b) => if a.Undefined? || b.Undefined? then Undefined else Unknown
  {
    assert op != "or" && op != "and" && op != "+" && op != "-" && op != "*";
    assert Strict(op);
  }

  /** Both spellings of the remainder evaluate their operands and take the remainder. */
  lemma RemainderOps(l: Expr, r: Expr, op: string)
    requires op == "%" || op == "mod"
    ensures Eval(Bin(l, op, r)) ==
      match (Eval(l), Eval(r))
      case (Defined(a), Defined(b)) => Remainder(a, b)
      case (a, b) => if a.Undefined? || b.Undefined? then Undefined else Unknown
  {
    assert op != "or" && op != "and" && op != "+" && op != "-" && op != "*" && op != "/" && op != "div";
    assert Strict(op);
  }

  /**
   * With defined operands, `div` gives the C++ quotient exactly when the divisor is non-zero
   * and the quotient fits, and `mod` then gives the matching remainder.
   */
  lemma IntegerDivision(l: Expr, r: Expr, a: int, b: int)
    requires Eval(l) == Defined(a) && Eval(r) == Defined(b)
    ensures Eval(Bin(l, "div", r)).Defined? <==> b != 0 && InInt32(TruncDiv(a, b))
    ensures Eval(Bin(l, "div", r)).Defined? ==> Eval(Bin(l, "div", r)).v == TruncDiv(a, b)
    ensures Eval(Bin(l, "mod", r)).Defined? <==> Eval(Bin(l, "div", r)).Defined?
    ensures Eval(Bin(l, "mod", r)).Defined? ==>
      a == b * Eval(Bin(l, "div", r)).v + Eval(Bin(l, "mod", r)).v
  {
    if b != 0 && InInt32(TruncDiv(a, b)) {
      TruncDivision(a, b);
      assert InInt32(TruncRem(a, b)) by {
        assert Abs(TruncRem(a, b)) < Abs(b);
      }
    }
  }

  /** `INT_MIN div -1` overflows and is undefined; dividing by zero is undefined too. */
  lemma DivisionOverflow(l: Expr, r: Expr)
    requires Eval(l) == Defined(Int32Min)
    ensures Eval(r) == Defined(-1) ==> Eval(Bin(l, "div", r)) == Undefined
    ensures Eval(r) == Defined(0) ==> Eval(Bin(l, "div", r)) == Undefined
  {
    if Eval(r) == Defined(-1) {
      assert TruncDiv(Int32Min, -1) == -Int32Min;
    }
  }

  /** Unary minus negates (undefined for `INT_MIN`); `not` maps 0 to 1 and anything else to 0. */
  lemma UnaryResults(x: Expr, a: int)
    requires Eval(x) == Defined(a)
    ensures Eval(Un("-", x)) == if a == Int32Min then Undefined else Defined(-a)
    ensures Eval(Un("not", x)) == Defined(if a == 0 then 1 else 0)
    ensures Eval(Un("+", x)) == Defined(a)
    ensures Eval(Un("-", Un("-", x))) == Eval(x) || a == Int32Min
  {
  }

  /**
   * Short-circuit: a non-zero left operand decides `or` and a zero one decides `and`, even
   * when the right operand would be undefined (say `1 div 0`).
   */
  lemma ShortCircuit(l: Expr, r: Expr, a: int)
    requires Eval(l) == Defined(a)
    ensures a != 0 ==> Eval(Bin(l, "or", r)) == Defined(1)
    ensures a == 0 ==> Eval(Bin(l, "and", r)) == Defined(0)
    ensures a != 0 ==> Eval(Bin(l, "and", r)) == Eval(Un("not", Un("not", r)))
    ensures a == 0 ==> Eval(Bin(l, "or", r)) == Eval(Un("not", Un("not", r)))
  {
  }

  /** Overflowing arithmetic is undefined rather than wrapping. */
  lemma AdditionOverflow(l: Expr, r: Expr)
    requires Eval(l) == Defined(Int32Max) && Eval(r) == Defined(1)
    ensures Eval(Bin(l, "+", r)) == Undefined
  {
  }

  // ---------------------------------------------------------------------------------
  // Boolconst(std::string)
  // ---------------------------------------------------------------------------------

  /**
   * `Boolconst(std::string val)` as written: `cons` is 1 when `val.compare("true")` is
   * non-zero, i.e. when the text is NOT "true".
   */
  function BoolConstFromTextAsWritten(val: string): Expr {
    BoolConst(val != "true")
  }

  /** As written, the literal `true` evaluates to 0 and `false` to 1. */
  lemma BoolTextInverted()
    ensures Eval(BoolConstFromTextAsWritten("true")) == Defined(0)
    ensures Eval(BoolConstFromTextAsWritten("false")) == Defined(1)
  {
  }

  /** The intended constructor: `compare` returning 0 means the text is "true". */
  function BoolConstFromText(val: string): Expr {
    BoolConst(val == "true")
  }

  /** Corrected: a literal evaluates to 1 exactly when it is `true`, and agrees with `Boolconst(bool)`. */
  lemma BoolTextEvaluates(val: string)
    ensures Eval(BoolConstFromText(val)) == Defined(if val == "true" then 1 else 0)
    ensures Eval(BoolConstFromText("true")) == Eval(BoolConst(true))
    ensures Eval(BoolConstFromText("false")) == Eval(BoolConst(false))
  {
  }
}
