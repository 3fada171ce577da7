/**
 * Vocabulary shared by the whole PCL front end model: the semantic type tags of the
 * symbol table, the parser's type descriptors, grouped formal parameters, the fatal
 * errors every `exit(1)` of the analyzer stands for, and the innermost-first search
 * that both the symbol table and the code-generation log perform over a stack of maps.
 */
module PclBase {

  datatype Option<T> = None | Some(value: T)

  /** The `Types` enumeration, in declaration order. */
  datatype Types =
    | TypeInt | TypeBool | TypeChar | TypeReal | TypeString | TypeArray
    | TypePointer | TypeProc | TypeResult | TypeNil | TypeLabel

  /** The parser's type descriptors (`Int`, `Real`, `Char`, `Bool`, `Array`, `Pointer`). */
  datatype TypeDesc =
    | IntDesc
    | RealDesc
    | CharDesc
    | BoolDesc
    | ArrayDesc(oftype: Types, size: int)   // size -1: not allocated yet
    | PointerDesc(oftype: Types)
  {
    /** `get_type()`: the tag a descriptor stands for. */
    function Tag(): Types {
      match this
      case IntDesc => TypeInt
      case RealDesc => TypeReal
      case CharDesc => TypeChar
      case BoolDesc => TypeBool
      case ArrayDesc(_, _) => TypeArray
      case PointerDesc(_) => TypePointer
    }
  }

  /**
   * How a formal is passed. `Unset` is the `by` string left empty by the two-argument
   * `Formal` constructor that the runtime library uses; it lowers like by-value.
   */
  datatype PassMode = ByValue | ByReference | Unset

  /** One formal group `x, y, z : T`, i.e. an identifier list sharing one type. */
  datatype Formal = Formal(ids: seq<string>, ty: TypeDesc, mode: PassMode)

  type FormalList = seq<Formal>

  /** The parameter names of a formal list, flattened in declaration order. */
  function ParamNames(fl: FormalList): seq<string> {
    if fl == [] then [] else ParamNames(fl[..|fl| - 1]) + fl[|fl| - 1].ids
  }

  /** The number of arguments a formal list expects: the sum of its identifier-list lengths. */
  function Arity(fl: FormalList): nat {
    if fl == [] then 0 else Arity(fl[..|fl| - 1]) + |fl[|fl| - 1].ids|
  }

  lemma {:induction false} ArityCountsNames(fl: FormalList)
    ensures Arity(fl) == |ParamNames(fl)|
  {
    if fl != [] {
      ArityCountsNames(fl[..|fl| - 1]);
    }
  }

  lemma {:induction false} ParamNamesAppend(fl: FormalList, f: Formal)
    ensures ParamNames(fl + [f]) == ParamNames(fl) + f.ids
    ensures Arity(fl + [f]) == Arity(fl) + |f.ids|
  {
    assert (fl + [f])[..|fl + [f]| - 1] == fl;
  }

  /** `n` copies of `x`. */
  function Repeat<T>(x: T, n: nat): (r: seq<T>)
    ensures |r| == n && forall i :: 0 <= i < n ==> r[i] == x
  {
    if n == 0 then [] else Repeat(x, n - 1) + [x]
  }

  /** No name occurs twice. */
  predicate Distinct(s: seq<string>) {
    forall i, j :: 0 <= i < j < |s| ==> s[i] != s[j]
  }

  /** The conditions under which the analyzer stops with `exit(1)` (or crashes). */
  datatype Fatal =
    | DuplicateVariable(name: string)
    | UnknownVariable(name: string)
    | NoParentFunction
    | NotInKnownScope(name: string)
    | NotInScope(name: string)
    | NotAnArray
    | IndexNotInteger
    | NotAPointer
    | NotPointerToArray
    | SizeNotInteger
    | NotFromNew
    | AssignMismatch(target: Types, value: Types)
    | ResultMismatch(routine: string, declared: Types, returned: Types)
    | ConditionNotBoolean(given: Types)
    | NotALabel(name: string)
    | LabelWithoutStatement(name: string)
    | ArgumentMismatch(routine: string)
    | MissingArgument(routine: string)
    | ArityMismatch(routine: string, expected: nat, supplied: nat)
    | ForwardMismatch(routine: string)
    | ArrayFunction(routine: string)
    | MissingFormals(routine: string)
    | NullLvalue
    | UnsetDescriptor  // the element type read through `Expr::a` or `Expr::p`, which nothing sets

  datatype Result<T> = Ok(value: T) | Fail(error: Fatal)

  /** The effect of a check that either lets analysis continue or stops it. */
  datatype Outcome = Pass | Abort(error: Fatal)

  // ---------------------------------------------------------------------------------
  // Innermost-first search over a stack of scopes (the last element is innermost).
  // ---------------------------------------------------------------------------------

  /** Index of the innermost frame binding `key`. */
  function Home<V>(frames: seq<map<string, V>>, key: string): (r: Option<nat>)
    ensures r.Some? ==> r.value < |frames| && key in frames[r.value]
    decreases |frames|
  {
    if frames == [] then None
    else if key in frames[|frames| - 1] then Some(|frames| - 1)
    else Home(frames[..|frames| - 1], key)
  }

  /** The binding of `key` in the innermost frame that holds it. */
  function Innermost<V>(frames: seq<map<string, V>>, key: string): Option<V> {
    match Home(frames, key)
    case None => None
    case Some(i) => Some(frames[i][key])
  }

  /** `Home` finds a frame exactly when some frame binds the key, and no frame above it does. */
  lemma {:induction false} HomeIsInnermost<V>(frames: seq<map<string, V>>, key: string)
    ensures Home(frames, key).None? <==> forall i :: 0 <= i < |frames| ==> key !in frames[i]
    ensures Home(frames, key).Some? ==>
      forall j :: Home(frames, key).value < j < |frames| ==> key !in frames[j]
    decreases |frames|
  {
    if frames != [] && key !in frames[|frames| - 1] {
      var init := frames[..|frames| - 1];
      HomeIsInnermost(init, key);
      assert forall i :: 0 <= i < |init| ==> init[i] == frames[i];
    }
  }

  /** Conversely, the innermost frame binding the key is its home. */
  lemma HomeAt<V>(frames: seq<map<string, V>>, key: string, i: nat)
    requires i < |frames| && key in frames[i]
    requires forall j :: i < j < |frames| ==> key !in frames[j]
    ensures Home(frames, key) == Some(i)
    ensures Innermost(frames, key) == Some(frames[i][key])
  {
    HomeIsInnermost(frames, key);
    var h := Home(frames, key);
    assert h.Some?;
    assert !(h.value < i) && !(i < h.value);
  }

  /** Pushing a frame: its own bindings shadow, everything else resolves as before. */
  lemma HomePush<V>(frames: seq<map<string, V>>, m: map<string, V>, key: string)
    ensures Home(frames + [m], key) == if key in m then Some(|frames|) else Home(frames, key)
    ensures Innermost(frames + [m], key) == if key in m then Some(m[key]) else Innermost(frames, key)
  {
    assert (frames + [m])[..|frames|] == frames;
  }

  /** Frames from `h` upwards that do not bind the key are invisible to the search. */
  lemma {:induction false} HomeBelow<V>(frames: seq<map<string, V>>, key: string, h: nat)
    requires h <= |frames| && forall j :: h <= j < |frames| ==> key !in frames[j]
    ensures Home(frames, key) == Home(frames[..h], key)
    ensures Innermost(frames, key) == Innermost(frames[..h], key)
    decreases |frames| - h
  {
    if h < |frames| {
      var init := frames[..|frames| - 1];
      HomeBelow(init, key, h);
      assert init[..h] == frames[..h];
    } else {
      assert frames[..h] == frames;
    }
  }
}
