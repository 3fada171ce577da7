/**
 * The parameter list `Body::compile` builds for a nested procedure or function
 * (include/ast.hpp). Routines are lowered as closures: the explicit formals come first,
 * then every variable of the enclosing scope's log that no formal shadows, passed by
 * address. LLVM types are opaque (`T`); `lower` stands for `type_to_llvm(tag, getby())`,
 * `isPointerTy` and `pointerTo` for the LLVM type queries of the same names.
 */
module AstClosure {
  import opened PclBase

  /** The lowered type of every formal name, in order: each group's type once per name. */
  function ParamTypes<T>(fl: FormalList, lower: (Types, PassMode) -> T): (r: seq<T>)
    ensures |r| == Arity(fl)
  {
    if fl == [] then []
    else ParamTypes(fl[..|fl| - 1], lower) + Repeat(lower(fl[|fl| - 1].ty.Tag(), fl[|fl| - 1].mode), |fl[|fl| - 1].ids|)
  }

  /** The names of `order` that are not parameters, keeping their order. */
  function Unshadowed(order: seq<string>, params: seq<string>): (r: seq<string>)
    ensures |r| <= |order|
  {
    if order == [] then []
    else
      var init, last := order[..|order| - 1], order[|order| - 1];
      Unshadowed(init, params) + if last in params then [] else [last]
  }

  /** An outer variable is passed by address: a pointer type as it is, anything else behind a pointer. */
  function Captured<T>(t: T, isPointerTy: T -> bool, pointerTo: T -> T): T {
    if isPointerTy(t) then t else pointerTo(t)
  }

  /** Filtering a duplicate-free order keeps it duplicate-free, so each captured name appears once. */
  lemma {:induction false} UnshadowedDistinct(order: seq<string>, params: seq<string>)
    requires Distinct(order)
    ensures Distinct(Unshadowed(order, params))
  {
    if order != [] {
      var init := order[..|order| - 1];
      assert Distinct(init);
      UnshadowedDistinct(init, params);
      UnshadowedMembers(init, params);
      var last := order[|order| - 1];
      assert last !in init;
    }
  }

  /** The names kept are the names of the order that are not parameters. */
  lemma {:induction false} UnshadowedMembers(order: seq<string>, params: seq<string>)
    ensures forall v :: v in Unshadowed(order, params) <==> v in order && v !in params
  {
    if order != [] {
      var init := order[..|order| - 1];
      UnshadowedMembers(init, params);
      assert order == init + [order[|order| - 1]];
    }
  }

  /**
   * Filtering one more name of a duplicate-free order: the name is not among those kept
   * so far, and it is kept exactly when it is not a parameter.
   */
  lemma CaptureStep(order: seq<string>, k: nat, params: seq<string>)
    requires Distinct(order) && k < |order|
    ensures order[k] !in Unshadowed(order[..k], params)
    ensures Unshadowed(order[..k + 1], params) == Unshadowed(order[..k], params) + if order[k] in params then [] else [order[k]]
  {
    assert order[..k + 1][..k] == order[..k];
    UnshadowedMembers(order[..k], params);
    assert order[k] !in order[..k];
  }

  /** The first loop of the build: every formal name with its group's lowered type. */
  method FormalParameters<T>(params: FormalList, lower: (Types, PassMode) -> T)
    returns (names: seq<string>, types: seq<T>)
    ensures names == ParamNames(params) && types == ParamTypes(params, lower)
    ensures |names| == |types| == Arity(params)
  {
    names, types := [], [];
    var i := 0;
    while i < |params|
      invariant 0 <= i <= |params|
      invariant names == ParamNames(params[..i]) && types == ParamTypes(params[..i], lower)
    {
      var f := params[i];
      var t := lower(f.ty.Tag(), f.mode);
      ghost var names0, types0 := names, types;
      var j := 0;
      while j < |f.ids|
        invariant 0 <= j <= |f.ids|
        invariant names == names0 + f.ids[..j] && types == types0 + Repeat(t, j)
      {
        names := names + [f.ids[j]];
        types := types + [t];
        assert f.ids[..j + 1] == f.ids[..j] + [f.ids[j]];
        j := j + 1;
      }
      assert params[..i + 1][..i] == params[..i];
      assert f.ids[..j] == f.ids;
      i := i + 1;
    }
    assert params[..i] == params;
    ArityCountsNames(params);
  }

  /**
   * The second loop of the build: after the formals, each outer variable of `order` that is
   * not among the names so far, with its type passed by address.
   */
  method CaptureOuter<T>(formals: seq<string>, formalTypes: seq<T>, outer: map<string, T>, order: seq<string>,
                         isPointerTy: T -> bool, pointerTo: T -> T)
    returns (names: seq<string>, types: seq<T>)
    requires Distinct(order) && forall v :: v in order <==> v in outer
    requires |formalTypes| == |formals|
    ensures names == formals + Unshadowed(order, formals)
    ensures |types| == |names| && types[..|formals|] == formalTypes
    ensures forall k :: |formals| <= k < |names| ==>
      names[k] in outer && types[k] == Captured(outer[names[k]], isPointerTy, pointerTo)
  {
    names, types := formals, formalTypes;
    var k := 0;
    while k < |order|
      invariant 0 <= k <= |order|
      invariant names == formals + Unshadowed(order[..k], formals)
      invariant |types| == |names| && types[..|formals|] == formalTypes
      invariant forall n :: |formals| <= n < |names| ==>
        names[n] in outer && types[n] == Captured(outer[names[n]], isPointerTy, pointerTo)
    {
      var v := order[k];
      CaptureStep(order, k, formals);
      if v !in names {
        var t := Captured(outer[v], isPointerTy, pointerTo);
        assert (types + [t])[..|formals|] == types[..|formals|];
        names, types := names + [v], types + [t];
      }
      k := k + 1;
    }
    assert order[..k] == order;
  }

  /**
   * The parameter names and types: formal names flattened in declaration order, then each
   * outer variable that is not a formal, exactly once, in the log's iteration order `order`.
   */
  method ClosureParameters<T>(params: FormalList, outer: map<string, T>, order: seq<string>,
                              lower: (Types, PassMode) -> T, isPointerTy: T -> bool, pointerTo: T -> T)
    returns (names: seq<string>, types: seq<T>)
    requires Distinct(order) && forall v :: v in order <==> v in outer
    ensures names == ParamNames(params) + Unshadowed(order, ParamNames(params))
    ensures |types| == |names| && types[..|ParamNames(params)|] == ParamTypes(params, lower)
    ensures forall k :: |ParamNames(params)| <= k < |names| ==>
      names[k] in outer && types[k] == Captured(outer[names[k]], isPointerTy, pointerTo)
  {
    names, types := FormalParameters(params, lower);
    names, types := CaptureOuter(names, types, outer, order, isPointerTy, pointerTo);
  }

  /** Every outer variable a formal does not shadow is captured, and nothing else is. */
  lemma CapturedExactly<T>(params: FormalList, order: seq<string>, outer: map<string, T>, v: string)
    requires Distinct(order) && forall w :: w in order <==> w in outer
    ensures v in Unshadowed(order, ParamNames(params)) <==> v in outer && v !in ParamNames(params)
    ensures Distinct(Unshadowed(order, ParamNames(params)))
  {
    UnshadowedDistinct(order, ParamNames(params));
    UnshadowedMembers(order, ParamNames(params));
  }
}
