/** The WebAssembly type of a function, from the shape of its type (wasm/main.c). */
module FunctionTypes {
  import opened Wrappers
  import opened Mir
  import opened Wasm
  import opened Lowering

  // ---- Types of values ----------------------------------------------------------------------

  /** Numbers have their width; truth values, characters and everything kept by reference are 32 bits; the rest has no
      value. */
  lemma ClassOfType(t: Type)
    ensures TypeToVal(t) == Some(I64) <==> t.kind == KUint64
    ensures TypeToVal(t) == Some(F64) <==> t.kind == KNum
    ensures TypeToVal(t) != Some(F32)
    ensures TypeToVal(t).None? <==> t.kind == KVoid || t.kind == KModule || t.kind == KVar || t.kind == KOther
    ensures t.kind in {KInt, KBool, KChar, KString, KEmptyList} || t.kind.KFn? || t.kind.KCons? || t.kind.KSum? ==>
              TypeToVal(t) == Some(I32)
  {
  }

  /** The types a type is made of. */
  function Parts(t: Type): seq<Type> {
    var own := if t.closure.Some? then [t.closure.value] else [];
    match t.kind
    case KFn(from, to) => own + [from, to]
    case KCons(args) => own + args
    case KSum(args) => own + args
    case _ => []
  }

  ghost predicate PartOfPart(ts: seq<Type>) {
    ts != [] && forall k :: 0 <= k < |ts| - 1 ==> ts[k + 1] in Parts(ts[k])
  }

  /** A type has type variables if and only if a chain of parts leads from it to one. */
  lemma TypeVarsInside(t: Type)
    ensures HasTypeVars(t) <==> exists ts: seq<Type> :: PartOfPart(ts) && ts[0] == t && ts[|ts| - 1].kind == KVar
  {
    if HasTypeVars(t) {
      var ts := ToVariable(t);
    }
    if ts: seq<Type> :| PartOfPart(ts) && ts[0] == t && ts[|ts| - 1].kind == KVar {
      FromVariable(ts);
    }
  }

  lemma {:induction false} ToVariable(t: Type) returns (ts: seq<Type>)
    requires HasTypeVars(t)
    ensures PartOfPart(ts) && ts[0] == t && ts[|ts| - 1].kind == KVar
    decreases t
  {
    if t.kind == KVar {
      ts := [t];
    } else {
      var rest;
      if t.closure.Some? && HasTypeVars(t.closure.value) {
        rest := ToVariable(t.closure.value);
      } else {
        match t.kind
        case KFn(from, to) => rest := ToVariable(if HasTypeVars(from) then from else to);
        case KCons(args) =>
          var a :| a in args && HasTypeVars(a);
          rest := ToVariable(a);
        case KSum(args) =>
          var a :| a in args && HasTypeVars(a);
          rest := ToVariable(a);
      }
      ts := [t] + rest;
    }
  }

  lemma {:induction false} FromVariable(ts: seq<Type>)
    requires PartOfPart(ts) && ts[|ts| - 1].kind == KVar
    ensures HasTypeVars(ts[0])
    decreases |ts|
  {
    if |ts| > 1 {
      forall k | 0 <= k < |ts[1..]| - 1 ensures ts[1..][k + 1] in Parts(ts[1..][k]) {
        assert ts[k + 2] in Parts(ts[k + 1]);
      }
      FromVariable(ts[1..]);
      assert ts[1] in Parts(ts[0]);
    }
  }

  // ---- Results ---------------------------------------------------------------------------------

  /** The type is `froms[0] -> froms[1] -> ... -> rest`. */
  predicate Takes(ty: Type, froms: seq<Type>, rest: Type) {
    if froms == [] then ty == rest
    else ty.kind.KFn? && ty.kind.from == froms[0] && Takes(ty.kind.to, froms[1..], rest)
  }

  predicate NoEnv(params: seq<Param>) {
    forall i :: 0 <= i < |params| ==> params[i].name != "$env"
  }

  /** What is left after a function's parameters, if it is a function from nothing: its result. */
  function Applied(rest: Type, hasEnv: bool): Type {
    if rest.kind.KFn? && rest.kind.from.kind == KVoid && (hasEnv || rest.closure.None?) then rest.kind.to else rest
  }

  lemma {:induction false} ReturnFrom(f: Function, i: nat, ty: Type, hasEnv: bool, froms: seq<Type>, rest: Type)
    requires i <= |f.params| && NoEnv(f.params[i..]) && Takes(ty, froms, rest)
    requires |froms| == |f.params| - i || (|froms| < |f.params| - i && !rest.kind.KFn?)
    ensures ReturnTypeFrom(f, i, ty, hasEnv) == Applied(rest, hasEnv)
    decreases |f.params| - i
  {
    if froms != [] {
      assert f.params[i] == f.params[i..][0] && f.params[i + 1..] == f.params[i..][1..];
      ReturnFrom(f, i + 1, ty.kind.to, hasEnv, froms[1..], rest);
    }
  }

  /** A function without `$env` of type `p1 -> ... -> pn -> r` with `n` parameters returns `r`, or `x` if `r` is
      `Void -> x` and no closure. */
  lemma ReturnsAfterParams(f: Function, froms: seq<Type>, r: Type)
    requires NoEnv(f.params) && Takes(f.ty, froms, r) && |froms| == |f.params|
    ensures !r.kind.KFn? ==> ReturnType(f) == r
    ensures r.kind.KFn? && r.kind.from.kind == KVoid && r.closure.None? ==> ReturnType(f) == r.kind.to
    ensures r.kind.KFn? && (r.kind.from.kind != KVoid || r.closure.Some?) ==> ReturnType(f) == r
  {
    assert f.params[0..] == f.params;
    ReturnFrom(f, 0, f.ty, false, froms, r);
  }

  /** A function without parameters of type `Void -> r`, no closure, returns `r`. */
  lemma ReturnsFromNothing(f: Function)
    requires f.params == [] && f.ty.kind.KFn? && f.ty.kind.from.kind == KVoid && f.ty.closure.None?
    ensures ReturnType(f) == f.ty.kind.to
  {
    assert Takes(f.ty, [], f.ty);
    ReturnsAfterParams(f, [], f.ty);
  }

  /** With `$env` in front, the type may take the environment or leave it out; a function from nothing that is left is
      applied, closure or not. */
  lemma ReturnsWithEnv(f: Function, froms: seq<Type>, r: Type)
    requires f.params != [] && f.params[0].name == "$env" && NoEnv(f.params[1..]) && Takes(f.ty, froms, r)
    requires if f.ty.kind.KFn? && f.ty.kind.from == f.params[0].ty then |froms| == |f.params|
             else |froms| == |f.params| - 1 && f.ty.kind.KFn?
    ensures !r.kind.KFn? ==> ReturnType(f) == r
    ensures r.kind.KFn? && r.kind.from.kind == KVoid ==> ReturnType(f) == r.kind.to
    ensures r.kind.KFn? && r.kind.from.kind != KVoid ==> ReturnType(f) == r
  {
    if f.ty.kind.from == f.params[0].ty {
      ReturnFrom(f, 1, f.ty.kind.to, true, froms[1..], r);
    } else {
      ReturnFrom(f, 1, f.ty, true, froms, r);
    }
  }

  /** Parameters beyond those of the type change nothing. */
  lemma ReturnsEarly(f: Function, froms: seq<Type>, r: Type)
    requires NoEnv(f.params) && Takes(f.ty, froms, r) && |froms| <= |f.params| && !r.kind.KFn?
    ensures ReturnType(f) == r
  {
    assert f.params[0..] == f.params;
    ReturnFrom(f, 0, f.ty, false, froms, r);
  }

  // ---- Function types --------------------------------------------------------------------------

  /** The parameters that are passed: all but the environment and those without a value. */
  predicate Passed(p: Param) {
    p.name != "$env" && p.ty.kind != KVoid && p.ty.kind != KModule && p.ty.kind != KVar && p.ty.kind != KOther
  }

  /** How many of the first `n` parameters are passed. */
  function PassedBefore(params: seq<Param>, n: nat): (k: nat)
    requires n <= |params|
    ensures k <= n
  {
    if n == 0 then 0 else PassedBefore(params, n - 1) + if Passed(params[n - 1]) then 1 else 0
  }

  lemma {:induction false} ParamTypesSnoc(params: seq<Param>, p: Param)
    ensures ParamTypes(params + [p]) == ParamTypes(params) + if Passed(p) then [TypeToVal(p.ty).value] else []
  {
    ClassOfType(p.ty);
    if params == [] {
      assert params + [p] == [p] && [p][1..] == [];
    } else {
      assert (params + [p])[0] == params[0] && (params + [p])[1..] == params[1..] + [p];
      ParamTypesSnoc(params[1..], p);
    }
  }

  /** The WebAssembly parameters are the passed ones in order, each of its class. */
  lemma {:induction false} ParamTypesAre(params: seq<Param>, i: nat)
    requires i < |params|
    ensures |ParamTypes(params)| == PassedBefore(params, |params|)
    ensures Passed(params[i]) ==>
              && PassedBefore(params, i) < |ParamTypes(params)|
              && Some(ParamTypes(params)[PassedBefore(params, i)]) == TypeToVal(params[i].ty)
    decreases |params|
  {
    var n := |params| - 1;
    var front := params[..n];
    assert params == front + [params[n]];
    ParamTypesSnoc(front, params[n]);
    SameCount(front, params, n);
    ClassOfType(params[i].ty);
    if n > 0 {
      ParamTypesAre(front, if i < n then i else 0);
      SameCount(front, params, if i < n then i else 0);
    }
  }

  lemma {:induction false} SameCount(a: seq<Param>, b: seq<Param>, n: nat)
    requires n <= |a| && n <= |b| && a[..n] == b[..n]
    ensures PassedBefore(a, n) == PassedBefore(b, n)
    decreases n
  {
    if n > 0 {
      assert a[n - 1] == a[..n][n - 1] && b[n - 1] == b[..n][n - 1];
      assert a[..n - 1] == a[..n][..n - 1] && b[..n - 1] == b[..n][..n - 1];
      SameCount(a, b, n - 1);
    }
  }

  /** A function of type `p1 -> ... -> pn -> r` with `n` parameters has the class of `r` as its WebAssembly result, or
      that of `x` for `Void -> x`. */
  lemma ResultOfFunction(f: Function, froms: seq<Type>, r: Type)
    requires NoEnv(f.params) && Takes(f.ty, froms, r) && |froms| == |f.params|
    ensures var x := if r.kind.KFn? && r.kind.from.kind == KVoid && r.closure.None? then r.kind.to else r;
            && (TypeOfFunction(f).result == Some(I64) <==> x.kind == KUint64)
            && (TypeOfFunction(f).result == Some(F64) <==> x.kind == KNum)
            && (TypeOfFunction(f).result.None?
                <==> x.kind == KVoid || x.kind == KModule || x.kind == KVar || x.kind == KOther)
            && TypeOfFunction(f).result != Some(F32)
  {
    ReturnsAfterParams(f, froms, r);
    ClassOfType(ReturnType(f));
  }
}
