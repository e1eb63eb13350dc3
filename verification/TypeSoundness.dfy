/** Type soundness: what evaluation returns is null or has the kind that inference gives. */
module TypeSoundness {
  import opened Common
  import opened DataValues
  import opened ExprEvaluator

  predicate HasKind(v: Value, t: EngineType) {
    match t
    case TString => v.Str?
    case TNumber => v.Num?
    case TBoolean => v.Bool?
    case TNull => v.Null?
    case TDatetime => v.Str?
    case TJson => true
    case TArray(_) => v.Arr?
    case TRecord(_) => v.Obj?
    case TRowset => v.Obj?
    case TAny => true
  }

  predicate Fits(v: Value, t: EngineType) {
    v == Null || HasKind(v, t)
  }

  /** Level by level, the two chains bind the same names and the values fit the types. */
  ghost predicate ScopesAgree(scope: Scope, types: TypeScope) {
    match (scope, types)
    case (NoScope, NoTypes) => true
    case (Scope(bindings, parent), Types(typeBindings, typeParent)) =>
      && bindings.Keys == typeBindings.Keys
      && (forall n :: n in bindings ==> Fits(bindings[n], typeBindings[n]))
      && ScopesAgree(parent, typeParent)
    case _ => false
  }

  ghost predicate AllFit(vs: seq<Value>, ts: seq<EngineType>) {
    |vs| == |ts| && forall i :: 0 <= i < |vs| ==> Fits(vs[i], ts[i])
  }

  /** Every registered function returns what its inference announces. */
  ghost predicate FunctionsHonourTypes(env: Env) {
    forall name, vs, ts :: name in env.functions && AllFit(vs, ts) && env.functions[name].execute(vs).Ok? ==>
      Fits(env.functions[name].execute(vs).value, env.functions[name].infer(ts))
  }

  /** Where an expression's type comes from its parts, literals carry a fitting type and
      both branches of a conditional have the same type. */
  ghost predicate WellAnnotated(e: Expr, types: TypeScope, env: Env) {
    match e
    case Literal(v, ty) => Fits(v, ty)
    case Call(_, args) => forall a :: a in args ==> WellAnnotated(a, types, env)
    case Conditional(_, onTrue, onFalse) =>
      && WellAnnotated(onTrue, types, env) && WellAnnotated(onFalse, types, env)
      && InferType(onTrue, types, env) == InferType(onFalse, types, env)
    case _ => true
  }

  lemma {:induction false} ResolutionAgrees(name: string, scope: Scope, types: TypeScope)
    requires ScopesAgree(scope, types)
    ensures Resolve(name, scope).Some? <==> ResolveType(name, types).Some?
    ensures Resolve(name, scope).Some? ==> Fits(Resolve(name, scope).value, ResolveType(name, types).value)
  {
    if scope.Scope? && name !in scope.bindings {
      ResolutionAgrees(name, scope.parent, types.parent);
    }
  }

  lemma CastFits(v: Value, to: EngineType, env: Env)
    ensures CastValue(v, to, env).Ok? ==> Fits(CastValue(v, to, env).value, to)
  {
  }

  lemma {:induction false} EvaluationFitsInference(
    e: Expr, scope: Scope, types: TypeScope, row: Option<Row>, env: Env)
    requires ScopesAgree(scope, types) && FunctionsHonourTypes(env) && WellAnnotated(e, types, env)
    requires InferType(e, types, env).Ok? && Evaluate(e, scope, row, env).Ok?
    ensures Fits(Evaluate(e, scope, row, env).value, InferType(e, types, env).value)
    decreases e, 1
  {
    match e
    case VarRef(name) =>
      ResolutionAgrees(name, scope, types);
    case Call(name, args) =>
      ArgumentsFit(args, scope, types, row, env);
      assert AllFit(EvaluateAll(args, scope, row, env).value, InferAll(args, types, env).value);
    case Conditional(condition, onTrue, onFalse) =>
      if Truthy(Evaluate(condition, scope, row, env).value) {
        EvaluationFitsInference(onTrue, scope, types, row, env);
      } else {
        EvaluationFitsInference(onFalse, scope, types, row, env);
      }
    case Cast(expr, to) =>
      CastFits(Evaluate(expr, scope, row, env).value, to, env);
    case _ =>
  }

  lemma {:induction false} ArgumentsFit(
    es: seq<Expr>, scope: Scope, types: TypeScope, row: Option<Row>, env: Env)
    requires ScopesAgree(scope, types) && FunctionsHonourTypes(env)
    requires forall a :: a in es ==> WellAnnotated(a, types, env)
    requires InferAll(es, types, env).Ok? && EvaluateAll(es, scope, row, env).Ok?
    ensures AllFit(EvaluateAll(es, scope, row, env).value, InferAll(es, types, env).value)
    decreases es, 0
  {
    if es != [] {
      EvaluationFitsInference(es[0], scope, types, row, env);
      ArgumentsFit(es[1..], scope, types, row, env);
    }
  }
}
