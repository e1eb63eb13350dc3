/** Stripping references to fields that do not exist.  The code walks the JSON of an
    expression without knowing its grammar; it is modelled on JSON and then related to
    the expressions the JSON stands for. */
module ExprSanitizer {
  import opened Common
  import opened DataValues
  import opened ExprEvaluator

  // ----- the walk over JSON -----

  function NullLiteral(): Value {
    Obj(map["kind" := Str("Literal"), "value" := Null, "type" := Obj(map["kind" := Str("string")])])
  }

  predicate IsFieldRef(fields: map<string, Value>) {
    "kind" in fields && fields["kind"] == Str("FieldRef")
  }

  predicate IsAvailable(fields: map<string, Value>, available: set<string>) {
    "field" in fields && fields["field"].Str? && fields["field"].s in available
  }

  function Decimal(n: nat): (s: string)
    ensures s != "" && '0' <= s[|s| - 1] <= '9'
  {
    (if n < 10 then "" else Decimal(n / 10)) + [('0' as int + n % 10) as char]
  }

  /** An array met directly inside an array loses its arrayness: it comes back as an object
      keyed by its indices. */
  function Fix(v: Value, available: set<string>): Value
    decreases v, 0
  {
    match v
    case Arr(items) => Obj(Indexed(items, |items|, available))
    case Obj(fields) =>
      if IsFieldRef(fields) then if IsAvailable(fields, available) then v else NullLiteral()
      else Obj(map k | k in fields :: FixProperty(fields[k], available))
    case _ => v
  }

  function FixProperty(v: Value, available: set<string>): Value
    decreases v, 1
  {
    match v
    case Arr(items) => Arr(seq(|items|, i requires 0 <= i < |items| => Fix(items[i], available)))
    case _ => Fix(v, available)
  }

  function Indexed(items: seq<Value>, n: nat, available: set<string>): map<string, Value>
    requires n <= |items|
    decreases items, n
  {
    if n == 0 then map[]
    else Indexed(items, n - 1, available)[Decimal(n - 1) := FixProperty(items[n - 1], available)]
  }

  function FixExprFieldRefs(v: Value, available: seq<string>): Value {
    if available == [] then v else Fix(v, Elems(available))
  }

  // ----- what the walk leaves alone -----

  /** No reference to an unavailable field, and no array directly inside an array. */
  ghost predicate Clean(v: Value, available: set<string>)
    decreases v, 0
  {
    match v
    case Arr(_) => false
    case Obj(fields) =>
      if IsFieldRef(fields) then IsAvailable(fields, available)
      else forall k <- fields :: CleanProperty(fields[k], available)
    case _ => true
  }

  ghost predicate CleanProperty(v: Value, available: set<string>)
    decreases v, 1
  {
    match v
    case Arr(items) => forall i :: 0 <= i < |items| ==> Clean(items[i], available)
    case _ => Clean(v, available)
  }

  /** The walk changes nothing exactly where there is nothing to change. */
  lemma {:induction false} FixKeepsExactlyTheClean(v: Value, available: set<string>)
    ensures Fix(v, available) == v <==> Clean(v, available)
    decreases v, 0
  {
    match v
    case Arr(_) =>
    case Obj(fields) =>
      forall k | k in fields
        ensures FixProperty(fields[k], available) == fields[k] <==> CleanProperty(fields[k], available)
      {
        FixPropertyKeepsExactlyTheClean(fields[k], available);
      }
      if IsFieldRef(fields) {
        assert "field" !in NullLiteral().fields;
      } else {
        var fixed := map k | k in fields :: FixProperty(fields[k], available);
        assert fixed == fields <==> forall k <- fields :: fixed[k] == fields[k];
      }
    case _ =>
  }

  lemma {:induction false} FixPropertyKeepsExactlyTheClean(v: Value, available: set<string>)
    ensures FixProperty(v, available) == v <==> CleanProperty(v, available)
    decreases v, 1
  {
    match v
    case Arr(items) =>
      forall i | 0 <= i < |items|
        ensures Fix(items[i], available) == items[i] <==> Clean(items[i], available)
      {
        FixKeepsExactlyTheClean(items[i], available);
      }
      var fixed := seq(|items|, i requires 0 <= i < |items| => Fix(items[i], available));
      assert fixed == items <==> forall i :: 0 <= i < |items| ==> fixed[i] == items[i];
    case _ => FixKeepsExactlyTheClean(v, available);
  }

  /** Whatever it is given, the walk leaves only available references. */
  lemma {:induction false} FixCleans(v: Value, available: set<string>)
    ensures Clean(Fix(v, available), available)
    decreases v, 0
  {
    match v
    case Arr(items) =>
      IndexedIsClean(items, |items|, available);
    case Obj(fields) =>
      if !IsFieldRef(fields) {
        forall k | k in fields
          ensures CleanProperty(FixProperty(fields[k], available), available)
        {
          FixPropertyCleans(fields[k], available);
        }
        KindIsKept(fields, Fix(v, available).fields, available);
      }
    case _ =>
  }

  lemma {:induction false} FixPropertyCleans(v: Value, available: set<string>)
    ensures CleanProperty(FixProperty(v, available), available)
    decreases v, 1
  {
    match v
    case Arr(items) =>
      forall i | 0 <= i < |items|
        ensures Clean(Fix(items[i], available), available)
      {
        FixCleans(items[i], available);
      }
    case _ =>
      FixCleans(v, available);
      assert !Fix(v, available).Arr?;
  }

  lemma {:induction false} IndexedIsClean(items: seq<Value>, n: nat, available: set<string>)
    requires n <= |items|
    ensures forall k <- Indexed(items, n, available) :: CleanProperty(Indexed(items, n, available)[k], available)
    ensures !IsFieldRef(Indexed(items, n, available))
    decreases items, n
  {
    if n > 0 {
      IndexedIsClean(items, n - 1, available);
      FixPropertyCleans(items[n - 1], available);
      assert "kind"[3] == 'd';
      assert Decimal(n - 1) != "kind";
    }
  }

  /** An object does not become a reference by being walked. */
  lemma KindIsKept(fields: map<string, Value>, fixed: map<string, Value>, available: set<string>)
    requires !IsFieldRef(fields) && fields.Keys == fixed.Keys
    requires forall k <- fields :: fixed[k] == FixProperty(fields[k], available)
    ensures !IsFieldRef(fixed)
  {
    if "kind" in fields {
      var kind := fields["kind"];
      assert kind.Str? ==> FixProperty(kind, available) == kind;
      assert !kind.Str? ==> !FixProperty(kind, available).Str?;
    }
  }

  /** Sanitizing twice is sanitizing once. */
  lemma FixIsIdempotent(v: Value, available: seq<string>)
    ensures FixExprFieldRefs(FixExprFieldRefs(v, available), available) == FixExprFieldRefs(v, available)
  {
    if available != [] {
      FixCleans(v, Elems(available));
      FixKeepsExactlyTheClean(Fix(v, Elems(available)), Elems(available));
    }
  }

  // ----- the same on expressions -----

  function OpName(op: BinaryOp): string {
    match op
    case Add => "+" case Sub => "-" case Mul => "*" case Div => "/" case Mod => "%"
    case Eq => "=" case Ne => "!=" case Lt => "<" case Gt => ">" case Le => "<=" case Ge => ">="
    case And => "AND" case Or => "OR"
    case Like => "LIKE" case Concat => "CONCAT"
  }

  function TypeJson(t: EngineType): Value
    decreases t, 0
  {
    match t
    case TArray(item) => Obj(map["kind" := Str("array"), "item" := TypeJson(item)])
    case TRecord(fields) => Obj(map["kind" := Str("record"), "fields" := Obj(map k | k in fields :: TypeJson(fields[k]))])
    case _ =>
      Obj(map["kind" := Str(
        match t
        case TString => "string" case TNumber => "number" case TBoolean => "boolean" case TNull => "null"
        case TDatetime => "datetime" case TJson => "json" case TRowset => "rowset" case _ => "any")])
  }

  /** The JSON of an expression. */
  function ToJson(e: Expr): Value
    decreases e, 1
  {
    match e
    case Literal(v, ty) => Obj(map["kind" := Str("Literal"), "value" := v, "type" := TypeJson(ty)])
    case FieldRef(table, field) =>
      if table == "" then Obj(map["kind" := Str("FieldRef"), "field" := Str(field)])
      else Obj(map["kind" := Str("FieldRef"), "table" := Str(table), "field" := Str(field)])
    case VarRef(name) => Obj(map["kind" := Str("VarRef"), "name" := Str(name)])
    case Binary(op, left, right) =>
      Obj(map["kind" := Str("BinaryOp"), "op" := Str(OpName(op)), "left" := ToJson(left), "right" := ToJson(right)])
    case Unary(op, operand) =>
      Obj(map["kind" := Str("UnaryOp"), "op" := Str(if op == Not then "NOT" else "NEG"), "operand" := ToJson(operand)])
    case Call(name, args) =>
      Obj(map["kind" := Str("FunctionCall"), "name" := Str(name), "args" := Arr(AllToJson(args))])
    case Conditional(condition, onTrue, onFalse) =>
      Obj(map["kind" := Str("Conditional"), "condition" := ToJson(condition),
              "then" := ToJson(onTrue), "else" := ToJson(onFalse)])
    case Cast(expr, to) => Obj(map["kind" := Str("Cast"), "expr" := ToJson(expr), "to" := TypeJson(to)])
    case IsNull(expr) => Obj(map["kind" := Str("IsNull"), "expr" := ToJson(expr)])
    case In(expr, values) => Obj(map["kind" := Str("In"), "expr" := ToJson(expr), "values" := Arr(AllToJson(values))])
    case Between(expr, low, high) =>
      Obj(map["kind" := Str("Between"), "expr" := ToJson(expr), "low" := ToJson(low), "high" := ToJson(high)])
    case Window(fn, over, partition, orderBy) =>
      Obj(map["kind" := Str("WindowExpr"), "fn" := Str(fn), "over" := ToJson(over),
              "partition" := Arr(AllToJson(partition)), "orderBy" := Arr(AllToJson(orderBy))])
    case SqlExpr(sql) => Obj(map["kind" := Str("SqlExpr"), "sql" := Str(sql)])
    case Wildcard => Obj(map["kind" := Str("Wildcard")])
  }

  function AllToJson(es: seq<Expr>): seq<Value>
    decreases es, 0
  {
    if es == [] then [] else [ToJson(es[0])] + AllToJson(es[1..])
  }

  /** Sanitizing an expression: unavailable references become the literal null.  The
      values of literals are walked too. */
  function Sanitize(e: Expr, available: set<string>): Expr
    decreases e, 1
  {
    match e
    case Literal(v, ty) => Literal(FixProperty(v, available), ty)
    case FieldRef(_, field) => if field in available then e else Literal(Null, TString)
    case Binary(op, left, right) => Binary(op, Sanitize(left, available), Sanitize(right, available))
    case Unary(op, operand) => Unary(op, Sanitize(operand, available))
    case Call(name, args) => Call(name, SanitizeAll(args, available))
    case Conditional(condition, onTrue, onFalse) =>
      Conditional(Sanitize(condition, available), Sanitize(onTrue, available), Sanitize(onFalse, available))
    case Cast(expr, to) => Cast(Sanitize(expr, available), to)
    case IsNull(expr) => IsNull(Sanitize(expr, available))
    case In(expr, values) => In(Sanitize(expr, available), SanitizeAll(values, available))
    case Between(expr, low, high) =>
      Between(Sanitize(expr, available), Sanitize(low, available), Sanitize(high, available))
    case Window(fn, over, partition, orderBy) =>
      Window(fn, Sanitize(over, available), SanitizeAll(partition, available), SanitizeAll(orderBy, available))
    case _ => e
  }

  function SanitizeAll(es: seq<Expr>, available: set<string>): (r: seq<Expr>)
    ensures |r| == |es|
    decreases es, 0
  {
    if es == [] then [] else [Sanitize(es[0], available)] + SanitizeAll(es[1..], available)
  }

  lemma KindedIsClean(fields: map<string, Value>, available: set<string>)
    requires "kind" in fields && fields["kind"].Str? && fields["kind"].s != "FieldRef"
    requires forall k <- fields :: CleanProperty(fields[k], available)
    ensures Clean(Obj(fields), available)
  {
  }

  /** An object whose properties are all objects is no reference. */
  lemma NestedIsClean(inner: map<string, Value>, available: set<string>)
    requires forall k <- inner :: inner[k].Obj? && Clean(inner[k], available)
    ensures Clean(Obj(inner), available)
  {
    assert "kind" in inner ==> inner["kind"].Obj?;
    assert forall k <- inner :: CleanProperty(inner[k], available);
  }

  lemma {:induction false} TypeJsonIsClean(t: EngineType, available: set<string>)
    ensures Clean(TypeJson(t), available) && TypeJson(t).Obj?
  {
    match t
    case TArray(item) =>
      TypeJsonIsClean(item, available);
      KindedIsClean(TypeJson(t).fields, available);
    case TRecord(fields) =>
      forall k | k in fields
        ensures Clean(TypeJson(fields[k]), available) && TypeJson(fields[k]).Obj?
      {
        TypeJsonIsClean(fields[k], available);
      }
      NestedIsClean(TypeJson(t).fields["fields"].fields, available);
      KindedIsClean(TypeJson(t).fields, available);
    case _ =>
      KindedIsClean(TypeJson(t).fields, available);
  }

  lemma TypeJsonWalked(t: EngineType, available: set<string>)
    ensures FixProperty(TypeJson(t), available) == TypeJson(t)
  {
    TypeJsonIsClean(t, available);
    FixKeepsExactlyTheClean(TypeJson(t), available);
  }

  ghost predicate Walked(e: Expr, available: set<string>) {
    ToJson(e).Obj? && Fix(ToJson(e), available) == ToJson(Sanitize(e, available))
  }

  ghost predicate AllWalked(es: seq<Expr>, available: set<string>) {
    FixProperty(Arr(AllToJson(es)), available) == Arr(AllToJson(SanitizeAll(es, available)))
  }

  /** An object other than a reference is walked property by property. */
  lemma WalkedObject(fields: map<string, Value>, fixed: map<string, Value>, available: set<string>)
    requires !IsFieldRef(fields) && fields.Keys == fixed.Keys
    requires forall k <- fields :: FixProperty(fields[k], available) == fixed[k]
    ensures Fix(Obj(fields), available) == Obj(fixed)
  {
    assert (map k | k in fields :: FixProperty(fields[k], available)) == fixed;
  }

  lemma ArrayWalked(head: Value, tail: seq<Value>, available: set<string>)
    ensures FixProperty(Arr([head] + tail), available)
         == Arr([Fix(head, available)] + FixProperty(Arr(tail), available).items)
  {
    assert ([head] + tail)[1..] == tail;
  }

  lemma LeafWalked(e: Expr, available: set<string>)
    requires e.VarRef? || e.SqlExpr? || e.Wildcard? ||
             (e.Literal? && FixProperty(TypeJson(e.ty), available) == TypeJson(e.ty))
    ensures Walked(e, available)
  {
    WalkedObject(ToJson(e).fields, ToJson(Sanitize(e, available)).fields, available);
  }

  lemma BinaryWalked(e: Expr, available: set<string>)
    requires e.Binary? && Walked(e.left, available) && Walked(e.right, available)
    ensures Walked(e, available)
  {
    var op := Str(OpName(e.op));
    ThreeProperties("BinaryOp", ("op", "left", "right"), (op, ToJson(e.left), ToJson(e.right)),
      (op, ToJson(Sanitize(e.left, available)), ToJson(Sanitize(e.right, available))), available);
  }

  lemma UnaryWalked(e: Expr, available: set<string>)
    requires (e.Unary? && Walked(e.operand, available)) || (e.IsNull? && Walked(e.expr, available))
    ensures Walked(e, available)
  {
    WalkedObject(ToJson(e).fields, ToJson(Sanitize(e, available)).fields, available);
  }

  lemma CallWalked(e: Expr, available: set<string>)
    requires e.Call?
    requires AllWalked(e.args, available)
    ensures Walked(e, available)
  {
    WalkedObject(ToJson(e).fields, ToJson(Sanitize(e, available)).fields, available);
  }

  lemma ThreeProperties(
    kind: string, names: (string, string, string), before: (Value, Value, Value), after: (Value, Value, Value),
    available: set<string>)
    requires kind != "FieldRef" && "kind" !in [names.0, names.1, names.2]
    requires FixProperty(before.0, available) == after.0
    requires FixProperty(before.1, available) == after.1
    requires FixProperty(before.2, available) == after.2
    ensures Fix(Obj(map["kind" := Str(kind), names.0 := before.0, names.1 := before.1, names.2 := before.2]), available)
         == Obj(map["kind" := Str(kind), names.0 := after.0, names.1 := after.1, names.2 := after.2])
  {
    var was := map["kind" := Str(kind), names.0 := before.0, names.1 := before.1, names.2 := before.2];
    assert "kind" != names.0 && "kind" != names.1 && "kind" != names.2;
    WalkedObject(was, map["kind" := Str(kind), names.0 := after.0, names.1 := after.1, names.2 := after.2], available);
  }

  lemma ConditionalWalked(e: Expr, available: set<string>)
    requires e.Conditional?
    requires Walked(e.condition, available) && Walked(e.onTrue, available) && Walked(e.onFalse, available)
    ensures Walked(e, available)
  {
    ThreeProperties("Conditional", ("condition", "then", "else"),
      (ToJson(e.condition), ToJson(e.onTrue), ToJson(e.onFalse)),
      (ToJson(Sanitize(e.condition, available)), ToJson(Sanitize(e.onTrue, available)),
       ToJson(Sanitize(e.onFalse, available))), available);
  }

  lemma CastWalked(e: Expr, available: set<string>)
    requires e.Cast?
    requires Walked(e.expr, available) && FixProperty(TypeJson(e.to), available) == TypeJson(e.to)
    ensures Walked(e, available)
  {
    WalkedObject(ToJson(e).fields, ToJson(Sanitize(e, available)).fields, available);
  }

  lemma InWalked(e: Expr, available: set<string>)
    requires e.In?
    requires Walked(e.expr, available) && AllWalked(e.values, available)
    ensures Walked(e, available)
  {
    WalkedObject(ToJson(e).fields, ToJson(Sanitize(e, available)).fields, available);
  }

  lemma BetweenJson(e: Expr)
    requires e.Between?
    ensures ToJson(e) == Obj(map["kind" := Str("Between"), "expr" := ToJson(e.expr), "low" := ToJson(e.low), "high" := ToJson(e.high)])
  {
  }

  lemma BetweenSanitized(e: Expr, available: set<string>)
    requires e.Between?
    ensures Sanitize(e, available)
            == Between(Sanitize(e.expr, available), Sanitize(e.low, available), Sanitize(e.high, available))
  {
  }

  lemma BetweenWalked(e: Expr, available: set<string>)
    requires e.Between? && Walked(e.expr, available) && Walked(e.low, available) && Walked(e.high, available)
    ensures Walked(e, available)
  {
    var x, low, high := Sanitize(e.expr, available), Sanitize(e.low, available), Sanitize(e.high, available);
    BetweenSanitized(e, available);
    BetweenJson(e);
    BetweenJson(Between(x, low, high));
    ThreeProperties("Between", ("expr", "low", "high"), (ToJson(e.expr), ToJson(e.low), ToJson(e.high)),
      (ToJson(x), ToJson(low), ToJson(high)), available);
  }

  lemma FourProperties(
    kind: string, names: (string, string, string, string), before: (Value, Value, Value, Value),
    after: (Value, Value, Value, Value), available: set<string>)
    requires kind != "FieldRef" && "kind" !in [names.0, names.1, names.2, names.3]
    requires FixProperty(before.0, available) == after.0 && FixProperty(before.1, available) == after.1
    requires FixProperty(before.2, available) == after.2 && FixProperty(before.3, available) == after.3
    ensures Fix(Obj(map["kind" := Str(kind), names.0 := before.0, names.1 := before.1,
                        names.2 := before.2, names.3 := before.3]), available)
         == Obj(map["kind" := Str(kind), names.0 := after.0, names.1 := after.1, names.2 := after.2, names.3 := after.3])
  {
    var was := map["kind" := Str(kind), names.0 := before.0, names.1 := before.1, names.2 := before.2, names.3 := before.3];
    assert "kind" != names.0 && "kind" != names.1 && "kind" != names.2 && "kind" != names.3;
    WalkedObject(was,
      map["kind" := Str(kind), names.0 := after.0, names.1 := after.1, names.2 := after.2, names.3 := after.3], available);
  }

  lemma WindowWalked(e: Expr, available: set<string>)
    requires e.Window? && Walked(e.over, available) && AllWalked(e.partition, available) && AllWalked(e.orderBy, available)
    ensures Walked(e, available)
  {
    FourProperties("WindowExpr", ("fn", "over", "partition", "orderBy"),
      (Str(e.fn), ToJson(e.over), Arr(AllToJson(e.partition)), Arr(AllToJson(e.orderBy))),
      (Str(e.fn), ToJson(Sanitize(e.over, available)), Arr(AllToJson(SanitizeAll(e.partition, available))),
       Arr(AllToJson(SanitizeAll(e.orderBy, available)))), available);
  }

  /** The walk over JSON, which knows no grammar, does to the JSON of an expression what
      sanitizing does to the expression. */
  lemma {:induction false} WalkSanitizes(e: Expr, available: set<string>)
    ensures Walked(e, available)
    decreases e, 1
  {
    match e
    case FieldRef(_, _) =>
      assert TypeJson(TString) == Obj(map["kind" := Str("string")]);
    case Literal(_, ty) =>
      TypeJsonWalked(ty, available);
      LeafWalked(e, available);
    case Binary(_, left, right) =>
      WalkSanitizes(left, available);
      WalkSanitizes(right, available);
      BinaryWalked(e, available);
    case Unary(_, operand) =>
      WalkSanitizes(operand, available);
      UnaryWalked(e, available);
    case Call(_, args) =>
      WalkSanitizesAll(args, available);
      CallWalked(e, available);
    case Conditional(condition, onTrue, onFalse) =>
      WalkSanitizes(condition, available);
      WalkSanitizes(onTrue, available);
      WalkSanitizes(onFalse, available);
      ConditionalWalked(e, available);
    case Cast(expr, to) =>
      WalkSanitizes(expr, available);
      TypeJsonWalked(to, available);
      CastWalked(e, available);
    case IsNull(expr) =>
      WalkSanitizes(expr, available);
      UnaryWalked(e, available);
    case In(expr, values) =>
      WalkSanitizes(expr, available);
      WalkSanitizesAll(values, available);
      InWalked(e, available);
    case Between(expr, low, high) =>
      WalkSanitizes(expr, available);
      WalkSanitizes(low, available);
      WalkSanitizes(high, available);
      BetweenWalked(e, available);
    case Window(_, over, partition, orderBy) =>
      WalkSanitizes(over, available);
      WalkSanitizesAll(partition, available);
      WalkSanitizesAll(orderBy, available);
      WindowWalked(e, available);
    case _ => LeafWalked(e, available);
  }

  lemma {:induction false} WalkSanitizesAll(es: seq<Expr>, available: set<string>)
    ensures AllWalked(es, available)
    decreases es, 0
  {
    if es != [] {
      WalkSanitizes(es[0], available);
      WalkSanitizesAll(es[1..], available);
      ArrayWalked(ToJson(es[0]), AllToJson(es[1..]), available);
      var rest := SanitizeAll(es[1..], available);
      assert ([Sanitize(es[0], available)] + rest)[1..] == rest;
    }
  }

  // ----- what sanitizing means -----

  /** Literal values are left alone, and a reference to an unavailable field is
      unprefixed and among `missing`. */
  ghost predicate Strippable(e: Expr, available: set<string>, missing: set<string>)
    decreases e, 1
  {
    match e
    case Literal(v, _) => CleanProperty(v, available)
    case FieldRef(table, field) => field in available || (table == "" && field in missing)
    case Binary(_, left, right) => Strippable(left, available, missing) && Strippable(right, available, missing)
    case Unary(_, operand) => Strippable(operand, available, missing)
    case Call(_, args) => AllStrippable(args, available, missing)
    case Conditional(condition, onTrue, onFalse) =>
      && Strippable(condition, available, missing)
      && Strippable(onTrue, available, missing) && Strippable(onFalse, available, missing)
    case Cast(expr, _) => Strippable(expr, available, missing)
    case IsNull(expr) => Strippable(expr, available, missing)
    case In(expr, values) => Strippable(expr, available, missing) && AllStrippable(values, available, missing)
    case Between(expr, low, high) =>
      && Strippable(expr, available, missing)
      && Strippable(low, available, missing) && Strippable(high, available, missing)
    case _ => true
  }

  ghost predicate AllStrippable(es: seq<Expr>, available: set<string>, missing: set<string>)
    decreases es, 0
  {
    es == [] || (Strippable(es[0], available, missing) && AllStrippable(es[1..], available, missing))
  }

  function WithNulls(row: Row, missing: set<string>): Row {
    row + map name | name in missing :: Null
  }

  lemma LookupUnderNulls(table: string, field: string, scope: Scope, row: Row, missing: set<string>)
    requires forall name <- missing :: '.' !in name
    ensures field in missing && table == "" ==>
              EvaluateField(table, field, scope, Some(WithNulls(row, missing))) == Ok(Null)
    ensures field !in missing ==>
              EvaluateField(table, field, scope, Some(WithNulls(row, missing)))
              == EvaluateField(table, field, scope, Some(row))
  {
    assert (table + "." + field)[|table|] == '.';
    assert ("left." + field)[4] == '.' && ("right." + field)[5] == '.';
    assert table + "." + field !in missing && "left." + field !in missing && "right." + field !in missing;
  }

  /** Sanitizing is substitution of null: the sanitized expression has on every row the
      value, or the failure, that the original has once each missing field reads as null. */
  lemma {:induction false} SanitizingReadsMissingAsNull(
    e: Expr, available: set<string>, missing: set<string>, scope: Scope, row: Row, env: Env)
    requires missing !! available && forall name <- missing :: '.' !in name
    requires Strippable(e, available, missing)
    ensures Evaluate(Sanitize(e, available), scope, Some(row), env)
         == Evaluate(e, scope, Some(WithNulls(row, missing)), env)
    decreases e, 1
  {
    match e
    case Literal(v, _) => FixPropertyKeepsExactlyTheClean(v, available);
    case FieldRef(table, field) => LookupUnderNulls(table, field, scope, row, missing);
    case Binary(_, left, right) =>
      SanitizingReadsMissingAsNull(left, available, missing, scope, row, env);
      SanitizingReadsMissingAsNull(right, available, missing, scope, row, env);
    case Unary(_, operand) => SanitizingReadsMissingAsNull(operand, available, missing, scope, row, env);
    case Call(_, args) => SanitizingReadsMissingAsNullAll(args, available, missing, scope, row, env);
    case Conditional(condition, onTrue, onFalse) =>
      SanitizingReadsMissingAsNull(condition, available, missing, scope, row, env);
      SanitizingReadsMissingAsNull(onTrue, available, missing, scope, row, env);
      SanitizingReadsMissingAsNull(onFalse, available, missing, scope, row, env);
    case Cast(expr, _) => SanitizingReadsMissingAsNull(expr, available, missing, scope, row, env);
    case IsNull(expr) => SanitizingReadsMissingAsNull(expr, available, missing, scope, row, env);
    case In(expr, values) =>
      SanitizingReadsMissingAsNull(expr, available, missing, scope, row, env);
      SanitizingReadsMissingAsNullAll(values, available, missing, scope, row, env);
    case Between(expr, low, high) =>
      SanitizingReadsMissingAsNull(expr, available, missing, scope, row, env);
      SanitizingReadsMissingAsNull(low, available, missing, scope, row, env);
      SanitizingReadsMissingAsNull(high, available, missing, scope, row, env);
    case _ =>
  }

  lemma {:induction false} SanitizingReadsMissingAsNullAll(
    es: seq<Expr>, available: set<string>, missing: set<string>, scope: Scope, row: Row, env: Env)
    requires missing !! available && forall name <- missing :: '.' !in name
    requires AllStrippable(es, available, missing)
    ensures EvaluateAll(SanitizeAll(es, available), scope, Some(row), env)
         == EvaluateAll(es, scope, Some(WithNulls(row, missing)), env)
    decreases es, 0
  {
    if es != [] {
      SanitizingReadsMissingAsNull(es[0], available, missing, scope, row, env);
      SanitizingReadsMissingAsNullAll(es[1..], available, missing, scope, row, env);
      var rest := SanitizeAll(es[1..], available);
      assert ([Sanitize(es[0], available)] + rest)[1..] == rest;
    }
  }

  /** Why literals have to be clean: the walk turns the array literal [[1]] into an array
      holding an object, and evaluation follows. */
  lemma NestedArrayLiteralsChange(available: set<string>, scope: Scope, row: Row, env: Env)
    ensures var e := Literal(Arr([Arr([Num(1.0)])]), TAny);
            Evaluate(Sanitize(e, available), scope, Some(row), env) != Evaluate(e, scope, Some(row), env)
  {
    var v := Arr([Arr([Num(1.0)])]);
    assert !Clean(v.items[0], available);
    FixPropertyKeepsExactlyTheClean(v, available);
  }
}
