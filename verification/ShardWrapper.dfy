/** Parameter wrappers: the generator moves the routed SQL parameters into a shard key and rebuilds them for the
    query. */
module ShardWrapper {
  import opened Basics

  datatype Field = Field(name: string, dbName: string, typ: string)

  /** A routing operand: a field of the shard key. It is external when no SQL parameter supplies it. */
  datatype Operand = Operand(name: string, dbName: string, fieldName: string, typ: string, external: bool)

  /** What a query takes: nothing, a parameter struct, the fields of a struct one by one, or a single value. */
  datatype Arg =
    | NoArg
    | Emitted(fields: seq<Field>)
    | Inlined(fields: seq<Field>)
    | Single(name: string, dbName: string, typ: string)

  datatype Expr = OfWrapper(field: string) | OfShardKey(field: string)

  datatype Route = Route(keyType: string, operands: seq<Operand>)

  datatype Wrapper = Wrapper(fields: seq<Field>, expressions: map<string, Expr>, callArgs: seq<Expr>)

  /** A lookup by many keys: the column rows are found by, the parameter with the keys, and the field of a row. */
  datatype GroupedMany = GroupedMany(lookupDBName: string, parameterDBName: string, lookupField: string)

  datatype RouteError = UnknownOperand(dbName: string) | DuplicateName(name: string)

  // SQL parameters

  /** A SQL parameter: its column and the wrapper field it becomes when it is not routed. */
  datatype Param = Param(column: string, field: Field)

  function SingleParam(arg: Arg, structName: string -> string): Param
    requires arg.Single?
  {
    var name := structName(arg.dbName);
    Param(arg.dbName,
          if name == "" then Field(structName(arg.name), arg.name, arg.typ) else Field(name, arg.dbName, arg.typ))
  }

  function Params(arg: Arg, structName: string -> string): seq<Param> {
    match arg
    case NoArg => []
    case Single(_, _, _) => [SingleParam(arg, structName)]
    case Emitted(fields) => seq(|fields|, i requires 0 <= i < |fields| => Param(fields[i].dbName, fields[i]))
    case Inlined(fields) => seq(|fields|, i requires 0 <= i < |fields| => Param(fields[i].dbName, fields[i]))
  }

  /** The first parameter of a column, or the number of parameters when there is none. */
  function FirstOf(params: seq<Param>, column: string): (i: nat)
    ensures i <= |params|
    ensures i < |params| ==> params[i].column == column
    ensures forall j :: 0 <= j < i ==> params[j].column != column
  {
    if params == [] then 0
    else if params[0].column == column then 0
    else
      var i := FirstOf(params[1..], column);
      assert forall j :: 1 <= j < i + 1 ==> params[j] == params[1..][j - 1];
      i + 1
  }

  // Resolving the operands of a route

  function OperandName(arg: Arg, params: seq<Param>, i: nat, structName: string -> string): string
    requires i < |params|
  {
    if arg.Single? then structName(arg.dbName) else params[i].field.name
  }

  /** The operand the first SQL parameter of a column supplies. */
  function ArgOperand(arg: Arg, dbName: string, structName: string -> string, goName: string -> string)
    : Option<Operand>
  {
    var params := Params(arg, structName);
    var i := FirstOf(params, dbName);
    if i < |params| then
      var name := OperandName(arg, params, i, structName);
      Some(Operand(goName(name), dbName, name, params[i].field.typ, false))
    else None
  }

  /** The operand a column stands for: the first SQL parameter of that column; for the column a grouped lookup asks by,
      the parameter that carries the keys, under the name of the row's field; else a field of the table models. */
  function OperandFor(arg: Arg, dbName: string, structName: string -> string, goName: string -> string,
                      model: string -> Option<Field>, many: Option<GroupedMany>): Option<Operand>
  {
    var own := ArgOperand(arg, dbName, structName, goName);
    var keys := if many.Some? && dbName == many.value.lookupDBName
                then ArgOperand(arg, many.value.parameterDBName, structName, goName) else None;
    if own.Some? then own
    else if keys.Some? then
      Some(keys.value.(name := goName(many.value.lookupField), fieldName := many.value.lookupField))
    else match model(dbName)
      case Some(field) => Some(Operand(goName(field.name), dbName, field.name, field.typ, true))
      case None => None
  }

  /** Position `i` holds the first parameter of a column; it is the number of parameters if there is none. */
  ghost predicate First(params: seq<Param>, column: string, i: nat) {
    && i <= |params| && (forall k :: 0 <= k < i ==> params[k].column != column)
    && (i < |params| ==> params[i].column == column)
  }

  /** What a column resolves to. A SQL parameter of the column wins, the first one if there are several. Without one,
      the column a grouped lookup asks by stands for the parameter with the keys, with that parameter's type and column,
      but named after the field of a row. Every other column is a field of the models. */
  lemma OperandSources(arg: Arg, dbName: string, structName: string -> string, goName: string -> string,
                       model: string -> Option<Field>, many: Option<GroupedMany>, i: nat, j: nat)
    requires First(Params(arg, structName), dbName, i)
    requires many.Some? ==> First(Params(arg, structName), many.value.parameterDBName, j)
    ensures var params, r := Params(arg, structName), OperandFor(arg, dbName, structName, goName, model, many);
            var keys := many.Some? && dbName == many.value.lookupDBName && j < |params|;
            && (i < |params| ==>
                  r.Some? && r.value.dbName == dbName && r.value.typ == params[i].field.typ && !r.value.external
                  && r.value.fieldName == (if arg.Single? then structName(dbName) else params[i].field.name)
                  && r.value.name == goName(r.value.fieldName))
            && (i == |params| && keys ==>
                  r == Some(Operand(goName(many.value.lookupField), many.value.parameterDBName,
                                    many.value.lookupField, params[j].field.typ, false)))
            && (i == |params| && !keys ==>
                  && (r.Some? <==> model(dbName).Some?)
                  && (r.Some? ==>
                        && r.value.external && r.value.dbName == dbName && r.value.name == goName(r.value.fieldName)
                        && r.value.fieldName == model(dbName).value.name && r.value.typ == model(dbName).value.typ))
  {
    var params := Params(arg, structName);
    assert FirstOf(params, dbName) == i;
    if many.Some? {
      assert FirstOf(params, many.value.parameterDBName) == j;
    }
    hide FirstOf;
  }

  ghost predicate Resolves(arg: Arg, columns: seq<string>, structName: string -> string, goName: string -> string,
                           model: string -> Option<Field>, many: Option<GroupedMany>, operands: seq<Operand>)
  {
    && |operands| == |columns|
    && forall i :: 0 <= i < |columns| ==>
         OperandFor(arg, columns[i], structName, goName, model, many) == Some(operands[i])
  }

  function OperandNames(operands: seq<Operand>): (names: seq<string>)
    ensures |names| == |operands|
  {
    seq(|operands|, i requires 0 <= i < |operands| => operands[i].name)
  }

  /** Resolves the annotated columns in order; the operands get pairwise different Go names. */
  method ResolveOperands(arg: Arg, columns: seq<string>, structName: string -> string, goName: string -> string,
                         model: string -> Option<Field>, many: Option<GroupedMany>)
    returns (r: Result<seq<Operand>, RouteError>)
    ensures r.Ok? ==>
      Resolves(arg, columns, structName, goName, model, many, r.value) && Distinct(OperandNames(r.value))
    ensures r.Err? ==> !exists operands ::
      Resolves(arg, columns, structName, goName, model, many, operands) && Distinct(OperandNames(operands))
  {
    hide Params, FirstOf;
    var operands: seq<Operand> := [];
    var seenNames: set<string> := {};
    for k := 0 to |columns|
      invariant Resolves(arg, columns[..k], structName, goName, model, many, operands)
      invariant Distinct(OperandNames(operands))
      invariant forall name :: name in seenNames <==> name in OperandNames(operands)
    {
      var operand := OperandFor(arg, columns[k], structName, goName, model, many);
      if operand.None? {
        Unresolved(arg, columns, k, structName, goName, model, many);
        return Err(UnknownOperand(columns[k]));
      }
      if operand.value.name in seenNames {
        RepeatedName(arg, columns, k, structName, goName, model, many, operands);
        return Err(DuplicateName(operand.value.name));
      }
      assert OperandNames(operands + [operand.value]) == OperandNames(operands) + [operand.value.name];
      operands := operands + [operand.value];
      seenNames := seenNames + {operand.value.name};
    }
    assert columns[..|columns|] == columns;
    r := Ok(operands);
  }

  lemma Unresolved(arg: Arg, columns: seq<string>, k: nat, structName: string -> string, goName: string -> string,
                   model: string -> Option<Field>, many: Option<GroupedMany>)
    requires k < |columns| && OperandFor(arg, columns[k], structName, goName, model, many).None?
    ensures !exists all :: Resolves(arg, columns, structName, goName, model, many, all)
  {
    hide OperandFor;
  }

  lemma RepeatedName(arg: Arg, columns: seq<string>, k: nat, structName: string -> string, goName: string -> string,
                     model: string -> Option<Field>, many: Option<GroupedMany>, operands: seq<Operand>)
    requires k < |columns| && Resolves(arg, columns[..k], structName, goName, model, many, operands)
    requires var operand := OperandFor(arg, columns[k], structName, goName, model, many);
             operand.Some? && operand.value.name in OperandNames(operands)
    ensures !exists all :: Resolves(arg, columns, structName, goName, model, many, all) && Distinct(OperandNames(all))
  {
    hide OperandFor;
    var name := OperandFor(arg, columns[k], structName, goName, model, many).value.name;
    var i :| 0 <= i < |operands| && OperandNames(operands)[i] == name;
    assert columns[..k][i] == columns[i];
    forall all | Resolves(arg, columns, structName, goName, model, many, all) ensures !Distinct(OperandNames(all)) {
      assert OperandNames(all)[i] == name == OperandNames(all)[k];
    }
  }

  /** Different Go names come from different field names, so the shard key is a well-formed struct. */
  lemma FieldNamesDiffer(arg: Arg, columns: seq<string>, structName: string -> string, goName: string -> string,
                         model: string -> Option<Field>, many: Option<GroupedMany>, operands: seq<Operand>)
    requires Resolves(arg, columns, structName, goName, model, many, operands) && Distinct(OperandNames(operands))
    ensures forall i, j :: 0 <= i < j < |operands| ==> operands[i].fieldName != operands[j].fieldName
  {
    hide Params, FirstOf;
    forall i, j | 0 <= i < j < |operands| ensures operands[i].fieldName != operands[j].fieldName {
      assert OperandNames(operands)[i] != OperandNames(operands)[j];
    }
  }

  // Wrapping

  function FindOperand(operands: seq<Operand>, column: string): (r: Option<Operand>)
    ensures r.Some? ==> r.value in operands && r.value.dbName == column
    ensures r.None? ==> forall i :: 0 <= i < |operands| ==> operands[i].dbName != column
  {
    if operands == [] then None
    else if operands[0].dbName == column then Some(operands[0])
    else
      var r := FindOperand(operands[1..], column);
      assert operands == [operands[0]] + operands[1..];
      r
  }

  predicate Routed(route: Route, param: Param) {
    FindOperand(route.operands, param.column).Some?
  }

  /** Where a parameter's value is found in the wrapper. */
  function ExprOf(route: Route, param: Param): Expr {
    match FindOperand(route.operands, param.column)
    case Some(operand) => OfShardKey(operand.fieldName)
    case None => OfWrapper(param.field.name)
  }

  /** The fields the wrapper needs beside the shard key. */
  function OwnFields(route: Route, params: seq<Param>): seq<Field> {
    if params == [] then []
    else
      var last := params[|params| - 1];
      OwnFields(route, params[..|params| - 1]) + if Routed(route, last) then [] else [last.field]
  }

  function Names(fields: seq<Field>): (names: seq<string>)
    ensures |names| == |fields|
  {
    seq(|fields|, i requires 0 <= i < |fields| => fields[i].name)
  }

  /** The wrapper is a well-formed struct: its fields have different names, none of them the name of the shard key. */
  ghost predicate Wrappable(route: Route, params: seq<Param>) {
    Distinct([route.keyType] + Names(OwnFields(route, params)))
  }

  function Expressions(route: Route, params: seq<Param>): (exprs: seq<Expr>)
    ensures |exprs| == |params|
  {
    seq(|params|, i requires 0 <= i < |params| => ExprOf(route, params[i]))
  }

  lemma OwnFieldsNext(route: Route, params: seq<Param>, k: nat)
    requires k < |params|
    ensures OwnFields(route, params[..k + 1])
         == OwnFields(route, params[..k]) + if Routed(route, params[k]) then [] else [params[k].field]
  {
    assert params[..k + 1][..k] == params[..k];
  }

  lemma {:induction false} OwnFieldsPrefix(route: Route, params: seq<Param>, k: nat)
    requires k <= |params|
    ensures OwnFields(route, params[..k]) <= OwnFields(route, params)
    decreases |params| - k
  {
    if k < |params| {
      OwnFieldsNext(route, params, k);
      OwnFieldsPrefix(route, params, k + 1);
    } else {
      assert params[..k] == params;
    }
  }

  lemma Conflict(route: Route, params: seq<Param>, k: nat)
    requires k < |params| && !Routed(route, params[k])
    requires params[k].field.name in [route.keyType] + Names(OwnFields(route, params[..k]))
    ensures !Wrappable(route, params)
  {
    var before, all := OwnFields(route, params[..k]), OwnFields(route, params);
    OwnFieldsNext(route, params, k);
    OwnFieldsPrefix(route, params, k + 1);
    hide OwnFields;
    var names := [route.keyType] + Names(all);
    var i :| 0 <= i < |before| + 1 && ([route.keyType] + Names(before))[i] == params[k].field.name;
    assert names[i] == names[|before| + 1] == params[k].field.name;
  }

  /** Wraps the parameters one by one. */
  method WrapParams(route: Route, params: seq<Param>)
    returns (r: Result<(seq<Field>, map<string, Expr>, seq<Expr>), string>)
    ensures r.Ok? <==> Wrappable(route, params)
    ensures r.Ok? ==>
              && r.value.0 == OwnFields(route, params)
              && r.value.2 == Expressions(route, params)
              && (forall name | name in r.value.1 :: Expressed(route, params, name, r.value.1[name]))
              && (forall i :: 0 <= i < |params| ==> params[i].field.name in r.value.1)
  {
    hide FindOperand, OwnFields;
    var fields: seq<Field> := [];
    var usedFields: set<string> := {route.keyType};
    var expressions: map<string, Expr> := map[];
    var inOrder: seq<Expr> := [];
    NoFields(route);
    for k := 0 to |params|
      invariant fields == OwnFields(route, params[..k]) && inOrder == Expressions(route, params[..k])
      invariant Distinct([route.keyType] + Names(fields))
      invariant forall name :: name in usedFields <==> name in [route.keyType] + Names(fields)
      invariant forall name | name in expressions :: Expressed(route, params, name, expressions[name])
      invariant forall i :: 0 <= i < k ==> params[i].field.name in expressions
    {
      OwnFieldsNext(route, params, k);
      var field, expr := params[k].field, ExprOf(route, params[k]);
      assert params[..k + 1] == params[..k] + [params[k]];
      if !Routed(route, params[k]) {
        if field.name in usedFields {
          Conflict(route, params, k);
          return Err(field.name);
        }
        assert [route.keyType] + Names(fields + [field]) == [route.keyType] + Names(fields) + [field.name];
        usedFields := usedFields + {field.name};
        fields := fields + [field];
      }
      expressions := expressions[field.name := expr];
      inOrder := inOrder + [expr];
    }
    assert params[..|params|] == params;
    r := Ok((fields, expressions, inOrder));
  }

  lemma NoFields(route: Route)
    ensures OwnFields(route, []) == []
  {
  }

  ghost predicate Expressed(route: Route, params: seq<Param>, name: string, expr: Expr) {
    exists i :: 0 <= i < |params| && params[i].field.name == name && ExprOf(route, params[i]) == expr
  }

  /** A wrapper built for a query: its own fields, and for each SQL parameter an expression, kept by struct field name
      for a parameter struct and by position otherwise. */
  ghost predicate WrapperOf(arg: Arg, route: Route, structName: string -> string, wrapper: Wrapper) {
    var params := Params(arg, structName);
    && Wrappable(route, params) && wrapper.fields == OwnFields(route, params)
    && if arg.Emitted? then
         && (forall name | name in wrapper.expressions :: Expressed(route, params, name, wrapper.expressions[name]))
         && (forall i :: 0 <= i < |params| ==> params[i].field.name in wrapper.expressions)
       else wrapper.callArgs == Expressions(route, params)
  }

  /** Builds the wrapper; it fails exactly when two fields of the wrapper struct would share a name. */
  method WrapShardParameters(arg: Arg, route: Route, structName: string -> string) returns (r: Result<Wrapper, string>)
    ensures r.Ok? <==> Wrappable(route, Params(arg, structName))
    ensures r.Ok? ==> WrapperOf(arg, route, structName, r.value)
  {
    hide OwnFields, Expressed;
    var wrapped := WrapParams(route, Params(arg, structName));
    if wrapped.Err? {
      return Err(wrapped.error);
    }
    var (fields, expressions, inOrder) := wrapped.value;
    r := Ok(if arg.Emitted? then Wrapper(fields, expressions, []) else Wrapper(fields, map[], inOrder));
  }

  // The meaning of a wrapper

  /** A value of the wrapper struct: the fields of its shard key and its own. */
  datatype Packed<V> = Packed(key: map<string, V>, own: map<string, V>)

  function Eval<V>(expr: Expr, w: Packed<V>): Option<V> {
    match expr
    case OfWrapper(name) => if name in w.own then Some(w.own[name]) else None
    case OfShardKey(name) => if name in w.key then Some(w.key[name]) else None
  }

  /** The expression the generated code uses for each SQL parameter, in order. */
  function ArgExprs(arg: Arg, wrapper: Wrapper): seq<Expr> {
    if arg.Emitted? then
      seq(|arg.fields|, i requires 0 <= i < |arg.fields| =>
        if arg.fields[i].name in wrapper.expressions then wrapper.expressions[arg.fields[i].name] else OfWrapper(""))
    else wrapper.callArgs
  }

  function Evals<V>(exprs: seq<Expr>, w: Packed<V>): (values: seq<Option<V>>)
    ensures |values| == |exprs| && forall i :: 0 <= i < |exprs| ==> values[i] == Eval(exprs[i], w)
  {
    seq(|exprs|, i requires 0 <= i < |exprs| => Eval(exprs[i], w))
  }

  /** What the query receives. */
  function Passed<V>(arg: Arg, wrapper: Wrapper, w: Packed<V>): seq<Option<V>> {
    Evals(ArgExprs(arg, wrapper), w)
  }

  function Somes<V>(values: seq<V>): seq<Option<V>> {
    seq(|values|, i requires 0 <= i < |values| => Some(values[i]))
  }

  /** The fields of a Go struct have different names. */
  ghost predicate StructOk(arg: Arg) {
    arg.Emitted? ==> Distinct(Names(arg.fields))
  }

  lemma NamedExpr(fields: seq<Field>, route: Route, params: seq<Param>, expressions: map<string, Expr>, i: nat)
    requires Distinct(Names(fields)) && |params| == |fields| && i < |params|
    requires forall k :: 0 <= k < |params| ==> params[k].field == fields[k]
    requires fields[i].name in expressions && Expressed(route, params, fields[i].name, expressions[fields[i].name])
    ensures expressions[fields[i].name] == ExprOf(route, params[i])
  {
    hide ExprOf;
    var name := fields[i].name;
    var j :| 0 <= j < |params| && params[j].field.name == name && ExprOf(route, params[j]) == expressions[name];
    assert Names(fields)[i] == name == Names(fields)[j];
  }

  lemma ArgExprIs(arg: Arg, route: Route, structName: string -> string, wrapper: Wrapper)
    requires WrapperOf(arg, route, structName, wrapper) && StructOk(arg)
    ensures ArgExprs(arg, wrapper) == Expressions(route, Params(arg, structName))
  {
    hide OwnFields, ExprOf, Wrappable, Distinct, Expressed;
    if arg.Emitted? {
      var params := Params(arg, structName);
      forall i | 0 <= i < |params| ensures ArgExprs(arg, wrapper)[i] == ExprOf(route, params[i]) {
        assert params[i].field.name in wrapper.expressions;
        NamedExpr(arg.fields, route, params, wrapper.expressions, i);
      }
    }
  }

  /** No routed column is a SQL parameter twice. */
  ghost predicate NoneShared(route: Route, params: seq<Param>) {
    forall i, j :: 0 <= i < j < |params| && params[i].column == params[j].column ==> !Routed(route, params[i])
  }

  lemma FirstIs(route: Route, params: seq<Param>, i: nat)
    requires i < |params| && NoneShared(route, params) && Routed(route, params[i])
    ensures FirstOf(params, params[i].column) == i
  {
    var k := FirstOf(params, params[i].column);
    hide FirstOf, FindOperand;
    assert k <= i && params[k].column == params[i].column;
  }

  // Packing

  /** The shard key: a routed SQL parameter where there is one, else the routing value given beside the parameters. */
  function PackKey<V>(operands: seq<Operand>, params: seq<Param>, values: seq<V>, routing: string -> V): map<string, V>
    requires |values| == |params|
  {
    if operands == [] then map[]
    else
      var last := operands[|operands| - 1];
      var key := PackKey(operands[..|operands| - 1], params, values, routing);
      key[last.fieldName := KeyValue(last, params, values, routing)]
  }

  function KeyValue<V>(operand: Operand, params: seq<Param>, values: seq<V>, routing: string -> V): V
    requires |values| == |params|
  {
    var i := FirstOf(params, operand.dbName);
    if i < |params| then values[i] else routing(operand.fieldName)
  }

  function PackOwn<V>(route: Route, params: seq<Param>, values: seq<V>): map<string, V>
    requires |values| == |params|
  {
    if params == [] then map[]
    else
      var n := |params| - 1;
      var init := PackOwn(route, params[..n], values[..n]);
      if Routed(route, params[n]) then init else init[params[n].field.name := values[n]]
  }

  function Pack<V>(route: Route, params: seq<Param>, values: seq<V>, routing: string -> V): Packed<V>
    requires |values| == |params|
  {
    Packed(PackKey(route.operands, params, values, routing), PackOwn(route, params, values))
  }

  lemma {:induction false} PackKeyAt<V>(operands: seq<Operand>, params: seq<Param>, values: seq<V>,
                                        routing: string -> V, k: nat)
    requires |values| == |params| && k < |operands|
    requires forall i, j :: 0 <= i < j < |operands| ==> operands[i].fieldName != operands[j].fieldName
    ensures var key := PackKey(operands, params, values, routing);
            operands[k].fieldName in key && key[operands[k].fieldName] == KeyValue(operands[k], params, values, routing)
  {
    hide KeyValue;
    if k < |operands| - 1 {
      PackKeyAt(operands[..|operands| - 1], params, values, routing, k);
    }
  }

  lemma {:induction false} OwnMember(route: Route, params: seq<Param>, i: nat)
    requires i < |params| && !Routed(route, params[i])
    ensures params[i].field in OwnFields(route, params)
  {
    if i < |params| - 1 {
      OwnMember(route, params[..|params| - 1], i);
    }
  }

  lemma WrappablePrefix(route: Route, params: seq<Param>)
    requires params != [] && Wrappable(route, params)
    ensures Wrappable(route, params[..|params| - 1])
    ensures !Routed(route, params[|params| - 1]) ==>
              params[|params| - 1].field.name !in Names(OwnFields(route, params[..|params| - 1]))
  {
    var n := |params| - 1;
    assert params[..|params|] == params;
    OwnFieldsNext(route, params, n);
    var before, all := OwnFields(route, params[..n]), OwnFields(route, params);
    hide OwnFields, FindOperand;
    var names, names' := [route.keyType] + Names(all), [route.keyType] + Names(before);
    assert forall k :: 0 <= k < |names'| ==> names'[k] == names[k];
    if !Routed(route, params[n]) {
      assert names[|before| + 1] == params[n].field.name;
      forall k | 0 <= k < |before| ensures Names(before)[k] != params[n].field.name {
        assert names[k + 1] == Names(before)[k];
      }
    }
  }

  lemma {:induction false} PackOwnAt<V>(route: Route, params: seq<Param>, values: seq<V>, i: nat)
    requires |values| == |params| && i < |params| && !Routed(route, params[i]) && Wrappable(route, params)
    ensures var own := PackOwn(route, params, values);
            params[i].field.name in own && own[params[i].field.name] == values[i]
  {
    hide FindOperand, Wrappable;
    var n := |params| - 1;
    if i < n {
      WrappablePrefix(route, params);
      OwnMember(route, params[..n], i);
      var before := OwnFields(route, params[..n]);
      var k :| 0 <= k < |before| && before[k] == params[i].field;
      assert Names(before)[k] == params[i].field.name;
      PackOwnAt(route, params[..n], values[..n], i);
    }
  }

  /** The operands of a route are what its columns resolve to. */
  ghost predicate RouteOf(arg: Arg, columns: seq<string>, structName: string -> string, goName: string -> string,
                          model: string -> Option<Field>, route: Route)
  {
    Resolves(arg, columns, structName, goName, model, None, route.operands) && Distinct(OperandNames(route.operands))
  }

  /** Packing any parameter values and routing values and unpacking them for the query gives the parameters back. */
  lemma RoundTrip<V>(arg: Arg, columns: seq<string>, structName: string -> string, goName: string -> string,
                     model: string -> Option<Field>, route: Route, wrapper: Wrapper, values: seq<V>,
                     routing: string -> V)
    requires RouteOf(arg, columns, structName, goName, model, route)
    requires WrapperOf(arg, route, structName, wrapper) && StructOk(arg)
    requires |values| == |Params(arg, structName)| && NoneShared(route, Params(arg, structName))
    ensures var params := Params(arg, structName);
            var w := Pack(route, params, values, routing);
            && Passed(arg, wrapper, w) == Somes(values)
            && forall k :: 0 <= k < |route.operands| && route.operands[k].external ==>
                 Eval(OfShardKey(route.operands[k].fieldName), w) == Some(routing(route.operands[k].fieldName))
  {
    ArgExprIs(arg, route, structName, wrapper);
    WrapperFacts(arg, route, structName, wrapper);
    RouteFacts(arg, columns, structName, goName, model, route);
    hide RouteOf, WrapperOf, StructOk, Params, ArgExprs, Pack, Eval, Evals, Somes, Expressions, NoneShared, Wrappable;
    hide Resolves;
    var params := Params(arg, structName);
    ParamsReadBack(route, params, values, routing);
    forall k | 0 <= k < |route.operands| && route.operands[k].external
      ensures Eval(OfShardKey(route.operands[k].fieldName), Pack(route, params, values, routing))
           == Some(routing(route.operands[k].fieldName))
    {
      RoutingReadsBack(arg, columns, structName, goName, model, route, values, routing, k);
    }
  }

  lemma WrapperFacts(arg: Arg, route: Route, structName: string -> string, wrapper: Wrapper)
    requires WrapperOf(arg, route, structName, wrapper)
    ensures Wrappable(route, Params(arg, structName)) && wrapper.fields == OwnFields(route, Params(arg, structName))
  {
  }

  lemma RouteFacts(arg: Arg, columns: seq<string>, structName: string -> string, goName: string -> string,
                   model: string -> Option<Field>, route: Route)
    requires RouteOf(arg, columns, structName, goName, model, route)
    ensures Resolves(arg, columns, structName, goName, model, None, route.operands)
    ensures forall a, b :: 0 <= a < b < |route.operands| ==> route.operands[a].fieldName != route.operands[b].fieldName
  {
    hide Resolves;
    FieldNamesDiffer(arg, columns, structName, goName, model, None, route.operands);
  }

  lemma ParamsReadBack<V>(route: Route, params: seq<Param>, values: seq<V>, routing: string -> V)
    requires |values| == |params| && NoneShared(route, params) && Wrappable(route, params)
    requires forall i, j :: 0 <= i < j < |route.operands| ==> route.operands[i].fieldName != route.operands[j].fieldName
    ensures Evals(Expressions(route, params), Pack(route, params, values, routing)) == Somes(values)
  {
    hide NoneShared, Wrappable, Pack, ExprOf, Eval;
    var w := Pack(route, params, values, routing);
    forall i | 0 <= i < |params| ensures Eval(ExprOf(route, params[i]), w) == Some(values[i]) {
      ParamReadsBack(route, params, values, routing, i);
    }
  }

  lemma RoutingReadsBack<V>(arg: Arg, columns: seq<string>, structName: string -> string, goName: string -> string,
                            model: string -> Option<Field>, route: Route, values: seq<V>, routing: string -> V, k: nat)
    requires Resolves(arg, columns, structName, goName, model, None, route.operands)
    requires forall i, j :: 0 <= i < j < |route.operands| ==> route.operands[i].fieldName != route.operands[j].fieldName
    requires k < |route.operands| && route.operands[k].external && |values| == |Params(arg, structName)|
    ensures Eval(OfShardKey(route.operands[k].fieldName), Pack(route, Params(arg, structName), values, routing))
         == Some(routing(route.operands[k].fieldName))
  {
    var params := Params(arg, structName);
    hide Params, PackKey, PackOwn, FirstOf;
    PackKeyAt(route.operands, params, values, routing, k);
    assert OperandFor(arg, columns[k], structName, goName, model, None) == Some(route.operands[k]);
  }

  lemma ParamReadsBack<V>(route: Route, params: seq<Param>, values: seq<V>, routing: string -> V, i: nat)
    requires |values| == |params| && i < |params| && NoneShared(route, params) && Wrappable(route, params)
    requires forall i, j :: 0 <= i < j < |route.operands| ==> route.operands[i].fieldName != route.operands[j].fieldName
    ensures Eval(ExprOf(route, params[i]), Pack(route, params, values, routing)) == Some(values[i])
  {
    var operand := FindOperand(route.operands, params[i].column);
    hide FindOperand, PackKey, PackOwn, Wrappable;
    if operand.None? {
      PackOwnAt(route, params, values, i);
    } else {
      var k :| 0 <= k < |route.operands| && route.operands[k] == operand.value;
      FirstIs(route, params, i);
      PackKeyAt(route.operands, params, values, routing, k);
    }
  }

  /** Some wrapper value makes the query receive these parameters. */
  ghost predicate Expressible(arg: Arg, wrapper: Wrapper, values: seq<int>) {
    exists w :: Passed(arg, wrapper, w) == Somes(values)
  }

  /** Every parameter record can be written as a wrapper value exactly when no routed column is a SQL parameter
      twice. */
  lemma ExpressibleIffNoneShared(arg: Arg, columns: seq<string>, structName: string -> string, goName: string -> string,
                                 model: string -> Option<Field>, route: Route, wrapper: Wrapper)
    requires RouteOf(arg, columns, structName, goName, model, route)
    requires WrapperOf(arg, route, structName, wrapper) && StructOk(arg)
    ensures NoneShared(route, Params(arg, structName)) <==>
            forall values: seq<int> | |values| == |Params(arg, structName)| :: Expressible(arg, wrapper, values)
  {
    var params := Params(arg, structName);
    hide Params, WrapperOf, RouteOf, ArgExprs, Passed, Pack;
    if NoneShared(route, params) {
      forall values: seq<int> | |values| == |params| ensures Expressible(arg, wrapper, values) {
        RoundTrip(arg, columns, structName, goName, model, route, wrapper, values, (_: string) => 0);
        assert Passed(arg, wrapper, Pack(route, params, values, (_: string) => 0)) == Somes(values);
      }
    } else {
      forall w ensures Passed(arg, wrapper, w) != Somes(Positions(|params|)) {
        SharedIsLost(arg, route, structName, wrapper, w);
      }
      assert !Expressible(arg, wrapper, Positions(|params|));
    }
  }

  function Positions(n: nat): (values: seq<int>)
    ensures |values| == n && forall i :: 0 <= i < n ==> values[i] == i
  {
    seq(n, i => i)
  }

  /** Two parameters of one routed column always receive one value, so different values cannot both arrive. */
  lemma SharedIsLost(arg: Arg, route: Route, structName: string -> string, wrapper: Wrapper, w: Packed<int>)
    requires WrapperOf(arg, route, structName, wrapper) && StructOk(arg) && !NoneShared(route, Params(arg, structName))
    ensures Passed(arg, wrapper, w) != Somes(Positions(|Params(arg, structName)|))
  {
    var params := Params(arg, structName);
    ArgExprIs(arg, route, structName, wrapper);
    hide Params, WrapperOf, ArgExprs, FindOperand, Eval;
    var i, j :| 0 <= i < j < |params| && params[i].column == params[j].column && Routed(route, params[i]);
    var passed, values := Passed(arg, wrapper, w), Somes(Positions(|params|));
    assert passed[i] == Eval(ExprOf(route, params[i]), w) == Eval(ExprOf(route, params[j]), w) == passed[j];
    assert values[i] == Some(i) && values[j] == Some(j);
  }

  /** Every parameter of a routed column has the type of the column's first parameter. */
  ghost predicate TypesAgree(route: Route, params: seq<Param>) {
    forall i :: 0 <= i < |params| && Routed(route, params[i]) ==>
      params[i].field.typ == FirstType(params, params[i].column)
  }

  function FirstType(params: seq<Param>, column: string): string {
    var i := FirstOf(params, column);
    if i < |params| then params[i].field.typ else ""
  }

  /** Every expression names a field that exists and has the type of its SQL parameter, exactly when the parameters of
      each routed column have one type. */
  lemma TypedIffTypesAgree(arg: Arg, columns: seq<string>, structName: string -> string, goName: string -> string,
                           model: string -> Option<Field>, route: Route, wrapper: Wrapper)
    requires RouteOf(arg, columns, structName, goName, model, route)
    requires WrapperOf(arg, route, structName, wrapper) && StructOk(arg)
    ensures |ArgExprs(arg, wrapper)| == |Params(arg, structName)|
    ensures TypesAgree(route, Params(arg, structName)) <==>
            forall i :: 0 <= i < |Params(arg, structName)| ==>
              Typed(route, wrapper, ArgExprs(arg, wrapper)[i], Params(arg, structName)[i].field.typ)
  {
    hide Params, ArgExprs, WrapperOf, RouteOf, StructOk, ExprOf, Typed, TypesAgree, OwnFields, Resolves, Wrappable;
    ArgExprIs(arg, route, structName, wrapper);
    WrapperFacts(arg, route, structName, wrapper);
    RouteFacts(arg, columns, structName, goName, model, route);
    ExprsTyped(arg, columns, structName, goName, model, route, wrapper);
    var params, exprs := Params(arg, structName), ArgExprs(arg, wrapper);
    assert forall i :: 0 <= i < |params| ==> exprs[i] == ExprOf(route, params[i]);
  }

  lemma ExprsTyped(arg: Arg, columns: seq<string>, structName: string -> string, goName: string -> string,
                   model: string -> Option<Field>, route: Route, wrapper: Wrapper)
    requires Resolves(arg, columns, structName, goName, model, None, route.operands)
    requires forall a, b :: 0 <= a < b < |route.operands| ==> route.operands[a].fieldName != route.operands[b].fieldName
    requires wrapper.fields == OwnFields(route, Params(arg, structName))
    ensures var params := Params(arg, structName);
            TypesAgree(route, params) <==>
            forall i :: 0 <= i < |params| ==> Typed(route, wrapper, ExprOf(route, params[i]), params[i].field.typ)
  {
    var params := Params(arg, structName);
    hide Params, OwnFields, Resolves, ExprOf, Typed, FirstType, Routed;
    forall i | 0 <= i < |params|
      ensures Typed(route, wrapper, ExprOf(route, params[i]), params[i].field.typ) <==>
              (Routed(route, params[i]) ==> params[i].field.typ == FirstType(params, params[i].column))
    {
      ExprTyped(arg, columns, structName, goName, model, route, wrapper, i);
    }
  }

  lemma ExprTyped(arg: Arg, columns: seq<string>, structName: string -> string, goName: string -> string,
                  model: string -> Option<Field>, route: Route, wrapper: Wrapper, i: nat)
    requires Resolves(arg, columns, structName, goName, model, None, route.operands)
    requires forall a, b :: 0 <= a < b < |route.operands| ==> route.operands[a].fieldName != route.operands[b].fieldName
    requires i < |Params(arg, structName)| && wrapper.fields == OwnFields(route, Params(arg, structName))
    ensures var param := Params(arg, structName)[i];
            Typed(route, wrapper, ExprOf(route, param), param.field.typ) <==>
            (Routed(route, param) ==> param.field.typ == FirstType(Params(arg, structName), param.column))
  {
    var params := Params(arg, structName);
    hide Params, OwnFields, Resolves, FindOperand;
    if Routed(route, params[i]) {
      var operand := FindOperand(route.operands, params[i].column).value;
      var k :| 0 <= k < |route.operands| && route.operands[k] == operand;
      OperandType(arg, columns, structName, goName, model, route.operands, k, FirstOf(params, params[i].column));
    } else {
      OwnMember(route, params, i);
      var k :| 0 <= k < |wrapper.fields| && wrapper.fields[k] == params[i].field;
    }
  }

  lemma OperandType(arg: Arg, columns: seq<string>, structName: string -> string, goName: string -> string,
                    model: string -> Option<Field>, operands: seq<Operand>, k: nat, i: nat)
    requires Resolves(arg, columns, structName, goName, model, None, operands) && k < |operands|
    requires i < |Params(arg, structName)| && FirstOf(Params(arg, structName), operands[k].dbName) == i
    ensures operands[k].typ == Params(arg, structName)[i].field.typ
  {
    hide Params, FirstOf;
    assert OperandFor(arg, columns[k], structName, goName, model, None) == Some(operands[k]);
  }

  /** The expression denotes a field of this type: one of the wrapper's own or one of its shard key. */
  ghost predicate Typed(route: Route, wrapper: Wrapper, expr: Expr, typ: string) {
    match expr
    case OfWrapper(name) =>
      exists k :: 0 <= k < |wrapper.fields| && wrapper.fields[k].name == name && wrapper.fields[k].typ == typ
    case OfShardKey(name) =>
      exists k :: 0 <= k < |route.operands| && route.operands[k].fieldName == name && route.operands[k].typ == typ
  }

  // Two parameters of one routed column

  /** Two unnamed parameters of column `id`: the second field gets a numbered name and may have another type. */
  function Twice(typ: string): Arg {
    Emitted([Field("ID", "id", "int64"), Field("ID_2", "id", typ)])
  }

  const TWICE_WRAPPER := Wrapper([], map["ID" := OfShardKey("ID"), "ID_2" := OfShardKey("ID")], [])

  function TwiceRoute(goName: string -> string): Route {
    Route("TenantKey", [Operand(goName("ID"), "id", "ID", "int64", false)])
  }

  /** The generator accepts the query, whatever the second type is. */
  lemma TwiceIsAccepted(typ: string, structName: string -> string, goName: string -> string,
                        model: string -> Option<Field>)
    ensures RouteOf(Twice(typ), ["id"], structName, goName, model, TwiceRoute(goName))
    ensures WrapperOf(Twice(typ), TwiceRoute(goName), structName, TWICE_WRAPPER) && StructOk(Twice(typ))
    ensures Params(Twice(typ), structName) == TwiceParams(typ)
    ensures forall i :: 0 <= i < 2 ==> Routed(TwiceRoute(goName), TwiceParams(typ)[i])
  {
    var params, route := Params(Twice(typ), structName), TwiceRoute(goName);
    assert params == TwiceParams(typ);
    TwiceResolves(typ, structName, goName, model);
    assert FindOperand(route.operands, "id") == Some(route.operands[0]);
    hide Params, RouteOf, OwnFields, Wrappable, FindOperand;
    TwiceWrapped(route, params[0], params[1]);
    assert params == [params[0], params[1]];
    assert Names(Twice(typ).fields) == ["ID", "ID_2"];
  }

  lemma TwiceResolves(typ: string, structName: string -> string, goName: string -> string,
                      model: string -> Option<Field>)
    ensures RouteOf(Twice(typ), ["id"], structName, goName, model, TwiceRoute(goName))
  {
    var params := Params(Twice(typ), structName);
    assert params == TwiceParams(typ);
    assert FirstOf(params, "id") == 0;
    hide Params, FirstOf;
  }

  function TwiceParams(typ: string): seq<Param> {
    [Param("id", Field("ID", "id", "int64")), Param("id", Field("ID_2", "id", typ))]
  }

  lemma TwiceWrapped(route: Route, a: Param, b: Param)
    requires a.field.name == "ID" && b.field.name == "ID_2"
    requires ExprOf(route, a) == OfShardKey("ID") && ExprOf(route, b) == OfShardKey("ID")
    ensures OwnFields(route, [a, b]) == [] && Wrappable(route, [a, b])
    ensures Expressed(route, [a, b], "ID", OfShardKey("ID")) && Expressed(route, [a, b], "ID_2", OfShardKey("ID"))
  {
    hide FindOperand;
    NoFields(route);
    OwnFieldsNext(route, [a, b], 0);
    OwnFieldsNext(route, [a, b], 1);
    assert [a, b][..2] == [a, b] && [a, b][..0] == [];
    assert [a, b][0] == a && [a, b][1] == b;
  }

  /** A query whose two parameters of the routed column always receive the same value. */
  lemma SharedColumnLosesAValue(structName: string -> string, goName: string -> string, model: string -> Option<Field>)
    ensures RouteOf(Twice("int64"), ["id"], structName, goName, model, TwiceRoute(goName))
    ensures WrapperOf(Twice("int64"), TwiceRoute(goName), structName, TWICE_WRAPPER) && StructOk(Twice("int64"))
    ensures !NoneShared(TwiceRoute(goName), Params(Twice("int64"), structName))
    ensures !Expressible(Twice("int64"), TWICE_WRAPPER, [1, 2])
  {
    var arg := Twice("int64");
    TwiceIsAccepted("int64", structName, goName, model);
    hide RouteOf, WrapperOf, StructOk, Params, Routed;
    var params := Params(arg, structName);
    assert params[0].column == params[1].column && Routed(TwiceRoute(goName), params[0]);
    forall w: Packed<int> ensures Passed(arg, TWICE_WRAPPER, w) != Somes([1, 2]) {
      var passed := Passed(arg, TWICE_WRAPPER, w);
      assert passed[0] == Eval(OfShardKey("ID"), w) == passed[1];
      assert Somes([1, 2])[0] == Some(1) && Somes([1, 2])[1] == Some(2);
    }
  }

  /** A query whose second parameter of the routed column is read from a field of another type. */
  lemma SharedColumnMistypes(typ: string, structName: string -> string, goName: string -> string,
                             model: string -> Option<Field>)
    requires typ != "int64"
    ensures RouteOf(Twice(typ), ["id"], structName, goName, model, TwiceRoute(goName))
    ensures WrapperOf(Twice(typ), TwiceRoute(goName), structName, TWICE_WRAPPER) && StructOk(Twice(typ))
    ensures !TypesAgree(TwiceRoute(goName), Params(Twice(typ), structName))
    ensures |ArgExprs(Twice(typ), TWICE_WRAPPER)| == 2
    ensures !Typed(TwiceRoute(goName), TWICE_WRAPPER, ArgExprs(Twice(typ), TWICE_WRAPPER)[1], typ)
  {
    TwiceIsAccepted(typ, structName, goName, model);
    hide RouteOf, WrapperOf, StructOk, Params, Routed;
    var params, route := TwiceParams(typ), TwiceRoute(goName);
    assert FirstOf(params, "id") == 0 && Routed(route, params[1]);
    assert ArgExprs(Twice(typ), TWICE_WRAPPER)[1] == OfShardKey("ID");
  }
}
