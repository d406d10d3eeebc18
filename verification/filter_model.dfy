/**
 * The rules of `Filter::Model#build_conditions`: which submitted field becomes a
 * `` `table`.`column` OP ? `` condition, with which bound value, and which
 * associations must be joined. Everything here is a value; the loops that the
 * Ruby code runs are in module FilterConditions and are proved against these
 * functions.
 */
module FilterModel {
  import opened Wrappers

  /** A submitted parameter value: a string, or nil for a key that is present without one. */
  datatype Value = Nil | Str(s: string)

  /** `value.blank?` on the values a request carries: nil and the empty string. */
  predicate Blank(v: Value) {
    v == Nil || v == Str("")
  }

  /** `"#{value}"`: nil interpolates as the empty string. */
  function Interpolated(v: Value): string {
    if v.Str? then v.s else ""
  }

  /** The keys of `TYPES`. */
  datatype Op = Eq | Ne | Li | Ll | Rl | Gt | Lt | Ge | Le

  /** The name of the symbol each operator key is written as. */
  function OpName(op: Op): string {
    match op
    case Eq => "eq"
    case Ne => "ne"
    case Li => "li"
    case Ll => "ll"
    case Rl => "rl"
    case Gt => "gt"
    case Lt => "lt"
    case Ge => "ge"
    case Le => "le"
  }

  /** `TYPES.keys`. */
  const TypeKeys: seq<Op> := [Eq, Ne, Li, Ll, Rl, Gt, Lt, Ge, Le]

  /** The first operator of `keys` whose name is `name`, if any. */
  function FindOp(name: string, keys: seq<Op>): (r: Option<Op>)
    ensures r.Some? ==> r.value in keys && OpName(r.value) == name
    ensures r.None? ==> forall op :: op in keys ==> OpName(op) != name
    decreases |keys|
  {
    if keys == [] then None
    else if OpName(keys[0]) == name then Some(keys[0])
    else FindOp(name, keys[1..])
  }

  /** `type.to_sym` looked up among `TYPES.keys`: the operator of that name, if there is one. */
  function OpNamed(name: string): Option<Op> {
    FindOp(name, TypeKeys)
  }

  /** Every operator is a key of `TYPES`, so the lookup fails only for a name no operator has. */
  lemma OpNamedComplete(name: string)
    ensures OpNamed(name).None? <==> forall op: Op :: OpName(op) != name
  {
    forall op: Op ensures op in TypeKeys {
      IsTypeKey(op);
    }
  }

  /** Each operator is one of `TYPES.keys`. */
  lemma IsTypeKey(op: Op)
    ensures op in TypeKeys
  {
    match op
    case Eq => assert TypeKeys[0] == op;
    case Ne => assert TypeKeys[1] == op;
    case Li => assert TypeKeys[2] == op;
    case Ll => assert TypeKeys[3] == op;
    case Rl => assert TypeKeys[4] == op;
    case Gt => assert TypeKeys[5] == op;
    case Lt => assert TypeKeys[6] == op;
    case Ge => assert TypeKeys[7] == op;
    case Le => assert TypeKeys[8] == op;
  }

  /** `TYPES[op]`, the SQL operator text. */
  function OperatorSql(op: Op): (r: string)
    ensures r == "LIKE" <==> op == Li || op == Ll || op == Rl
  {
    match op
    case Eq => "="
    case Ne => "!="
    case Li => "LIKE"
    case Ll => "LIKE"
    case Rl => "LIKE"
    case Gt => ">"
    case Lt => "<"
    case Ge => ">="
    case Le => "<="
  }

  /** `ALL`: with use_blank set, this value means "do not filter on this field". */
  const All: string := ":*"

  /**
   * One entry of the `filters` parameter for a field: its `reference`, `type`
   * and `use_blank` keys. None stands for a key that is absent (or, for
   * `reference` and `use_blank`, present with nil).
   */
  datatype FilterSpec = FilterSpec(reference: Option<string>, typ: Option<string>, useBlank: Option<Value>)

  /** `{}`: the spec of a field that has no entry in `filters`. */
  const NoSpec: FilterSpec := FilterSpec(None, None, None)

  /** `fields_filters[field] || {}`. */
  function SpecFor(specs: map<string, FilterSpec>, field: string): FilterSpec {
    if field in specs then specs[field] else NoSpec
  }

  /** `(fields_filters[field] || {})["reference"] || field`: the column a primary-model field stands for. */
  function ResolvedColumn(spec: FilterSpec, field: string): string {
    if spec.reference.Some? then spec.reference.value else field
  }

  /**
   * `default.merge(spec)[:use_blank]` used as a Ruby condition: the default is
   * false, and any submitted string, "false" and "0" included, is true.
   */
  predicate UsesBlank(spec: FilterSpec) {
    spec.useBlank.Some? && spec.useBlank.value.Str?
  }

  /** `default.merge(spec)[:type].to_sym` when it is a key of `TYPES`: `:eq` when no type is given. */
  function OpOf(spec: FilterSpec): Option<Op> {
    if spec.typ.None? then Some(Eq) else OpNamed(spec.typ.value)
  }

  /** The `unless` guard of a primary-model field: skip blank values, or the ALL marker under use_blank. */
  predicate SkipsPrimary(useBlank: bool, v: Value) {
    (!useBlank && Blank(v)) || (useBlank && v == Str(All))
  }

  /**
   * The bound value for an operator: the three LIKE variants wrap the
   * interpolated value in `%` (both sides for li, in front for ll, behind for
   * rl); every other operator binds the value as submitted.
   */
  function BoundValue(op: Op, v: Value): (r: Value)
    ensures OperatorSql(op) != "LIKE" ==> r == v
    ensures OperatorSql(op) == "LIKE" ==> r.Str? && r.s == (if op != Rl then "%" else "") + Interpolated(v) + (if op != Ll then "%" else "")
  {
    match op
    case Li => Str("%" + Interpolated(v) + "%")
    case Ll => Str("%" + Interpolated(v))
    case Rl => Str(Interpolated(v) + "%")
    case _ => v
  }

  /** `` "`#{table}`.`#{column}` #{TYPES[op]} ?" `` */
  function ConditionText(table: string, column: string, op: Op): string {
    "`" + table + "`.`" + column + "` " + OperatorSql(op) + " ?"
  }

  /**
   * One emitted condition, by its parts: the table and column it names, its
   * operator, and the submitted value. `Condition` and `Bound` render it as
   * the condition text and the bound value.
   */
  datatype Clause = Clause(table: string, column: string, op: Op, submitted: Value) {
    function Condition(): string {
      ConditionText(table, column, op)
    }

    function Bound(): Value {
      BoundValue(op, submitted)
    }
  }

  /** An association of the model: its key in `reflections`, its table and its class's columns. */
  datatype Reflection = Reflection(key: string, table: string, columns: set<string>)

  /** Where a group of fields is looked up: the model's own table, or an association's. */
  datatype Target =
    | PrimaryTable(table: string, columns: set<string>)
    | Associated(reflection: Reflection)

  /** The clause one primary-model field produces, if any (the body of the first loop). */
  function PrimaryClause(table: string, columns: set<string>, specs: map<string, FilterSpec>, field: string, v: Value): Option<Clause> {
    var spec := SpecFor(specs, field);
    var column := ResolvedColumn(spec, field);
    if column in columns && !SkipsPrimary(UsesBlank(spec), v) && OpOf(spec).Some? then
      Some(Clause(table, column, OpOf(spec).value, v))
    else
      None
  }

  /**
   * The clause one association field produces, if any (the body of the inner
   * loop over an association's fields): no reference redirect and no ALL marker.
   */
  function AssociationClause(r: Reflection, specs: map<string, FilterSpec>, field: string, v: Value): Option<Clause> {
    var spec := SpecFor(specs, field);
    if field in r.columns && (!Blank(v) || UsesBlank(spec)) && OpOf(spec).Some? then
      Some(Clause(r.table, field, OpOf(spec).value, v))
    else
      None
  }

  function FieldClause(target: Target, specs: map<string, FilterSpec>, field: string, v: Value): Option<Clause> {
    match target
    case PrimaryTable(table, columns) => PrimaryClause(table, columns, specs, field, v)
    case Associated(r) => AssociationClause(r, specs, field, v)
  }

  /** A submitted group of fields, as the entries of its hash in enumeration order. */
  type Fields = seq<(string, Value)>

  /** What each field of a group produces, one outcome per field, in the order of the fields. */
  function Outcomes(target: Target, specs: map<string, FilterSpec>, fields: Fields): seq<Option<Clause>> {
    seq(|fields|, i requires 0 <= i < |fields| => FieldClause(target, specs, fields[i].0, fields[i].1))
  }

  /** The clauses present among a list of outcomes, in order. */
  function Collect(os: seq<Option<Clause>>): (r: seq<Clause>)
    ensures |r| <= |os|
  {
    if os == [] then [] else Collect(os[..|os| - 1]) + AsSeq(os[|os| - 1])
  }

  /** The clauses a group of fields produces, in the order of the fields: at most one per field. */
  function Clauses(target: Target, specs: map<string, FilterSpec>, fields: Fields): (r: seq<Clause>)
    ensures |r| <= |fields|
  {
    Collect(Outcomes(target, specs, fields))
  }

  /** The `conditions` list of a list of clauses. */
  function Conditions(cs: seq<Clause>): (r: seq<string>)
    ensures |r| == |cs|
    ensures forall i {:trigger r[i]} :: 0 <= i < |cs| ==> r[i] == cs[i].Condition()
  {
    if cs == [] then [] else Conditions(cs[..|cs| - 1]) + [cs[|cs| - 1].Condition()]
  }

  /** The `values` list of a list of clauses. */
  function Values(cs: seq<Clause>): (r: seq<Value>)
    ensures |r| == |cs|
    ensures forall i {:trigger r[i]} :: 0 <= i < |cs| ==> r[i] == cs[i].Bound()
  {
    if cs == [] then [] else Values(cs[..|cs| - 1]) + [cs[|cs| - 1].Bound()]
  }

  /** Rendering a list of clauses with at most one more clause at the end. */
  lemma RenderSnoc(cs: seq<Clause>, o: Option<Clause>)
    ensures Conditions(cs + AsSeq(o)) == Conditions(cs) + (if o.Some? then [o.value.Condition()] else [])
    ensures Values(cs + AsSeq(o)) == Values(cs) + (if o.Some? then [o.value.Bound()] else [])
  {
    if o.Some? {
      assert (cs + [o.value])[..|cs|] == cs;
    } else {
      assert cs + [] == cs;
    }
  }

  /** The condition texts of two runs of clauses are those of each run, in order. */
  lemma {:induction false} ConditionsAppend(a: seq<Clause>, b: seq<Clause>)
    ensures Conditions(a + b) == Conditions(a) + Conditions(b)
    decreases |b|
  {
    if b == [] {
      assert a + b == a;
    } else {
      var n := |b| - 1;
      var init, last := b[..n], b[n];
      assert b == init + [last];
      assert a + b == (a + init) + [last];
      assert Conditions(a + b) == Conditions(a + init) + [last.Condition()];
      assert Conditions(b) == Conditions(init) + [last.Condition()];
      ConditionsAppend(a, init);
    }
  }

  /** The bound values of two runs of clauses are those of each run, in order. */
  lemma {:induction false} ValuesAppend(a: seq<Clause>, b: seq<Clause>)
    ensures Values(a + b) == Values(a) + Values(b)
    decreases |b|
  {
    if b == [] {
      assert a + b == a;
    } else {
      var n := |b| - 1;
      var init, last := b[..n], b[n];
      assert b == init + [last];
      assert a + b == (a + init) + [last];
      assert Values(a + b) == Values(a + init) + [last.Bound()];
      assert Values(b) == Values(init) + [last.Bound()];
      ValuesAppend(a, init);
    }
  }

  /** Rendering two runs of clauses renders each run, in order. */
  lemma RenderAppend(a: seq<Clause>, b: seq<Clause>)
    ensures Conditions(a + b) == Conditions(a) + Conditions(b)
    ensures Values(a + b) == Values(a) + Values(b)
  {
    ConditionsAppend(a, b);
    ValuesAppend(a, b);
  }

  /** One entry of the parameter hash: a nested hash of fields, or anything else. */
  datatype Param = Group(fields: Fields) | Scalar(v: Value)

  /**
   * `args[model_name] || {}` can be enumerated: it is a hash, nil, or the empty
   * string (Ruby 1.8's `"".any?` is false). Any other value makes `fields.keys` raise.
   */
  predicate PrimaryParamAccepted(args: map<string, Param>, modelName: string) {
    modelName !in args || args[modelName].Group? || Blank(args[modelName].v)
  }

  /** `args[model_name] || {}`, as the list of its entries. */
  function PrimaryFields(args: map<string, Param>, modelName: string): Fields {
    if modelName in args && args[modelName].Group? then args[modelName].fields else []
  }

  /** `args` after the primary fields are read: `args.delete(model_name)` runs only when there were some. */
  function ArgsAfterPrimary(args: map<string, Param>, modelName: string): map<string, Param> {
    if PrimaryFields(args, modelName) != [] then args - {modelName} else args
  }

  /** `filters` after the primary fields are read: `filters.delete(model_name)` under the same condition. */
  function FiltersAfterPrimary(filters: map<string, map<string, FilterSpec>>, args: map<string, Param>, modelName: string): map<string, map<string, FilterSpec>> {
    if PrimaryFields(args, modelName) != [] then filters - {modelName} else filters
  }

  /** `filters[name] || {}`. */
  function GroupSpecs(filters: map<string, map<string, FilterSpec>>, name: string): map<string, FilterSpec> {
    if name in filters then filters[name] else map[]
  }

  /** `args[reflection_name]` when it `is_a?(Hash)`. */
  function GroupFields(args: map<string, Param>, name: string): Option<Fields> {
    if name in args && args[name].Group? then Some(args[name].fields) else None
  }

  /** The clauses of one association, in the order of its submitted fields. */
  function ReflectionClauses(r: Reflection, args: map<string, Param>, filters: map<string, map<string, FilterSpec>>): seq<Clause> {
    match GroupFields(args, r.key)
    case None => []
    case Some(fields) => Clauses(Associated(r), GroupSpecs(filters, r.key), fields)
  }

  /** The clauses of all associations, association by association in the order of `reflections`. */
  function AssociationsClauses(reflections: seq<Reflection>, args: map<string, Param>, filters: map<string, map<string, FilterSpec>>): seq<Clause>
    decreases |reflections|
  {
    if reflections == [] then []
    else
      var n := |reflections| - 1;
      AssociationsClauses(reflections[..n], args, filters) + ReflectionClauses(reflections[n], args, filters)
  }

  /** `options[:joins] << key unless options[:joins].include?(key)`, once a condition of `key` was emitted. */
  function AddJoin(joins: seq<string>, key: string, emitted: bool): seq<string> {
    if emitted && key !in joins then joins + [key] else joins
  }

  /** For each association in turn, its key and whether any of its fields produced a clause. */
  function Contributions(reflections: seq<Reflection>, args: map<string, Param>, filters: map<string, map<string, FilterSpec>>): seq<(string, bool)> {
    seq(|reflections|, i requires 0 <= i < |reflections| => (reflections[i].key, ReflectionClauses(reflections[i], args, filters) != []))
  }

  /** `joins` grown by `AddJoin` for each contribution in turn. */
  function JoinsOf(joins: seq<string>, cs: seq<(string, bool)>): seq<string>
    decreases |cs|
  {
    if cs == [] then joins
    else
      var last := cs[|cs| - 1];
      AddJoin(JoinsOf(joins, cs[..|cs| - 1]), last.0, last.1)
  }

  /** `options[:joins]` after the association loop, starting from `joins`. */
  function JoinsAfter(joins: seq<string>, reflections: seq<Reflection>, args: map<string, Param>, filters: map<string, map<string, FilterSpec>>): seq<string>
    decreases |reflections|
  {
    if reflections == [] then joins
    else
      var n := |reflections| - 1;
      AddJoin(JoinsAfter(joins, reflections[..n], args, filters), reflections[n].key, ReflectionClauses(reflections[n], args, filters) != [])
  }

  /** Every clause `build_conditions` produces: the model's own fields first, then the associations'. */
  function AllClauses(modelName: string, table: string, columns: set<string>, reflections: seq<Reflection>,
                      args: map<string, Param>, filters: map<string, map<string, FilterSpec>>): seq<Clause>
  {
    var primary := PrimaryFields(args, modelName);
    Clauses(PrimaryTable(table, columns), GroupSpecs(filters, modelName), primary)
      + AssociationsClauses(reflections, ArgsAfterPrimary(args, modelName), FiltersAfterPrimary(filters, args, modelName))
  }

  /** `options[:joins]` after `build_conditions`, from what it was before (nil counts as `[]`). */
  function AllJoins(joins: Option<seq<string>>, modelName: string, reflections: seq<Reflection>,
                    args: map<string, Param>, filters: map<string, map<string, FilterSpec>>): seq<string>
  {
    JoinsAfter(joins.GetOr([]), reflections, ArgsAfterPrimary(args, modelName), FiltersAfterPrimary(filters, args, modelName))
  }

  /** `conditions.join(' AND ')`. */
  function JoinAnd(conditions: seq<string>): string
    decreases |conditions|
  {
    if conditions == [] then ""
    else if |conditions| == 1 then conditions[0]
    else JoinAnd(conditions[..|conditions| - 1]) + " AND " + conditions[|conditions| - 1]
  }

  // ----- Per-field rules -----

  /** A field with no entry in `filters` is compared with `=`, blank values are not wanted, and it names its own column. */
  lemma MissingSpecDefaults(specs: map<string, FilterSpec>, field: string)
    requires field !in specs
    ensures OpOf(SpecFor(specs, field)) == Some(Eq)
    ensures !UsesBlank(SpecFor(specs, field))
    ensures ResolvedColumn(SpecFor(specs, field), field) == field
  {
  }

  /** A type that is not a key of `TYPES` produces neither a condition nor a value, for any field. */
  lemma UnknownTypeDropped(target: Target, specs: map<string, FilterSpec>, field: string, v: Value)
    requires field in specs && specs[field].typ.Some?
    requires forall op: Op :: OpName(op) != specs[field].typ.value
    ensures FieldClause(target, specs, field, v) == None
  {
    OpNamedComplete(specs[field].typ.value);
  }

  // ----- Properties of whole groups of fields -----

  /** One more outcome at the end adds its clause, if any, at the end. */
  lemma CollectSnoc(os: seq<Option<Clause>>, o: Option<Clause>)
    ensures Collect(os + [o]) == Collect(os) + AsSeq(o)
  {
    assert (os + [o])[..|os|] == os;
  }

  /** Collecting two runs of outcomes collects each run, in order. */
  lemma {:induction false} CollectAppend(a: seq<Option<Clause>>, b: seq<Option<Clause>>)
    ensures Collect(a + b) == Collect(a) + Collect(b)
    decreases |b|
  {
    if b == [] {
      assert a + b == a;
    } else {
      var n := |b| - 1;
      var init, last := b[..n], b[n];
      assert b == init + [last];
      assert a + b == (a + init) + [last];
      CollectAppend(a, init);
      CollectSnoc(a + init, last);
      CollectSnoc(init, last);
      calc {
        Collect(a + b);
        Collect(a + init) + AsSeq(last);
        (Collect(a) + Collect(init)) + AsSeq(last);
        Collect(a) + (Collect(init) + AsSeq(last));
        Collect(a) + Collect(b);
      }
    }
  }

  /** A clause is collected exactly when it is one of the outcomes. */
  lemma {:induction false} CollectMembership(os: seq<Option<Clause>>, c: Clause)
    ensures c in Collect(os) <==> Some(c) in os
    decreases |os|
  {
    if os != [] {
      var n := |os| - 1;
      assert os == os[..n] + [os[n]];
      CollectMembership(os[..n], c);
    }
  }

  /** Nothing is collected exactly when every outcome is empty. */
  lemma {:induction false} CollectEmpty(os: seq<Option<Clause>>)
    ensures Collect(os) == [] <==> forall i :: 0 <= i < |os| ==> os[i].None?
    decreases |os|
  {
    if os != [] {
      var n := |os| - 1;
      var init := os[..n];
      CollectEmpty(init);
      assert Collect(os) == Collect(init) + AsSeq(os[n]);
      forall i | 0 <= i < n ensures init[i] == os[i] { }
    }
  }

  /** Adding one field at the end adds its clause, if any, at the end. */
  lemma ClausesSnoc(target: Target, specs: map<string, FilterSpec>, fields: Fields, x: (string, Value))
    ensures Clauses(target, specs, fields + [x]) == Clauses(target, specs, fields) + AsSeq(FieldClause(target, specs, x.0, x.1))
  {
    assert Outcomes(target, specs, fields + [x]) == Outcomes(target, specs, fields) + [FieldClause(target, specs, x.0, x.1)];
    CollectSnoc(Outcomes(target, specs, fields), FieldClause(target, specs, x.0, x.1));
  }

  /** Processing the fields in two runs gives the clauses of each run, in order. */
  lemma ClausesAppend(target: Target, specs: map<string, FilterSpec>, f1: Fields, f2: Fields)
    ensures Clauses(target, specs, f1 + f2) == Clauses(target, specs, f1) + Clauses(target, specs, f2)
  {
    var o1, o2 := Outcomes(target, specs, f1), Outcomes(target, specs, f2);
    assert Outcomes(target, specs, f1 + f2) == o1 + o2 by {
      var o := Outcomes(target, specs, f1 + f2);
      forall i | 0 <= i < |f1 + f2| ensures o[i] == (o1 + o2)[i] {
        if i < |f1| {
          assert (f1 + f2)[i] == f1[i];
        } else {
          assert (f1 + f2)[i] == f2[i - |f1|];
        }
      }
    }
    CollectAppend(o1, o2);
  }

  /** A clause is produced exactly when some field of the group produces it. */
  lemma ClausesMembership(target: Target, specs: map<string, FilterSpec>, fields: Fields, c: Clause)
    ensures c in Clauses(target, specs, fields) <==>
              exists i :: 0 <= i < |fields| && FieldClause(target, specs, fields[i].0, fields[i].1) == Some(c)
  {
    var os := Outcomes(target, specs, fields);
    CollectMembership(os, c);
    assert Clauses(target, specs, fields) == Collect(os);
    forall i | 0 <= i < |fields| ensures os[i] == FieldClause(target, specs, fields[i].0, fields[i].1) { }
  }

  /** A group produces no clause exactly when each of its fields is dropped. */
  lemma ClausesEmpty(target: Target, specs: map<string, FilterSpec>, fields: Fields)
    ensures Clauses(target, specs, fields) == [] <==>
              forall i :: 0 <= i < |fields| ==> FieldClause(target, specs, fields[i].0, fields[i].1).None?
  {
    var os := Outcomes(target, specs, fields);
    CollectEmpty(os);
    assert Clauses(target, specs, fields) == Collect(os);
    forall i | 0 <= i < |fields| ensures os[i] == FieldClause(target, specs, fields[i].0, fields[i].1) { }
  }

  /**
   * The conditions of the model's own fields: each one comes from a field
   * whose resolved column is a column of the model, whose value passes the
   * skip guard and whose type is known, and it names that resolved column
   * with that type's operator and binds the wrapped value.
   */
  lemma PrimaryClausesIn(table: string, columns: set<string>, specs: map<string, FilterSpec>, fields: Fields, c: Clause)
    ensures c in Clauses(PrimaryTable(table, columns), specs, fields) <==>
              exists i :: 0 <= i < |fields| &&
                var spec := SpecFor(specs, fields[i].0);
                var column := ResolvedColumn(spec, fields[i].0);
                && column in columns
                && !SkipsPrimary(UsesBlank(spec), fields[i].1)
                && OpOf(spec).Some?
                && c == Clause(table, column, OpOf(spec).value, fields[i].1)
  {
    ClausesMembership(PrimaryTable(table, columns), specs, fields, c);
  }

  /** The conditions of an association's fields, characterised in the same way. */
  lemma AssociationClausesIn(r: Reflection, specs: map<string, FilterSpec>, fields: Fields, c: Clause)
    ensures c in Clauses(Associated(r), specs, fields) <==>
              exists i :: 0 <= i < |fields| &&
                var spec := SpecFor(specs, fields[i].0);
                && fields[i].0 in r.columns
                && (!Blank(fields[i].1) || UsesBlank(spec))
                && OpOf(spec).Some?
                && c == Clause(r.table, fields[i].0, OpOf(spec).value, fields[i].1)
  {
    ClausesMembership(Associated(r), specs, fields, c);
  }

  /** Fields whose column is unknown, or whose value is blank without use_blank, add no condition. */
  lemma PrimaryDroppedFieldsEmitNothing(table: string, columns: set<string>, specs: map<string, FilterSpec>, fields: Fields)
    requires forall i :: 0 <= i < |fields| ==>
               ResolvedColumn(SpecFor(specs, fields[i].0), fields[i].0) !in columns ||
               (!UsesBlank(SpecFor(specs, fields[i].0)) && Blank(fields[i].1))
    ensures Clauses(PrimaryTable(table, columns), specs, fields) == []
  {
    ClausesEmpty(PrimaryTable(table, columns), specs, fields);
  }

  // ----- Joins -----

  /** One more association at the end adds its clauses at the end. */
  lemma AssociationsClausesSnoc(reflections: seq<Reflection>, r: Reflection, args: map<string, Param>, filters: map<string, map<string, FilterSpec>>)
    ensures AssociationsClauses(reflections + [r], args, filters) ==
              AssociationsClauses(reflections, args, filters) + ReflectionClauses(r, args, filters)
  {
    assert (reflections + [r])[..|reflections|] == reflections;
  }

  /** One pass of the association loop: association `j` adds its conditions, its values and possibly its key. */
  lemma AssociationStep(joins: seq<string>, reflections: seq<Reflection>, j: nat, args: map<string, Param>, filters: map<string, map<string, FilterSpec>>)
    requires j < |reflections|
    ensures Conditions(AssociationsClauses(reflections[..j + 1], args, filters)) ==
              Conditions(AssociationsClauses(reflections[..j], args, filters)) + Conditions(ReflectionClauses(reflections[j], args, filters))
    ensures Values(AssociationsClauses(reflections[..j + 1], args, filters)) ==
              Values(AssociationsClauses(reflections[..j], args, filters)) + Values(ReflectionClauses(reflections[j], args, filters))
    ensures JoinsAfter(joins, reflections[..j + 1], args, filters) ==
              AddJoin(JoinsAfter(joins, reflections[..j], args, filters), reflections[j].key, ReflectionClauses(reflections[j], args, filters) != [])
  {
    var done, r := reflections[..j], reflections[j];
    assert reflections[..j + 1] == done + [r];
    AssociationsClausesSnoc(done, r, args, filters);
    JoinsAfterSnoc(joins, done, r, args, filters);
    RenderAppend(AssociationsClauses(done, args, filters), ReflectionClauses(r, args, filters));
  }

  /** One more association at the end adds its key, if its fields produced a clause and the key is new. */
  lemma JoinsAfterSnoc(joins: seq<string>, reflections: seq<Reflection>, r: Reflection, args: map<string, Param>, filters: map<string, map<string, FilterSpec>>)
    ensures JoinsAfter(joins, reflections + [r], args, filters) ==
              AddJoin(JoinsAfter(joins, reflections, args, filters), r.key, ReflectionClauses(r, args, filters) != [])
  {
    assert (reflections + [r])[..|reflections|] == reflections;
  }

  /** The joins after the association loop are those the associations' contributions add. */
  lemma {:induction false} JoinsAfterContributions(joins: seq<string>, reflections: seq<Reflection>, args: map<string, Param>, filters: map<string, map<string, FilterSpec>>)
    ensures JoinsAfter(joins, reflections, args, filters) == JoinsOf(joins, Contributions(reflections, args, filters))
    decreases |reflections|
  {
    if reflections != [] {
      var n := |reflections| - 1;
      JoinsAfterContributions(joins, reflections[..n], args, filters);
      assert Contributions(reflections, args, filters)[..n] == Contributions(reflections[..n], args, filters);
    }
  }

  /** `AddJoin` only grows the joins list, keeping what was there in front. */
  lemma {:induction false} JoinsOfKeepExisting(joins: seq<string>, cs: seq<(string, bool)>)
    ensures joins <= JoinsOf(joins, cs)
    decreases |cs|
  {
    if cs != [] {
      JoinsOfKeepExisting(joins, cs[..|cs| - 1]);
    }
  }

  /** The joins list only grows: what was there before is kept, in front. */
  lemma {:induction false} JoinsKeepExisting(joins: seq<string>, reflections: seq<Reflection>, args: map<string, Param>, filters: map<string, map<string, FilterSpec>>)
    ensures joins <= JoinsAfter(joins, reflections, args, filters)
  {
    JoinsAfterContributions(joins, reflections, args, filters);
    JoinsOfKeepExisting(joins, Contributions(reflections, args, filters));
  }

  /** No element of `s` occurs twice. */
  predicate Unrepeated(s: seq<string>) {
    forall i, j :: 0 <= i < j < |s| ==> s[i] != s[j]
  }

  /** `AddJoin` never adds a key twice. */
  lemma {:induction false} JoinsOfNoRepeats(joins: seq<string>, cs: seq<(string, bool)>)
    requires Unrepeated(joins)
    ensures Unrepeated(JoinsOf(joins, cs))
    decreases |cs|
  {
    if cs != [] {
      var n := |cs| - 1;
      var prev := JoinsOf(joins, cs[..n]);
      JoinsOfNoRepeats(joins, cs[..n]);
      var key := cs[n].0;
      if cs[n].1 && key !in prev {
        var r := prev + [key];
        forall i, j | 0 <= i < j < |r| ensures r[i] != r[j] {
          assert r[i] == prev[i] && prev[i] in prev;
          if j < |prev| {
            assert r[j] == prev[j];
            assert prev[i] != prev[j];
          }
        }
      }
    }
  }

  /** No key is added twice: a joins list without repeats stays without repeats. */
  lemma {:induction false} JoinsNoRepeats(joins: seq<string>, reflections: seq<Reflection>, args: map<string, Param>, filters: map<string, map<string, FilterSpec>>)
    requires Unrepeated(joins)
    ensures Unrepeated(JoinsAfter(joins, reflections, args, filters))
  {
    JoinsAfterContributions(joins, reflections, args, filters);
    JoinsOfNoRepeats(joins, Contributions(reflections, args, filters));
  }

  /** A key ends up in the joins list exactly when it was there before or some contribution adds it. */
  lemma {:induction false} JoinsOfMembership(joins: seq<string>, cs: seq<(string, bool)>, key: string)
    ensures key in JoinsOf(joins, cs) <==> key in joins || (key, true) in cs
    decreases |cs|
  {
    if cs != [] {
      var n := |cs| - 1;
      var init := cs[..n];
      JoinsOfMembership(joins, init, key);
      assert cs == init + [cs[n]];
    }
  }

  /** A key ends up among the joins exactly when it was there before or one of its association's conditions was emitted. */
  lemma {:induction false} JoinsMembership(joins: seq<string>, reflections: seq<Reflection>, args: map<string, Param>, filters: map<string, map<string, FilterSpec>>, key: string)
    ensures key in JoinsAfter(joins, reflections, args, filters) <==>
              key in joins ||
              exists i :: 0 <= i < |reflections| && reflections[i].key == key && ReflectionClauses(reflections[i], args, filters) != []
  {
    var cs := Contributions(reflections, args, filters);
    JoinsAfterContributions(joins, reflections, args, filters);
    JoinsOfMembership(joins, cs, key);
    if (key, true) in cs {
      var i :| 0 <= i < |cs| && cs[i] == (key, true);
      assert reflections[i].key == key && ReflectionClauses(reflections[i], args, filters) != [];
    }
    if exists i :: 0 <= i < |reflections| && reflections[i].key == key && ReflectionClauses(reflections[i], args, filters) != [] {
      var i :| 0 <= i < |reflections| && reflections[i].key == key && ReflectionClauses(reflections[i], args, filters) != [];
      assert cs[i] == (key, true);
    }
  }

  /** A joins list that already holds every key the contributions add is left as it is. */
  lemma {:induction false} JoinsOfAbsorbed(joins: seq<string>, cs: seq<(string, bool)>)
    requires forall c :: c in cs && c.1 ==> c.0 in joins
    ensures JoinsOf(joins, cs) == joins
    decreases |cs|
  {
    if cs != [] {
      var n := |cs| - 1;
      assert forall c :: c in cs[..n] ==> c in cs;
      JoinsOfAbsorbed(joins, cs[..n]);
      assert cs[n] in cs;
    }
  }

  /** Running the association loop again on the joins it produced adds nothing: `include?` keeps each key once. */
  lemma JoinsAfterIdempotent(joins: seq<string>, reflections: seq<Reflection>, args: map<string, Param>, filters: map<string, map<string, FilterSpec>>)
    ensures JoinsAfter(JoinsAfter(joins, reflections, args, filters), reflections, args, filters) == JoinsAfter(joins, reflections, args, filters)
  {
    var cs := Contributions(reflections, args, filters);
    var once := JoinsAfter(joins, reflections, args, filters);
    JoinsAfterContributions(joins, reflections, args, filters);
    JoinsAfterContributions(once, reflections, args, filters);
    forall c | c in cs && c.1 ensures c.0 in once {
      JoinsOfMembership(joins, cs, c.0);
    }
    JoinsOfAbsorbed(once, cs);
  }

  /** Once the model's own fields were read, an association named like the model adds nothing. */
  lemma SelfNamedAssociationSilent(modelName: string, r: Reflection, args: map<string, Param>, filters: map<string, map<string, FilterSpec>>)
    requires r.key == modelName
    ensures ReflectionClauses(r, ArgsAfterPrimary(args, modelName), FiltersAfterPrimary(filters, args, modelName)) == []
  {
    if PrimaryFields(args, modelName) == [] && modelName in args && args[modelName].Group? {
      assert Clauses(Associated(r), GroupSpecs(filters, modelName), []) == [];
    }
  }

  /** The joined condition string is empty exactly when no condition was emitted. */
  lemma {:induction false} JoinAndEmpty(conditions: seq<string>)
    requires forall k :: 0 <= k < |conditions| ==> conditions[k] != ""
    ensures JoinAnd(conditions) == "" <==> conditions == []
    decreases |conditions|
  {
    if |conditions| > 1 {
      var n := |conditions| - 1;
      var j := JoinAnd(conditions[..n]) + " AND " + conditions[n];
      assert |j| >= 5;
    }
  }
}
