/**
 * `Filter::Model#build_conditions` as the Ruby code runs it: loops that push
 * onto `conditions` and `values` side by side, append to `options[:joins]` in
 * place, and delete the model's entry from the caller's `filters` hash. Each
 * loop is proved against the functions of module FilterModel.
 */
module FilterConditions {
  import opened Wrappers
  import opened FilterModel

  /** The caller's `params[:filters]` hash: for a plain-Hash `params`, `params.dup` is shallow, so `build_conditions` changes it. */
  class FilterTable {
    var groups: map<string, map<string, FilterSpec>>

    constructor (groups: map<string, map<string, FilterSpec>>)
      ensures this.groups == groups
    {
      this.groups := groups;
    }
  }

  /** The `options` hash passed to `find` and `count`; of its entries, `build_conditions` touches `:joins` only. */
  class FindOptions {
    var joins: Option<seq<string>>

    constructor (joins: Option<seq<string>>)
      ensures this.joins == joins
    {
      this.joins := joins;
    }
  }

  /** `args[:filters] || {}`: the filter groups, empty when the parameters carry none. */
  function GroupsOf(filters: FilterTable?): map<string, map<string, FilterSpec>>
    reads filters
  {
    if filters == null then map[] else filters.groups
  }

  /** The loop over the model's own fields (the `for field in fields.keys` of `build_conditions`). */
  method PrimaryConditions(table: string, columns: set<string>, specs: map<string, FilterSpec>, fields: Fields)
    returns (conditions: seq<string>, values: seq<Value>)
    ensures |conditions| == |values|
    ensures conditions == Conditions(Clauses(PrimaryTable(table, columns), specs, fields))
    ensures values == Values(Clauses(PrimaryTable(table, columns), specs, fields))
  {
    ghost var target := PrimaryTable(table, columns);
    conditions, values := [], [];
    for i := 0 to |fields|
      invariant conditions == Conditions(Clauses(target, specs, fields[..i]))
      invariant values == Values(Clauses(target, specs, fields[..i]))
    {
      var (field, value) := fields[i];
      ghost var emitted := FieldClause(target, specs, field, value);
      RenderSnoc(Clauses(target, specs, fields[..i]), emitted);
      assert fields[..i + 1] == fields[..i] + [fields[i]];
      ClausesSnoc(target, specs, fields[..i], fields[i]);
      var spec := SpecFor(specs, field);
      var relatedField := ResolvedColumn(spec, field);
      if relatedField in columns {
        var useBlank := UsesBlank(spec);
        if !SkipsPrimary(useBlank, value) {
          var filter := OpOf(spec);
          if filter.Some? {
            assert emitted == Some(Clause(table, relatedField, filter.value, value));
            conditions := conditions + [ConditionText(table, relatedField, filter.value)];
            values := values + [BoundValue(filter.value, value)];
          } else {
            assert emitted == None;
          }
        } else {
          assert emitted == None;
        }
      } else {
        assert emitted == None;
      }
    }
    assert fields[..|fields|] == fields;
  }

  /**
   * The inner loop over the fields submitted for one association: its
   * conditions and values, and the joins list with the association's key
   * added once if any of them was emitted.
   */
  method ReflectionConditions(reflection: Reflection, specs: map<string, FilterSpec>, fields: Fields, joinsIn: seq<string>)
    returns (conditions: seq<string>, values: seq<Value>, joins: seq<string>)
    ensures |conditions| == |values|
    ensures conditions == Conditions(Clauses(Associated(reflection), specs, fields))
    ensures values == Values(Clauses(Associated(reflection), specs, fields))
    ensures joins == AddJoin(joinsIn, reflection.key, Clauses(Associated(reflection), specs, fields) != [])
  {
    ghost var target := Associated(reflection);
    conditions, values, joins := [], [], joinsIn;
    for i := 0 to |fields|
      invariant conditions == Conditions(Clauses(target, specs, fields[..i]))
      invariant values == Values(Clauses(target, specs, fields[..i]))
      invariant joins == AddJoin(joinsIn, reflection.key, Clauses(target, specs, fields[..i]) != [])
    {
      var (field, value) := fields[i];
      ghost var emitted := FieldClause(target, specs, field, value);
      RenderSnoc(Clauses(target, specs, fields[..i]), emitted);
      assert fields[..i + 1] == fields[..i] + [fields[i]];
      ClausesSnoc(target, specs, fields[..i], fields[i]);
      var spec := SpecFor(specs, field);
      if field in reflection.columns && (!Blank(value) || UsesBlank(spec)) {
        var typeFilter := OpOf(spec);
        if typeFilter.Some? {
          assert emitted == Some(Clause(reflection.table, field, typeFilter.value, value));
          conditions := conditions + [ConditionText(reflection.table, field, typeFilter.value)];
          values := values + [BoundValue(typeFilter.value, value)];
          if reflection.key !in joins {
            joins := joins + [reflection.key];
          }
        } else {
          assert emitted == None;
        }
      } else {
        assert emitted == None;
      }
    }
    assert fields[..|fields|] == fields;
  }

  /**
   * The loop over the model's reflections (`for reflection_key in
   * self.reflections.keys`): conditions and values for the associations whose
   * parameters are a hash, and the joins list grown from `joins0`.
   */
  method AssociationConditions(reflections: seq<Reflection>, args: map<string, Param>,
                               filters: map<string, map<string, FilterSpec>>, joins0: seq<string>)
    returns (conditions: seq<string>, values: seq<Value>, joins: seq<string>)
    ensures |conditions| == |values|
    ensures conditions == Conditions(AssociationsClauses(reflections, args, filters))
    ensures values == Values(AssociationsClauses(reflections, args, filters))
    ensures joins == JoinsAfter(joins0, reflections, args, filters)
  {
    conditions, values, joins := [], [], joins0;
    for j := 0 to |reflections|
      invariant conditions == Conditions(AssociationsClauses(reflections[..j], args, filters))
      invariant values == Values(AssociationsClauses(reflections[..j], args, filters))
      invariant joins == JoinsAfter(joins0, reflections[..j], args, filters)
    {
      var reflection := reflections[j];
      var reflectionFields := GroupFields(args, reflection.key);
      AssociationStep(joins0, reflections, j, args, filters);
      if reflectionFields.Some? {
        var moreConditions, moreValues;
        moreConditions, moreValues, joins := ReflectionConditions(reflection, GroupSpecs(filters, reflection.key), reflectionFields.value, joins);
        assert ReflectionClauses(reflection, args, filters) == Clauses(Associated(reflection), GroupSpecs(filters, reflection.key), reflectionFields.value);
        conditions, values := conditions + moreConditions, values + moreValues;
      } else {
        assert ReflectionClauses(reflection, args, filters) == [];
        assert conditions + [] == conditions && values + [] == values;
      }
    }
    assert reflections[..|reflections|] == reflections;
  }

  /**
   * `build_conditions(params, options)`: the model's own fields, then the
   * associations'. The caller's filters hash loses the model's entry when the
   * model's fields were read, and `options[:joins]` ends up set.
   */
  method BuildConditions(modelName: string, table: string, columns: set<string>, reflections: seq<Reflection>,
                         args: map<string, Param>, filters: FilterTable?, options: FindOptions)
    returns (conditions: seq<string>, values: seq<Value>)
    requires PrimaryParamAccepted(args, modelName)
    modifies filters, options
    ensures |conditions| == |values|
    ensures conditions == Conditions(AllClauses(modelName, table, columns, reflections, args, old(GroupsOf(filters))))
    ensures values == Values(AllClauses(modelName, table, columns, reflections, args, old(GroupsOf(filters))))
    ensures options.joins == Some(AllJoins(old(options.joins), modelName, reflections, args, old(GroupsOf(filters))))
    ensures filters != null ==> filters.groups == FiltersAfterPrimary(old(filters.groups), args, modelName)
  {
    var rest := args;
    var filterGroups := GroupsOf(filters);
    var fields := PrimaryFields(args, modelName);
    conditions, values := [], [];
    if fields != [] {
      var fieldsFilters := GroupSpecs(filterGroups, modelName);
      conditions, values := PrimaryConditions(table, columns, fieldsFilters, fields);
      if filters != null {
        filters.groups := filters.groups - {modelName};
      }
      filterGroups := filterGroups - {modelName};
      rest := rest - {modelName};
    }
    if options.joins.None? {
      options.joins := Some([]);
    }
    var moreConditions, moreValues, joins := AssociationConditions(reflections, rest, filterGroups, options.joins.value);
    options.joins := Some(joins);
    RenderAppend(Clauses(PrimaryTable(table, columns), GroupSpecs(old(GroupsOf(filters)), modelName), fields),
                 AssociationsClauses(reflections, rest, filterGroups));
    conditions, values := conditions + moreConditions, values + moreValues;
  }

  /** What `filter` hands to `find(:all, ...)` and `filter_count` to `count(...)`, besides the caller's other options. */
  datatype FindCall = FindCall(joins: seq<string>, conditions: string, values: seq<Value>)

  /** `options.merge(:conditions => build_conditions(args, options))`, by the parts this model keeps. */
  method FindArguments(modelName: string, table: string, columns: set<string>, reflections: seq<Reflection>,
                       args: map<string, Param>, filters: FilterTable?, options: FindOptions)
    returns (call: FindCall)
    requires PrimaryParamAccepted(args, modelName)
    modifies filters, options
    ensures call.joins == AllJoins(old(options.joins), modelName, reflections, args, old(GroupsOf(filters)))
    ensures call.conditions == JoinAnd(Conditions(AllClauses(modelName, table, columns, reflections, args, old(GroupsOf(filters)))))
    ensures call.values == Values(AllClauses(modelName, table, columns, reflections, args, old(GroupsOf(filters))))
    ensures options.joins == Some(call.joins)
    ensures filters != null ==> filters.groups == FiltersAfterPrimary(old(filters.groups), args, modelName)
  {
    var conditions, values := BuildConditions(modelName, table, columns, reflections, args, filters, options);
    call := FindCall(options.joins.value, JoinAnd(conditions), values);
  }

  /**
   * `filter(params, options)` followed by `filter_count(params, options)` with
   * the same hashes, as the code is written: the count is built from the
   * filters the first call left behind, which no longer hold the model's own
   * group once the model had fields.
   */
  method FilterThenCount(modelName: string, table: string, columns: set<string>, reflections: seq<Reflection>,
                         args: map<string, Param>, filters: FilterTable?, options: FindOptions)
    returns (found: FindCall, counted: FindCall)
    requires PrimaryParamAccepted(args, modelName)
    modifies filters, options
    ensures found.conditions == JoinAnd(Conditions(AllClauses(modelName, table, columns, reflections, args, old(GroupsOf(filters)))))
    ensures found.values == Values(AllClauses(modelName, table, columns, reflections, args, old(GroupsOf(filters))))
    ensures counted.conditions ==
              JoinAnd(Conditions(AllClauses(modelName, table, columns, reflections, args,
                                            FiltersAfterPrimary(old(GroupsOf(filters)), args, modelName))))
    ensures counted.values ==
              Values(AllClauses(modelName, table, columns, reflections, args, FiltersAfterPrimary(old(GroupsOf(filters)), args, modelName)))
  {
    found := FindArguments(modelName, table, columns, reflections, args, filters, options);
    assert GroupsOf(filters) == FiltersAfterPrimary(old(GroupsOf(filters)), args, modelName);
    counted := FindArguments(modelName, table, columns, reflections, args, filters, options);
  }

  /** A user's `name` field, searched with the LIKE type `li`. */
  const LikeNameFilters: map<string, map<string, FilterSpec>> := map["user" := map["name" := FilterSpec(None, Some("li"), None)]]

  /** The parameters `user[name]=bob`. */
  const BobArgs: map<string, Param> := map["user" := Group([("name", Str("bob"))])]

  /**
   * With these parameters `filter` compares `users.name` with LIKE, but the
   * `filter_count` that follows it compares with `=`, and a count no longer
   * matches the rows found.
   */
  lemma CountLosesFieldType()
    ensures AllClauses("user", "users", {"name"}, [], BobArgs, LikeNameFilters) == [Clause("users", "name", Li, Str("bob"))]
    ensures AllClauses("user", "users", {"name"}, [], BobArgs, FiltersAfterPrimary(LikeNameFilters, BobArgs, "user")) ==
              [Clause("users", "name", Eq, Str("bob"))]
  {
    var after := FiltersAfterPrimary(LikeNameFilters, BobArgs, "user");
    BobFields();
    assert AllClauses("user", "users", {"name"}, [], BobArgs, LikeNameFilters) == [Clause("users", "name", Li, Str("bob"))] by {
      OneFieldClauses("user", "users", {"name"}, BobArgs, LikeNameFilters, "name", Str("bob"));
      LikeNameClause();
    }
    assert AllClauses("user", "users", {"name"}, [], BobArgs, after) == [Clause("users", "name", Eq, Str("bob"))] by {
      OneFieldClauses("user", "users", {"name"}, BobArgs, after, "name", Str("bob"));
      assert "user" !in after;
      assert GroupSpecs(after, "user") == map[];
    }
  }

  /** `user[name]=bob` gives the model one field, so `filters` loses the model's group. */
  lemma BobFields()
    ensures PrimaryFields(BobArgs, "user") == [("name", Str("bob"))]
    ensures FiltersAfterPrimary(LikeNameFilters, BobArgs, "user") == map[]
  {
  }

  /** With its `li` type, the field becomes a LIKE clause on `users.name`. */
  lemma LikeNameClause()
    ensures PrimaryClause("users", {"name"}, GroupSpecs(LikeNameFilters, "user"), "name", Str("bob")) == Some(Clause("users", "name", Li, Str("bob")))
  {
    var spec := FilterSpec(None, Some("li"), None);
    assert GroupSpecs(LikeNameFilters, "user") == map["name" := spec];
    assert SpecFor(map["name" := spec], "name") == spec;
    assert ResolvedColumn(spec, "name") == "name";
    assert !UsesBlank(spec);
    assert !Blank(Str("bob")) by { assert |"bob"| != |""|; }
    OpNamedLi();
  }

  /** The type name `li` is the third key of `TYPES`. */
  lemma OpNamedLi()
    ensures OpNamed("li") == Some(Li)
  {
    var rest := TypeKeys[2..];
    assert rest[0] == Li;
    assert FindOp("li", rest) == Some(Li);
    assert TypeKeys[1..][1..] == rest;
    assert "ne" != "li" by { assert "ne"[0] != "li"[0]; }
    assert "eq" != "li" by { assert "eq"[0] != "li"[0]; }
  }

  /** With a single field of the model's own and no associations, the clauses are that field's clause, if any. */
  lemma OneFieldClauses(modelName: string, table: string, columns: set<string>, args: map<string, Param>,
                        filters: map<string, map<string, FilterSpec>>, field: string, v: Value)
    requires PrimaryFields(args, modelName) == [(field, v)]
    ensures AllClauses(modelName, table, columns, [], args, filters) ==
              AsSeq(PrimaryClause(table, columns, GroupSpecs(filters, modelName), field, v))
  {
    var target := PrimaryTable(table, columns);
    var specs := GroupSpecs(filters, modelName);
    assert Outcomes(target, specs, []) == [];
    ClausesSnoc(target, specs, [], (field, v));
    assert [] + [(field, v)] == [(field, v)];
  }

  /**
   * `build_conditions` working on its own copy of the filters, as the
   * `params.dup` at its start evidently intends: the caller's hash is left as
   * it was.
   */
  method FindArgumentsOnCopy(modelName: string, table: string, columns: set<string>, reflections: seq<Reflection>,
                             args: map<string, Param>, filters: FilterTable?, options: FindOptions)
    returns (call: FindCall)
    requires PrimaryParamAccepted(args, modelName)
    modifies options
    ensures call.joins == AllJoins(old(options.joins), modelName, reflections, args, GroupsOf(filters))
    ensures call.conditions == JoinAnd(Conditions(AllClauses(modelName, table, columns, reflections, args, GroupsOf(filters))))
    ensures call.values == Values(AllClauses(modelName, table, columns, reflections, args, GroupsOf(filters)))
    ensures options.joins == Some(call.joins)
  {
    var copy := new FilterTable(GroupsOf(filters));
    call := FindArguments(modelName, table, columns, reflections, args, copy, options);
  }

  /** With the filters copied, `filter` and then `filter_count` on the same hashes agree on conditions, values and joins. */
  method FilterThenCountOnCopy(modelName: string, table: string, columns: set<string>, reflections: seq<Reflection>,
                               args: map<string, Param>, filters: FilterTable?, options: FindOptions)
    returns (found: FindCall, counted: FindCall)
    requires PrimaryParamAccepted(args, modelName)
    modifies options
    ensures found.conditions == JoinAnd(Conditions(AllClauses(modelName, table, columns, reflections, args, GroupsOf(filters))))
    ensures counted.conditions == found.conditions && counted.values == found.values && counted.joins == found.joins
  {
    found := FindArgumentsOnCopy(modelName, table, columns, reflections, args, filters, options);
    counted := FindArgumentsOnCopy(modelName, table, columns, reflections, args, filters, options);
    JoinsAfterIdempotent(old(options.joins).GetOr([]), reflections, ArgsAfterPrimary(args, modelName),
                         FiltersAfterPrimary(GroupsOf(filters), args, modelName));
  }
}
