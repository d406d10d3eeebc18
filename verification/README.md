# filters: a Dafny model of the SQL condition builder and its view helpers

The `filters` Rails plugin turns submitted form parameters into the
`:conditions` and `:joins` of an ActiveRecord `find`. This project models the
plugin's one algorithm, `Filter::Model#build_conditions`, and its view-side
companion, `Filter::View`, and proves the properties the two promise.

`build_conditions` reads a nested parameter hash. It holds one group of field
values for the model itself and one for each association, plus a `filters`
group that gives each field an operator (`type`), a `use_blank` flag and, for
the model's own fields, a `reference` to another column. For each submitted
field that names a known column and is not skipped, it appends a condition
`` `table`.`column` OP ? `` to one list and the bound value to another, in
step. For every association that contributes a condition, it also adds the
association's key to `options[:joins]`, once.

The view helpers render the form field for a model attribute. They also add
one hidden field `filters[klass][field][key]` per option, so that the
operator settings come back with the next submission.

## Layout

- `wrappers.dfy`, module `Wrappers`: `Option` and `Result`.
- `filter_model.dfy`, module `FilterModel`: the values the builder handles
  and the operator table `TYPES`. It also holds the per-field rules, the
  specification functions `Clauses`, `AssociationsClauses`, `JoinsAfter` and
  `AllClauses`, and the lemmas about them. `Clauses` keeps the emitted
  clauses (`Collect`) among the outcomes of a group's fields (`Outcomes`).
  `JoinsAfter` is also shown equal to `JoinsOf` over each association's key
  and whether it emitted anything. The facts about these lists are thus
  proved once, generically. An emitted condition is a `Clause`
  (table, column, operator, submitted value). `Conditions` and `Values` render
  a list of clauses as the two lists the builder returns.
- `filter_conditions.dfy`, module `FilterConditions`: the builder's loops as
  methods, proved against those functions. The state it changes in place is
  modelled as two classes. `FilterTable` is the caller's `params[:filters]`:
  for a plain-Hash `params`, `params.dup` is shallow, so deleting the model's
  entry is visible to the caller. `FindOptions` holds `options[:joins]`.
- `param_paths.dfy`, module `ParamPaths`: reads a bracketed field name such as
  `filters[user][name][type]` back as the key path
  `["filters", "user", "name", "type"]`. This is the independent reference
  against which the names the view writes are checked.
- `filter_view.dfy`, module `FilterView`: tag-type dispatch, the radio-button
  guard, field naming, and `filter_options` over a mutable `OptionsHash`.
  Tags are abstract records, not HTML.

## Modelling notes

- A Ruby hash is modelled by its entries in enumeration order. Ruby 1.8 does
  not fix that order; the model takes whatever order the hash enumerates in.
  Field groups may repeat a key in the model, so it covers more inputs than a
  hash can hold. Option hashes in the view carry `DistinctKeys`.
- ActiveRecord's introspection becomes plain inputs: the model name, its
  table, its column set, and a list of `Reflection(key, table, columns)`.
- A submitted value is `Nil` or `Str(s)`. It is blank when it is nil or
  `""`. `"#{value}"` of nil is the empty string.
- `use_blank` follows Ruby truth over submitted values. Any present string,
  `"false"` and `"0"` included, turns it on. A hidden field written from
  `:use_blank => false` therefore comes back as `"false"` and switches
  `use_blank` on.
- The `:type` string is looked up by name among the `TYPES` keys. A name that
  is not a key produces nothing.
- `BuildConditions` requires `PrimaryParamAccepted`. The model's own entry in
  the parameters must be a hash, nil or `""`. For any other value the source
  raises on `fields.keys`.
- `args.delete(model_name)` and `filters.delete(model_name)` run only when
  the model's own group is non-empty. Both are modelled. As a result, an
  association named like the model never adds a condition.
- `filter_radio_button` returns its single tag, without hidden option fields
  (lib/filter.rb:114-117). Every other helper appends them
  (lib/filter.rb:113, 119, 137).
- A view option value is nil, a boolean, a string, a symbol, an integer or a
  list. Request values are only nil, strings and lists. A radio button whose
  `:value` is a symbol or an integer is therefore never checked, since Ruby's
  `==` never equates a symbol or an integer with a string.

## Model

| member | source | states |
|---|---|---|
| `FilterModel.FindOp` | lib/filter.rb:50-51 | the key found for a `type` string is one of the keys searched and has exactly that name; nothing is found when no key searched has that name |
| `FilterModel.IsTypeKey` | lib/filter.rb:3-13 | every operator is one of the nine `TYPES` keys |
| `FilterModel.OpNamedComplete` | lib/filter.rb:50-51 | the `TYPES.keys.include?` test fails exactly for a name that no operator has |
| `FilterModel.OperatorSql` | lib/filter.rb:3-13 | the SQL text is `LIKE` exactly for the three wildcard operators `li`, `ll`, `rl` |
| `FilterModel.BoundValue` | lib/filter.rb:53-58 | the LIKE operators bind the interpolated value with `%` on both sides (li), in front (ll) or behind (rl); every other operator binds the value unchanged |
| `FilterModel.Clauses` | lib/filter.rb:39-62 | a group of fields yields at most one condition per field |
| `FilterModel.Conditions` | lib/filter.rb:52 | the condition list has exactly one entry per clause, and entry i is clause i's `` `table`.`column` OP ? `` text |
| `FilterModel.Values` | lib/filter.rb:53-58 | the value list has exactly one entry per clause, and entry i is clause i's bound value, so it runs in lockstep with the conditions |
| `FilterModel.RenderAppend` | lib/filter.rb:52-58 | the conditions and the values of two runs of clauses are those of the first run followed by those of the second |
| `FilterModel.MissingSpecDefaults` | lib/filter.rb:28 | a field without a filter entry uses `:eq`, has `use_blank` off and names its own column |
| `FilterModel.UnknownTypeDropped` | lib/filter.rb:80-81 | a type that is not a `TYPES` key yields no condition and no value, for the model's fields and the associations' alike |
| `FilterModel.ClausesAppend` | lib/filter.rb:39 | conditions follow field order: two runs of fields give the first run's conditions, then the second's |
| `FilterModel.ClausesMembership` | lib/filter.rb:39-62 | a condition is emitted exactly when some field of the group yields it |
| `FilterModel.ClausesEmpty` | lib/filter.rb:76-93 | a group emits nothing exactly when every one of its fields is dropped |
| `FilterModel.PrimaryClausesIn` | lib/filter.rb:39-58 | each condition of the model's own fields comes from a field with a known resolved column, a value that passes the skip guard and a known type, and each such field's condition is emitted |
| `FilterModel.AssociationClausesIn` | lib/filter.rb:76-88 | the same characterisation for an association's fields, under the association branch's own guard |
| `FilterModel.PrimaryDroppedFieldsEmitNothing` | lib/filter.rb:44-49 | fields whose column is unknown, or whose value is blank without `use_blank`, emit no condition |
| `FilterModel.AssociationStep` | lib/filter.rb:68-95 | one pass of the association loop appends that association's conditions and values and adds its key to the joins only when it emitted a condition and the key is new |
| `FilterModel.JoinsKeepExisting` | lib/filter.rb:67 | joins already in `options[:joins]` are kept, in front |
| `FilterModel.JoinsNoRepeats` | lib/filter.rb:90 | a joins list without repeats stays without repeats, however many fields of one association match |
| `FilterModel.JoinsAfterIdempotent` | lib/filter.rb:90 | running the association loop again on the joins it produced leaves them as they are |
| `FilterModel.JoinsMembership` | lib/filter.rb:67-95 | a key is among the joins afterwards exactly when it was there before or its association emitted a condition |
| `FilterModel.SelfNamedAssociationSilent` | lib/filter.rb:63-72 | after the model's own fields are read, an association named like the model emits nothing |
| `FilterModel.JoinAndEmpty` | lib/filter.rb:97 | joining non-empty conditions with ` AND ` gives the empty string exactly when there are none |
| `FilterConditions.PrimaryConditions` | lib/filter.rb:37-62 | the loop over the model's fields pushes exactly the conditions and values of `Clauses` for the model's table, in lockstep |
| `FilterConditions.ReflectionConditions` | lib/filter.rb:76-93 | the loop over one association's fields pushes exactly its clauses and adds its key to the joins once, only if a condition was emitted |
| `FilterConditions.AssociationConditions` | lib/filter.rb:67-95 | the loop over the reflections yields the associations' conditions and values in reflection order, and the joins of `JoinsAfter` |
| `FilterConditions.BuildConditions` | lib/filter.rb:26-98 | the result is the model's conditions followed by the associations', with values in lockstep; `options[:joins]` is set; the caller's filters lose the model's entry when its fields were read |
| `FilterConditions.FindArguments` | lib/filter.rb:17-23 | `find` and `count` receive the joins and the ` AND `-joined conditions with their values; the caller's filters lose the model's entry when its fields were read |
| `FilterConditions.FilterThenCount` | lib/filter.rb:17-23 | `filter` and then `filter_count` on the same hashes: the count is built from the filters without the model's own group |
| `FilterConditions.CountLosesFieldType` | lib/filter.rb:43-63 | for `user[name]=bob` with type `li`, the first call emits a LIKE clause and the second an `=` clause |
| `FilterConditions.FindArgumentsOnCopy` | lib/filter.rb:17-27 | building on a copy of the filters gives the same call arguments and leaves the caller's filters untouched |
| `FilterConditions.FilterThenCountOnCopy` | lib/filter.rb:17-23 | on a copy, `filter` and `filter_count` with the same hashes receive the same conditions, values and joins |
| `FilterView.Dispatch` | lib/filter.rb:124-130 | a type name in `View::TYPES` selects the tag type of that name; any other name fails with the unknown-tag error |
| `FilterView.WithoutKey` | lib/filter.rb:158 | deleting `:values` keeps every other option, drops that key, and keeps keys distinct |
| `FilterView.RadioValue` | lib/filter.rb:115-116 | the radio button gets the truthy `options[:value]`; when that option is absent, nil or false it fails with an `ArgumentError` |
| `FilterView.FieldNameRoundTrip` | lib/filter.rb:145-147 | `klass[field]` is read back as the key path `klass`, `field` |
| `FilterView.OptionFieldNameRoundTrip` | lib/filter.rb:156-160 | `filters[klass][field][key]` is read back as the key path `filters`, `klass`, `field`, `key` |
| `FilterView.OptionFieldNamesDistinct` | lib/filter.rb:156-161 | distinct option keys give distinct hidden-field names, for any class and field name, brackets included |
| `FilterView.OptionTagsReadBack` | lib/filter.rb:156-161 | there is one hidden field per option, and field i is read back as option i's key path under `filters[klass][field]` and carries that option's value |
| `FilterView.HiddenFields` | lib/filter.rb:159-161 | the `inject` loop produces exactly `OptionTags` |
| `FilterView.RenderFails` | lib/filter.rb:112-120 | rendering fails exactly for a radio button without a truthy `:value` option |
| `FilterView.RenderedOptionsRoundTrip` | lib/filter.rb:113-119 | every tag after the field's own is a hidden field that is read back as some option other than `values`, with its value |
| `FilterView.RenderedOptionsComplete` | lib/filter.rb:153-161 | every option other than `values` is carried by one of those hidden fields |
| `FilterView.FilterOptions` | lib/filter.rb:153-162 | `filter_options` removes `:values` from the caller's options and returns one hidden field per remaining option; with no options it returns none |
| `FilterView.NilOptionsRendering` | lib/filter.rb:106-137 | with nil options the five generated helpers work on `{}`: the radio button fails for want of a value and the others render their own tag with no hidden field; `filter_select` fails on `nil[:values]` |
| `FilterView.RenderField` | lib/filter.rb:104-122 | each `filter_<type>` helper returns the field's tag and the hidden option fields, or the radio button's single tag or error; nil options are read as `{}`, except by the select, which fails; only the radio button leaves given options untouched; the radio button is checked exactly when the request value equals its `:value` |
| `FilterView.Filter` | lib/filter.rb:124-131 | an unknown tag name fails with the unknown-tag error and changes nothing; a known one renders as its helper does, nil options included, and given options lose `:values` unless it is the radio button |

## Findings

| source | as written | input that shows it | evidently intended | confidence | as-written member | corrected member |
|---|---|---|---|---|---|---|
| lib/filter.rb:18, 22, 27, 63 | for a plain-Hash `params`, `params.dup` copies only the outer hash, so `filters.delete(model_name)` removes the model's group from the caller's `params[:filters]`; a `filter_count` after `filter` on the same params loses the model's filter types | a plain-Hash `params` with `user[name]=bob` and `filters[user][name][type]=li`: `filter` binds LIKE `%bob%`, the following `filter_count` binds `= bob` | `build_conditions` leaves the caller's params as they were, so both calls see the same filters | not executed; medium, since Rails' `HashWithIndifferentAccess#dup` may copy nested hashes | `FilterConditions.FilterThenCount`, `FilterConditions.CountLosesFieldType` | `FilterConditions.FindArgumentsOnCopy`, `FilterConditions.FilterThenCountOnCopy` |

## Left out

- The ActiveRecord calls `find` and `count` themselves are left out, because they are database access. `FindArguments` models only what they receive.
- The `.to_a + values` packaging of the result is left out, including Ruby 1.8's `"".to_a == []`. The result is modelled as the pair of condition and value lists.
- ActiveRecord introspection (`column_names`, `reflections`, `table_name`, `reflection.klass`, `name.underscore`) is left out. These are framework metadata and become plain inputs.
- ActiveSupport's `blank?` is reduced to nil and `""`. Whitespace-only strings are not treated as blank. `symbolize_keys` is left out: filter entries are read by name.
- A `type` entry that is present but nil is left out (`nil.to_sym` raises), and so is Ruby 1.8's `"".to_sym` error. In the model a present type is a string, and `""` is simply an unknown type.
- Non-string parameter values (nested arrays and hashes inside a field group) are left out. `Value` holds only strings and nil.
- An association named `filters` is left out. The model passes the `:filters` group separately from the field groups, so it cannot also be read as an association's fields.
- `field_value`'s `rescue ""` over the request `params` is left out, because it is Ruby runtime behaviour. The helpers take the field's current request value as a parameter.
- `filter_select`'s regex-to-integer coercion of the selected value is left out, because it is library behaviour. The select records the value as submitted.
- The HTML that `*_tag`, `options_for_select` and the `html_options` produce is left out, since it is framework rendering. The check box's `{:value => "1"}` default is part of that. Each tag is a record of the helper's arguments.
- `method_exists?` is not defined in lib/filter.rb and is not part of this model. It is taken to hold for all six `filter_<type>` helpers, which the file defines.
- How Rails assembles the submitted parameter hash from the key paths is not modelled. `ParamPaths` stops at reading one name as its key path, for names built from segments without brackets.
- SQL quoting is left out. Table names come from ActiveRecord. Column names are placed between backticks without escaping, but only after the column check (lines 44 and 79), which `PrimaryClausesIn` and `AssociationClausesIn` state.
- FilterConditions.BuildConditions: `options[:joins]` is modelled as a list of association names. A caller-supplied `:joins` that is a SQL string, a symbol or a hash is not modelled: line 90 then raises, in `include?` or in `<<`. Reflection keys are symbols in the source, so a pre-set string `"user"` does not stop `:user` from being added. The model compares names and treats the two as one.
- FilterConditions.BuildConditions: the `requires PrimaryParamAccepted` leaves out the `NoMethodError` that line 39 raises on `fields.keys` when the model's own parameter is neither a hash nor blank.
- A `filters` entry that is not a hash is not modelled: `FilterSpec` always has the shape of one. The source raises `TypeError` on such entries. A group sent as a list (`filters[user][]=x`) raises at line 43, where it is indexed with a string. A field entry sent as a string (`filters[user][name]=li`) raises at line 46 in `default.merge`, and for an association's fields at line 77, before any column check.
- Symbol keys are modelled by their names. `View::TYPES`, `options[:value]` and `options[:values]` are compared as strings, so the model does not capture that a string tag type such as `"text_field"` fails `TYPES.include?` with "Unknown tag.", or that a `"value"` string key is not found by `options[:value]`.
