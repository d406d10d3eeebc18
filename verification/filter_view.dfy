/**
 * `Filter::View`: the `filter` helper and the `filter_<type>` helpers it
 * dispatches to. Tags are kept abstract: each rendered tag is a record of its
 * kind, its name and the value (and checked state, or choices) it is given.
 */
module FilterView {
  import opened Wrappers
  import opened ParamPaths

  /** The members of `View::TYPES`. */
  datatype TagType = TextField | HiddenField | TextArea | Select | RadioButton | CheckBox

  /** The name of the symbol each tag type is written as. */
  function TagTypeName(t: TagType): string {
    match t
    case TextField => "text_field"
    case HiddenField => "hidden_field"
    case TextArea => "text_area"
    case Select => "select"
    case RadioButton => "radio_button"
    case CheckBox => "check_box"
  }

  /** `View::TYPES`, in its order. */
  const Types: seq<TagType> := [TextField, HiddenField, TextArea, Select, RadioButton, CheckBox]

  /**
   * The errors of the view helpers: the two `ArgumentError`s, and the
   * `NoMethodError` of `filter_select` when its options are nil.
   */
  datatype ViewError = UnknownTag | RadioValueMissing | OptionsMissing

  /** `TYPES.include?(type)`: the tag type of that name, or the "Unknown tag." error. */
  function Dispatch(name: string): (r: Result<TagType, ViewError>)
    ensures r.Ok? ==> r.value in Types && TagTypeName(r.value) == name
    ensures r.Err? ==> r.error == UnknownTag && forall t :: t in Types ==> TagTypeName(t) != name
  {
    if name == "text_field" then Ok(TextField)
    else if name == "hidden_field" then Ok(HiddenField)
    else if name == "text_area" then Ok(TextArea)
    else if name == "select" then Ok(Select)
    else if name == "radio_button" then Ok(RadioButton)
    else if name == "check_box" then Ok(CheckBox)
    else Err(UnknownTag)
  }

  /**
   * A value in the helpers' options hash or in the request: nil, a boolean, a
   * string, a symbol, an integer, or a list of choices. Request parameters
   * only ever hold nil, strings and lists; symbols and integers come from the
   * options a view passes, and like Ruby's `==` a symbol or an integer never
   * equals a string.
   */
  datatype OptionValue = NilValue | Flag(b: bool) | Text(s: string) | Sym(name: string) | Num(n: int) | List(items: seq<string>)

  /** Ruby's truth: everything except nil and false. */
  predicate Truthy(v: OptionValue) {
    v != NilValue && v != Flag(false)
  }

  /** `blank?`: nil, false, the empty string, the empty symbol and the empty list; never an integer. */
  predicate Blank(v: OptionValue) {
    v == NilValue || v == Flag(false) || v == Text("") || v == Sym("") || v == List([])
  }

  /** A hash, as its entries in enumeration order. */
  type Entries = seq<(string, OptionValue)>

  /** No key occurs twice, as in every Ruby hash. */
  predicate DistinctKeys(e: Entries) {
    forall i, j :: 0 <= i < j < |e| ==> e[i].0 != e[j].0
  }

  /** `hash[key]`: the value stored under `key`, nil when there is none. */
  function Lookup(e: Entries, key: string): (r: OptionValue)
    ensures (forall i :: 0 <= i < |e| ==> e[i].0 != key) ==> r == NilValue
    ensures DistinctKeys(e) ==> forall i :: 0 <= i < |e| && e[i].0 == key ==> r == e[i].1
  {
    if e == [] then NilValue
    else if e[0].0 == key then e[0].1
    else
      assert forall i :: 1 <= i < |e| ==> e[1..][i - 1] == e[i];
      Lookup(e[1..], key)
  }

  /** `hash.delete(key)`: the other entries, in their order. */
  function WithoutKey(e: Entries, key: string): (r: Entries)
    ensures |r| <= |e|
    ensures forall p :: p in r <==> p in e && p.0 != key
    ensures DistinctKeys(e) ==> DistinctKeys(r)
  {
    if e == [] then []
    else
      var rest := WithoutKey(e[1..], key);
      assert DistinctKeys(e) ==> forall p :: p in rest ==> p.0 != e[0].0 by {
        if DistinctKeys(e) {
          forall p | p in rest ensures p.0 != e[0].0 {
            var k :| 1 <= k < |e| && e[k] == p;
          }
        }
      }
      if e[0].0 == key then rest else [e[0]] + rest
  }

  /** An emitted tag, by the arguments of the `*_tag` helper that renders it (HTML options left out). */
  datatype Tag =
    | Input(kind: TagType, name: string, value: OptionValue)
    | Toggle(kind: TagType, name: string, value: OptionValue, checked: bool)
    | Menu(name: string, choices: OptionValue, selected: OptionValue)

  /** What a `filter_<type>` helper returns: a list of tags, or the radio button's single tag. */
  datatype Rendered = Tags(tags: seq<Tag>) | Single(tag: Tag)

  /** `[s]`: one bracketed segment of a field name. */
  function Bracket(s: string): string {
    "[" + s + "]"
  }

  /** `field_name`: `klass[field]`. */
  function FieldName(klass: string, field: string): string {
    klass + Bracket(field)
  }

  /** `option_basename` in `filter_options`: `filters[klass][field]`. */
  function OptionBasename(klass: string, field: string): string {
    "filters" + Bracket(klass) + Bracket(field)
  }

  /** The name of the hidden field that carries option `key`: `filters[klass][field][key]`. */
  function OptionFieldName(klass: string, field: string, key: string): string {
    OptionBasename(klass, field) + Bracket(key)
  }

  /** A bracketed plain segment in front of a list of segments is read as one more segment. */
  lemma BracketSegments(segment: string, rest: string, more: seq<string>)
    requires Plain(segment)
    requires Segments(rest) == Some(more)
    ensures Segments(Bracket(segment) + rest) == Some([segment] + more)
  {
    SegmentsCons(segment, rest);
  }

  /** A field's name is read back as the path `klass`, `field`: where `build_conditions` finds its value. */
  lemma FieldNameRoundTrip(klass: string, field: string)
    requires Plain(klass) && Plain(field)
    ensures ParamPath(FieldName(klass, field)) == Some([klass, field])
  {
    assert Bracket(field) + "" == Bracket(field);
    BracketSegments(field, "", []);
    assert [field] + [] == [field];
    ParamPathCons(klass, Bracket(field));
    assert [klass] + [field] == [klass, field];
  }

  /** One bracketed plain segment, read back. */
  lemma OneSegment(key: string)
    requires Plain(key)
    ensures Segments(Bracket(key)) == Some([key])
  {
    assert Bracket(key) + "" == Bracket(key);
    BracketSegments(key, "", []);
    assert [key] + [] == [key];
  }

  /** Two bracketed plain segments, read back. */
  lemma TwoSegments(field: string, key: string)
    requires Plain(field) && Plain(key)
    ensures Segments(Bracket(field) + Bracket(key)) == Some([field, key])
  {
    OneSegment(key);
    BracketSegments(field, Bracket(key), [key]);
    assert [field] + [key] == [field, key];
  }

  /** The three bracketed segments of an option's hidden field, read back. */
  lemma OptionSegments(klass: string, field: string, key: string)
    requires Plain(klass) && Plain(field) && Plain(key)
    ensures Segments(Bracket(klass) + (Bracket(field) + Bracket(key))) == Some([klass, field, key])
  {
    TwoSegments(field, key);
    BracketSegments(klass, Bracket(field) + Bracket(key), [field, key]);
    assert [klass] + [field, key] == [klass, field, key];
  }

  /** Concatenation regrouped to the right. */
  lemma Regroup(s1: string, s2: string, s3: string, s4: string)
    ensures s1 + s2 + s3 + s4 == s1 + (s2 + (s3 + s4))
  {
  }

  /** A plain head followed by three bracketed plain segments is read back as those four keys. */
  lemma FourKeyPath(head: string, a: string, b: string, c: string)
    requires Plain(head) && Plain(a) && Plain(b) && Plain(c)
    ensures ParamPath(head + Bracket(a) + Bracket(b) + Bracket(c)) == Some([head, a, b, c])
  {
    var rest := Bracket(a) + (Bracket(b) + Bracket(c));
    Regroup(head, Bracket(a), Bracket(b), Bracket(c));
    assert ParamPath(head + rest) == Some([head, a, b, c]) by {
      OptionSegments(a, b, c);
      ParamPathCons(head, rest);
      assert [head] + [a, b, c] == [head, a, b, c];
    }
  }

  /**
   * An option's hidden field is read back as the path `filters`, `klass`,
   * `field`, `key`: where `build_conditions` finds that option of the field.
   */
  lemma OptionFieldNameRoundTrip(klass: string, field: string, key: string)
    requires Plain(klass) && Plain(field) && Plain(key)
    ensures ParamPath(OptionFieldName(klass, field, key)) == Some(["filters", klass, field, key])
  {
    assert Plain("filters");
    FourKeyPath("filters", klass, field, key);
  }

  /** Distinct option keys give distinct hidden-field names. */
  lemma OptionFieldNamesDistinct(klass: string, field: string, k1: string, k2: string)
    requires k1 != k2
    ensures OptionFieldName(klass, field, k1) != OptionFieldName(klass, field, k2)
  {
    var p := OptionBasename(klass, field) + "[";
    var n1, n2 := OptionFieldName(klass, field, k1), OptionFieldName(klass, field, k2);
    assert n1 == p + k1 + "]";
    assert n2 == p + k2 + "]";
    if |k1| != |k2| {
      assert |n1| != |n2|;
    } else {
      assert n1[|p|..|p| + |k1|] == k1;
      assert n2[|p|..|p| + |k2|] == k2;
    }
  }

  /** The hidden fields `filter_options` renders for the given options, one per entry, in order. */
  function OptionTags(klass: string, field: string, e: Entries): seq<Tag> {
    seq(|e|, i requires 0 <= i < |e| => Input(HiddenField, OptionFieldName(klass, field, e[i].0), e[i].1))
  }

  /**
   * The i-th hidden field of `filter_options` is read back as option i of
   * `filters[klass][field]` and carries that option's value.
   */
  lemma OptionTagsReadBack(klass: string, field: string, e: Entries, i: nat)
    requires Plain(klass) && Plain(field)
    requires i < |e| && Plain(e[i].0)
    ensures |OptionTags(klass, field, e)| == |e|
    ensures CarriesOption(OptionTags(klass, field, e)[i], klass, field, e[i])
  {
    OptionFieldNameRoundTrip(klass, field, e[i].0);
  }

  /** `options.keys.inject([]) { ... hidden_field_tag(...) }`. */
  method HiddenFields(klass: string, field: string, e: Entries) returns (nodes: seq<Tag>)
    ensures nodes == OptionTags(klass, field, e)
  {
    nodes := [];
    for i := 0 to |e|
      invariant |nodes| == i
      invariant forall k :: 0 <= k < i ==> nodes[k] == Input(HiddenField, OptionFieldName(klass, field, e[k].0), e[k].1)
    {
      var (key, value) := e[i];
      nodes := nodes + [Input(HiddenField, OptionFieldName(klass, field, key), value)];
    }
  }

  /** The guard of `filter_radio_button`: `options[:value]`, which must be set. */
  function RadioValue(options: Entries): (r: Result<OptionValue, ViewError>)
    requires DistinctKeys(options)
    ensures r.Ok? ==> Truthy(r.value) && ("value", r.value) in options
    ensures r.Err? ==> r.error == RadioValueMissing &&
                       forall i :: 0 <= i < |options| && options[i].0 == "value" ==> !Truthy(options[i].1)
  {
    var v := Lookup(options, "value");
    if Truthy(v) then Ok(v) else Err(RadioValueMissing)
  }

  /** `options[:values] || []`: the choices of a select tag. */
  function Choices(options: Entries): OptionValue {
    var v := Lookup(options, "values");
    if Truthy(v) then v else List([])
  }

  /** The first tag of `filter_<t>` for every type except the radio button. */
  function MainTag(t: TagType, klass: string, field: string, options: Entries, current: OptionValue): Tag {
    var name := FieldName(klass, field);
    match t
    case CheckBox => Toggle(CheckBox, name, current, !Blank(current))
    case Select => Menu(name, Choices(options), current)
    case _ => Input(t, name, current)
  }

  /**
   * What `filter_<t>` returns for a field whose request value is `current`:
   * the radio button's single tag, or the error when it has no value; for
   * every other type the field's tag followed by one hidden field per
   * option except `:values`.
   */
  function Render(t: TagType, klass: string, field: string, options: Entries, current: OptionValue): Result<Rendered, ViewError>
    requires DistinctKeys(options)
  {
    if t == RadioButton then
      match RadioValue(options)
      case Err(e) => Err(e)
      case Ok(v) => Ok(Single(Toggle(RadioButton, FieldName(klass, field), v, current == v)))
    else
      Ok(Tags([MainTag(t, klass, field, options, current)] + OptionTags(klass, field, WithoutKey(options, "values"))))
  }

  /**
   * What `filter_<t>` returns when it is given the options `given`, nil being
   * None: the five generated helpers read nil options as `{}`, while
   * `filter_select` indexes them and fails.
   */
  function RenderGiven(t: TagType, klass: string, field: string, given: Option<Entries>, current: OptionValue): Result<Rendered, ViewError>
    requires given.Some? ==> DistinctKeys(given.value)
  {
    match given
    case Some(options) => Render(t, klass, field, options, current)
    case None => if t == Select then Err(OptionsMissing) else Render(t, klass, field, [], current)
  }

  /**
   * With nil options a select fails, a radio button has no value and fails,
   * and every other type renders its own tag and no hidden field.
   */
  lemma NilOptionsRendering(t: TagType, klass: string, field: string, current: OptionValue)
    ensures RenderGiven(t, klass, field, None, current) ==
              if t == Select then Err(OptionsMissing)
              else if t == RadioButton then Err(RadioValueMissing)
              else Ok(Tags([MainTag(t, klass, field, [], current)]))
  {
    assert OptionTags(klass, field, WithoutKey([], "values")) == [];
    assert [MainTag(t, klass, field, [], current)] + [] == [MainTag(t, klass, field, [], current)];
  }

  /** A radio button fails exactly when its options give it no value, and no other type fails. */
  lemma RenderFails(t: TagType, klass: string, field: string, options: Entries, current: OptionValue)
    requires DistinctKeys(options)
    ensures Render(t, klass, field, options, current).Err? <==>
              t == RadioButton && forall i :: 0 <= i < |options| && options[i].0 == "value" ==> !Truthy(options[i].1)
  {
    if t == RadioButton && RadioValue(options).Ok? {
      var v := RadioValue(options).value;
      var i :| 0 <= i < |options| && options[i] == ("value", v);
    }
  }

  /** `tag` is a hidden field that is read back as option `p.0` of `filters[klass][field]`, carrying `p.1`. */
  predicate CarriesOption(tag: Tag, klass: string, field: string, p: (string, OptionValue)) {
    tag.Input? && tag.kind == HiddenField &&
    ParamPath(tag.name) == Some(["filters", klass, field, p.0]) && tag.value == p.1
  }

  /**
   * Every tag after the first of a non-radio field is a hidden field read back
   * as one option of `filters[klass][field]`, with its value, for an option
   * key other than `values`.
   */
  lemma RenderedOptionsRoundTrip(t: TagType, klass: string, field: string, options: Entries, current: OptionValue, k: nat)
    requires DistinctKeys(options)
    requires t != RadioButton
    requires Plain(klass) && Plain(field)
    requires forall p :: p in options ==> Plain(p.0)
    requires 1 <= k < |Render(t, klass, field, options, current).value.tags|
    ensures exists p :: p in options && p.0 != "values" &&
              CarriesOption(Render(t, klass, field, options, current).value.tags[k], klass, field, p)
  {
    var rest := WithoutKey(options, "values");
    var tags := Render(t, klass, field, options, current).value.tags;
    var p := rest[k - 1];
    assert tags[k] == OptionTags(klass, field, rest)[k - 1];
    assert p in rest;
    OptionFieldNameRoundTrip(klass, field, p.0);
    assert CarriesOption(tags[k], klass, field, p);
  }

  /** Each option other than `values` is carried by one of the hidden fields a non-radio field renders. */
  lemma RenderedOptionsComplete(t: TagType, klass: string, field: string, options: Entries, current: OptionValue, p: (string, OptionValue))
    requires DistinctKeys(options)
    requires t != RadioButton
    requires Plain(klass) && Plain(field)
    requires forall q :: q in options ==> Plain(q.0)
    requires p in options && p.0 != "values"
    ensures exists k :: 1 <= k < |Render(t, klass, field, options, current).value.tags| &&
              CarriesOption(Render(t, klass, field, options, current).value.tags[k], klass, field, p)
  {
    var rest := WithoutKey(options, "values");
    var hidden := OptionTags(klass, field, rest);
    var tags := Render(t, klass, field, options, current).value.tags;
    assert tags == [MainTag(t, klass, field, options, current)] + hidden;
    assert p in rest;
    var i :| 0 <= i < |rest| && rest[i] == p;
    assert tags[i + 1] == hidden[i];
    OptionFieldNameRoundTrip(klass, field, p.0);
    assert CarriesOption(tags[i + 1], klass, field, p);
  }

  /** The helpers' `options` hash, which `filter_options` changes in place. */
  class OptionsHash {
    var entries: Entries

    ghost predicate Valid()
      reads this
    {
      DistinctKeys(entries)
    }

    constructor (entries: Entries)
      requires DistinctKeys(entries)
      ensures Valid() && this.entries == entries
    {
      this.entries := entries;
    }
  }

  /** The options a helper was given: None for nil. */
  function OptionsOf(options: OptionsHash?): Option<Entries>
    reads options
  {
    if options == null then None else Some(options.entries)
  }

  /** `filter_options`: drops `:values` from the options and renders one hidden field per remaining option. */
  method FilterOptions(klass: string, field: string, options: OptionsHash?) returns (nodes: seq<Tag>)
    requires options != null ==> options.Valid()
    modifies options
    ensures options == null ==> nodes == []
    ensures options != null ==> options.Valid() && options.entries == WithoutKey(old(options.entries), "values")
    ensures options != null ==> nodes == OptionTags(klass, field, options.entries)
  {
    if options == null {
      return [];
    }
    options.entries := WithoutKey(options.entries, "values");
    nodes := HiddenFields(klass, field, options.entries);
  }

  /** `filter_<t>(klass, field, options)` for a field whose request value is `current`. */
  method RenderField(t: TagType, klass: string, field: string, given: OptionsHash?, current: OptionValue)
    returns (r: Result<Rendered, ViewError>)
    requires given != null ==> given.Valid()
    modifies given
    ensures given != null ==> given.Valid()
    ensures r == RenderGiven(t, klass, field, old(OptionsOf(given)), current)
    ensures given != null ==>
              given.entries == if t == RadioButton then old(given.entries) else WithoutKey(old(given.entries), "values")
  {
    var name := FieldName(klass, field);
    var options: OptionsHash;
    if given != null {
      options := given;
    } else if t == Select {
      return Err(OptionsMissing);
    } else {
      options := new OptionsHash([]);
    }
    if t == CheckBox {
      var hidden := FilterOptions(klass, field, options);
      r := Ok(Tags([Toggle(CheckBox, name, current, !Blank(current))] + hidden));
    } else if t == RadioButton {
      var originalValue := Lookup(options.entries, "value");
      if !Truthy(originalValue) {
        return Err(RadioValueMissing);
      }
      r := Ok(Single(Toggle(RadioButton, name, originalValue, current == originalValue)));
    } else if t == Select {
      var choices := Choices(options.entries);
      var hidden := FilterOptions(klass, field, options);
      r := Ok(Tags([Menu(name, choices, current)] + hidden));
    } else {
      var hidden := FilterOptions(klass, field, options);
      r := Ok(Tags([Input(t, name, current)] + hidden));
    }
  }

  /** `filter(type, klass, field, options)`: dispatch on the tag type's name. */
  method Filter(typeName: string, klass: string, field: string, options: OptionsHash?, current: OptionValue)
    returns (r: Result<Rendered, ViewError>)
    requires options != null ==> options.Valid()
    modifies options
    ensures options != null ==> options.Valid()
    ensures Dispatch(typeName).Err? ==> r == Err(UnknownTag) && (options != null ==> options.entries == old(options.entries))
    ensures Dispatch(typeName).Ok? ==> r == RenderGiven(Dispatch(typeName).value, klass, field, old(OptionsOf(options)), current)
    ensures Dispatch(typeName).Ok? && options != null ==>
              options.entries == if Dispatch(typeName).value == RadioButton then old(options.entries)
                                 else WithoutKey(old(options.entries), "values")
  {
    var t := Dispatch(typeName);
    if t.Err? {
      return Err(UnknownTag);
    }
    r := RenderField(t.value, klass, field, options, current);
  }
}
