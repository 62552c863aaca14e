/**
 * The item form: the field data it builds from a category's schema, the
 * per-type coercions its inputs apply before storing a value, and the dialog
 * state that `handleFieldChange` and the submit handler update.
 */
module ItemForm {
  import opened Wrappers
  import opened Strings
  import opened Records
  import opened Values
  import opened FieldSchema
  import Validation
  import Lists

  // ---- initial field data ----

  /** `field.options?.defaultValue || ''`. */
  function InitialValue(f: FieldConfig): (v: Value)
    ensures Truthy(f.options.defaultValue) ==> v == f.options.defaultValue
    ensures !Truthy(f.options.defaultValue) ==> v == Str("")
  {
    Or(f.options.defaultValue, Str(""))
  }

  /** The field data after assigning every field its initial value, in schema order. */
  function Defaults(config: seq<FieldConfig>): (d: Record<Value>)
    ensures |d| <= |config|
    decreases |config|
  {
    if |config| == 0 then []
    else Set(Defaults(config[..|config| - 1]), config[|config| - 1].id, InitialValue(config[|config| - 1]))
  }

  /** The `forEach` that fills `initialFieldData`. */
  method InitialFieldData(config: seq<FieldConfig>) returns (data: Record<Value>)
    ensures data == Defaults(config)
  {
    data := [];
    for i := 0 to |config|
      invariant data == Defaults(config[..i])
    {
      assert config[..i + 1][..i] == config[..i];
      var field := config[i];
      data := Set(data, field.id, Or(field.options.defaultValue, Str("")));
    }
    assert config[..|config|] == config;
  }

  /** The initial field data has exactly the schema's ids as keys, in schema order when they are distinct. */
  lemma {:induction false} DefaultsKeys(config: seq<FieldConfig>)
    requires UniqueIds(config)
    ensures Keys(Defaults(config)) == Ids(config)
    decreases |config|
  {
    if |config| > 0 {
      var n := |config| - 1;
      var init := config[..n];
      UniqueIdsInit(config);
      DefaultsKeys(init);
      SetKeys(Defaults(init), config[n].id, InitialValue(config[n]));
      IdsInit(config);
    }
  }

  /** With distinct ids, every field starts at its truthy default, or `''`. */
  lemma {:induction false} DefaultsGet(config: seq<FieldConfig>)
    requires UniqueIds(config)
    ensures forall i | 0 <= i < |config| :: Get(Defaults(config), config[i].id) == Some(InitialValue(config[i]))
    decreases |config|
  {
    if |config| > 0 {
      var n := |config| - 1;
      var init := config[..n];
      UniqueIdsInit(config);
      DefaultsGet(init);
      forall i | 0 <= i < |config| ensures Get(Defaults(config), config[i].id) == Some(InitialValue(config[i])) {
        DefaultsLastGet(config, config[i].id);
        if i < n {
          assert init[i] == config[i];
        }
      }
    }
  }

  /** The last field of the schema decides its own id's entry; other entries are those of the shorter schema. */
  lemma DefaultsLastGet(config: seq<FieldConfig>, k: string)
    requires |config| > 0
    ensures var n := |config| - 1;
      Get(Defaults(config), k) == if k == config[n].id then Some(InitialValue(config[n])) else Get(Defaults(config[..n]), k)
  {
    var n := |config| - 1;
    SetGet(Defaults(config[..n]), config[n].id, InitialValue(config[n]));
  }

  // ---- the per-type input coercions ----

  /** `fieldData[field.id] || ''`: the value every input of the form reads. */
  function ShownValue(data: Record<Value>, id: string): (v: Value)
    ensures Truthy(v) || v == Str("")
    ensures Truthy(Lookup(data, id)) ==> v == Lookup(data, id)
  {
    Or(Lookup(data, id), Str(""))
  }

  /** `parseFloat(text) || 0`: the value a number or quantity input stores. `NaN` and `0` both become `0`. */
  function NumberInput(text: string): (v: Value)
    ensures v.Num?
    ensures ParseLeadingInt(text).None? ==> v == Num(0)
    ensures ParseLeadingInt(text).Some? ==> v == Num(ParseLeadingInt(text).value)
  {
    Or(ParseFloat(text), Num(0))
  }

  /** The text of a number typed back into a number input gives that number. */
  lemma NumberInputOfText(n: int)
    ensures NumberInput(IntToString(n)) == Num(n)
  {
    ParseLeadingIntOfIntToString(n);
  }

  /** Whatever is typed, the stored value passes the validator's "must be a number" test. */
  lemma NumberInputIsANumber(text: string)
    ensures ToNumber(NumberInput(text)).Some?
  {
  }

  /** `checked={value || false}`: a checkbox is ticked exactly for a truthy value. */
  function Checked(value: Value): (c: bool)
    ensures c <==> Truthy(value)
  {
    var shown := Or(value, Bool(false));
    shown != Bool(false)
  }

  /** `e.target.checked`: a boolean field always stores a genuine boolean, which the boolean rule accepts. */
  lemma CheckboxValueAccepted(f: FieldConfig, checked: bool, parseDate: Validation.DateParser)
    requires ParseFieldType(f.kind) == Some(Boolean)
    ensures Validation.FieldError(f, Bool(checked), parseDate).None?
  {
  }

  /** `Array.isArray(value) ? value.join(', ') : value`: the text a tags input shows. */
  function TagsText(value: Value): (t: string)
    ensures value.Arr? ==> t == Join(value.items, TagSeparator)
    ensures !value.Arr? ==> t == ToStr(value)
  {
    match value
    case Arr(xs) => Join(xs, TagSeparator)
    case _ => ToStr(value)
  }

  predicate NonEmpty(s: string) {
    s != ""
  }

  /** `text.split(', ').filter(Boolean)`: the value a tags input stores. */
  function TagsInput(text: string): (v: Value)
    ensures v.Arr?
    ensures forall i | 0 <= i < |v.items| :: v.items[i] != ""
    ensures forall i | 0 <= i < |v.items| :: v.items[i] in Split(text, TagSeparator)
    ensures forall p | p in Split(text, TagSeparator) && p != "" :: p in v.items
    ensures multiset(v.items) <= multiset(Split(text, TagSeparator))
    ensures forall p | p in Split(text, TagSeparator) :: multiset(v.items)[p] == if p != "" then multiset(Split(text, TagSeparator))[p] else 0
  {
    Lists.FilterCounts(Split(text, TagSeparator), NonEmpty);
    Arr(Lists.Filter(Split(text, TagSeparator), NonEmpty))
  }

  /** The stored tag list keeps the non-empty pieces in the order they were typed. */
  lemma TagsInputInOrder(text: string)
    ensures Lists.IsSubsequence(TagsInput(text).items, Split(text, TagSeparator))
  {
    Lists.FilterIsSubsequence(Split(text, TagSeparator), NonEmpty);
  }

  /** Text without the exact separator `", "` is one tag: `"a,b"` stays whole. */
  lemma TagsInputWithoutSeparator(text: string)
    requires text != "" && !Contains(text, TagSeparator)
    ensures TagsInput(text) == Arr([text])
  {
    SplitWithoutSeparator(text);
  }

  /** Showing a tag list and reading it back gives the same list, when no tag is empty or holds `", "`. */
  lemma TagsRoundTrip(xs: seq<string>)
    requires forall i | 0 <= i < |xs| :: xs[i] != "" && !Contains(xs[i], TagSeparator)
    ensures TagsInput(TagsText(Arr(xs))) == Arr(xs)
  {
    if |xs| > 0 {
      SplitJoin(xs);
    }
  }

  /** A stored tag list always passes the tags rule. */
  lemma TagsInputAccepted(f: FieldConfig, text: string, parseDate: Validation.DateParser)
    requires ParseFieldType(f.kind) == Some(Tags)
    ensures Validation.FieldError(f, TagsInput(text), parseDate).None?
  {
  }

  /** `value || (field.options?.multiple ? [] : '')`: the value handed to the image field. */
  function ImageFieldValue(value: Value, multiple: bool): (v: Value)
    ensures Truthy(value) ==> v == value
    ensures !Truthy(value) ==> v == if multiple then Arr([]) else Str("")
  {
    Or(value, if multiple then Arr([]) else Str(""))
  }

  // ---- the dialog state ----

  /** What the form posts to the items API. */
  datatype ItemPayload = ItemPayload(categoryId: string, name: string, description: string, fieldData: Record<Value>)

  class ItemFormState {
    const categoryId: string
    var open: bool
    var name: string
    var description: string
    var fieldData: Record<Value>

    constructor(categoryId: string)
      ensures this.categoryId == categoryId
      ensures !open && name == "" && description == "" && fieldData == []
    {
      this.categoryId := categoryId;
      open := false;
      name := "";
      description := "";
      fieldData := [];
    }

    /** The category fetched after the dialog opens: every field starts at its initial value. */
    method CategoryLoaded(config: seq<FieldConfig>)
      modifies this
      ensures fieldData == Defaults(config)
      ensures open == old(open) && name == old(name) && description == old(description)
    {
      fieldData := InitialFieldData(config);
    }

    /** `handleFieldChange(fieldId, value)`: only the entry under `fieldId` changes. */
    method HandleFieldChange(fieldId: string, value: Value)
      modifies this
      ensures fieldData == Set(old(fieldData), fieldId, value)
      ensures Get(fieldData, fieldId) == Some(value)
      ensures forall k | k != fieldId :: Get(fieldData, k) == Get(old(fieldData), k)
      ensures open == old(open) && name == old(name) && description == old(description)
    {
      SetGet(fieldData, fieldId, value);
      fieldData := Set(fieldData, fieldId, value);
    }

    /**
     * `handleSubmit`: the payload carries the form as it stands; when the
     * create call succeeds, the form is reset and closed, otherwise nothing changes.
     */
    method Submit(succeeded: bool) returns (payload: ItemPayload)
      modifies this
      ensures payload == ItemPayload(categoryId, old(name), old(description), old(fieldData))
      ensures succeeded ==> !open && name == "" && description == "" && fieldData == []
      ensures !succeeded ==> open == old(open) && name == old(name) && description == old(description) && fieldData == old(fieldData)
    {
      payload := ItemPayload(categoryId, name, description, fieldData);
      if succeeded {
        name, description := "", "";
        fieldData := [];
        open := false;
      }
    }
  }
}
