/**
 * The field schema of a category (`field_config`): the closed set of field types,
 * the option bag each field carries, and the field definitions themselves.
 */
module FieldSchema {
  import opened Wrappers
  import opened Values

  /** The nine field types. */
  datatype FieldType = Text | Textarea | Boolean | Number | Date | Image | Select | Tags | Quantity

  /** The name a type has in stored schemas and in the forms' type selector. */
  function TypeName(t: FieldType): (name: string)
    ensures ParseFieldType(name) == Some(t)
  {
    match t
    case Text => "text"
    case Textarea => "textarea"
    case Boolean => "boolean"
    case Number => "number"
    case Date => "date"
    case Image => "image"
    case Select => "select"
    case Tags => "tags"
    case Quantity => "quantity"
  }

  /**
   * The type a stored type name denotes. Any other string (a schema written by
   * an older client, say) denotes no type and falls into the `default` branch
   * of every `switch` on the type.
   */
  function ParseFieldType(s: string): Option<FieldType> {
    if s == "text" then Some(Text)
    else if s == "textarea" then Some(Textarea)
    else if s == "boolean" then Some(Boolean)
    else if s == "number" then Some(Number)
    else if s == "date" then Some(Date)
    else if s == "image" then Some(Image)
    else if s == "select" then Some(Select)
    else if s == "tags" then Some(Tags)
    else if s == "quantity" then Some(Quantity)
    else None
  }

  /** Type names and types are in one-to-one correspondence. */
  lemma ParseFieldTypeInverse(s: string)
    ensures ParseFieldType(s).Some? ==> TypeName(ParseFieldType(s).value) == s
  {
  }

  /**
   * The options a field may carry. Every member is optional: `defaultValue` is
   * `Undefined` when absent, `choices` is the `options` list of a select field,
   * and an absent `multiple` behaves as `false` everywhere it is read.
   */
  datatype FieldOptions = FieldOptions(
    placeholder: Option<string>,
    defaultValue: Value,
    min: Option<int>,
    max: Option<int>,
    step: Option<int>,
    unit: Option<string>,
    choices: Option<seq<string>>,
    multiple: bool)

  /** A field without an `options` object. */
  const NoOptions := FieldOptions(None, Undefined, None, None, None, None, None, false)

  /**
   * One field definition. `kind` is the stored type name; the forms build it
   * from a free string, so it is kept as text and read through `ParseFieldType`.
   */
  datatype FieldConfig = FieldConfig(id: string, name: string, kind: string, required: bool, options: FieldOptions)

  /** The ids of a schema, in schema order. */
  function Ids(config: seq<FieldConfig>): (ids: seq<string>)
    ensures |ids| == |config|
    ensures forall i | 0 <= i < |config| :: ids[i] == config[i].id
  {
    seq(|config|, i requires 0 <= i < |config| => config[i].id)
  }

  /** No id occurs twice in the schema. */
  predicate UniqueIds(config: seq<FieldConfig>) {
    forall i, j | 0 <= i < j < |config| :: config[i].id != config[j].id
  }

  /** Dropping the last field keeps the ids distinct, and the last id is not among the others. */
  lemma UniqueIdsInit(config: seq<FieldConfig>)
    requires UniqueIds(config) && |config| > 0
    ensures var n := |config| - 1;
      UniqueIds(config[..n]) && config[n].id !in Ids(config[..n])
  {
    var n := |config| - 1;
    var init := config[..n];
    forall i, j | 0 <= i < j < |init| ensures init[i].id != init[j].id {
      assert init[i] == config[i] && init[j] == config[j];
    }
    forall j | 0 <= j < n ensures Ids(init)[j] != config[n].id {
      assert init[j] == config[j];
    }
  }

  /** The ids of a schema are those of all but its last field, then the last field's. */
  lemma IdsInit(config: seq<FieldConfig>)
    requires |config| > 0
    ensures var n := |config| - 1;
      Ids(config) == Ids(config[..n]) + [config[n].id]
  {
    var n := |config| - 1;
    assert forall j | 0 <= j < n :: config[..n][j] == config[j];
  }

  /** `quantity` fields show their unit only when it is a non-empty string. */
  predicate HasUnit(o: FieldOptions) {
    o.unit.Some? && o.unit.value != ""
  }
}
