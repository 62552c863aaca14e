/**
 * The item cards of a category page: the first image of an item and the rows
 * that list its field data under the schema's field names.
 */
module CategoryPage {
  import opened Wrappers
  import opened Records
  import opened Values
  import opened FieldSchema
  import opened Entities
  import Lists

  /** The image a card shows on top: the first of a non-empty `images` list. */
  function FirstImage(item: Item): (url: Option<string>)
    ensures url.Some? <==> item.images.Some? && |item.images.value| > 0
    ensures url.Some? ==> url.value == item.images.value[0]
  {
    match item.images
    case Some(urls) => if |urls| > 0 then Some(urls[0]) else None
    case None => None
  }

  /** The index of the first field from position `k` on whose id is `id`. */
  function FirstIndex(config: seq<FieldConfig>, id: string, k: nat): (r: Option<nat>)
    requires k <= |config|
    ensures r.Some? ==> k <= r.value < |config| && config[r.value].id == id
    ensures r.Some? ==> forall j | k <= j < r.value :: config[j].id != id
    ensures r.None? ==> forall j | k <= j < |config| :: config[j].id != id
    decreases |config| - k
  {
    if k == |config| then None
    else if config[k].id == id then Some(k)
    else FirstIndex(config, id, k + 1)
  }

  /** `config.find(f => f.id === id)`: the first field with that id. */
  function FindField(config: seq<FieldConfig>, id: string): (f: Option<FieldConfig>)
    ensures f.None? <==> id !in Ids(config)
    ensures f.Some? ==> f.value in config && f.value.id == id
    ensures f.Some? ==> exists i | 0 <= i < |config| :: config[i] == f.value && forall j | 0 <= j < i :: config[j].id != id
  {
    match FirstIndex(config, id, 0)
    case None => None
    case Some(i) => Some(config[i])
  }

  /** One rendered row: the field's name and the text shown for the value. */
  datatype FieldRow = FieldRow(fieldId: string, name: string, value: Value, text: string)

  /** `typeof value === 'boolean' ? (value ? 'Yes' : 'No') : String(value)`. */
  function RowText(value: Value): string {
    if value.Bool? then (if value.b then "Yes" else "No") else ToStr(value)
  }

  /** The row of one `field_data` entry, or none when its id has no field or its value is falsy. */
  function EntryRow(entry: (string, Value), config: seq<FieldConfig>): Option<FieldRow> {
    match FindField(config, entry.0)
    case None => None
    case Some(f) =>
      if !Truthy(entry.1) then None
      else Some(FieldRow(entry.0, f.name, entry.1, RowText(entry.1)))
  }

  /**
   * `Object.entries(item.field_data).map(...)` without the `null`s: one row per
   * entry whose id is in the schema and whose value is truthy, in key order.
   */
  function FieldRows(fieldData: Record<Value>, config: seq<FieldConfig>): (rows: seq<FieldRow>)
    ensures forall i | 0 <= i < |rows| ::
      && (rows[i].fieldId, rows[i].value) in fieldData
      && rows[i].fieldId in Ids(config)
      && Truthy(rows[i].value)
    ensures forall i | 0 <= i < |rows| ::
      FindField(config, rows[i].fieldId).Some? && rows[i].name == FindField(config, rows[i].fieldId).value.name
    ensures forall i | 0 <= i < |rows| :: rows[i].value.Bool? ==> rows[i].text == "Yes"
    ensures forall i | 0 <= i < |rows| :: !rows[i].value.Bool? ==> rows[i].text == ToStr(rows[i].value)
    decreases |fieldData|
  {
    if |fieldData| == 0 then []
    else
      var first := match EntryRow(fieldData[0], config) case None => [] case Some(r) => [r];
      first + FieldRows(fieldData[1..], config)
  }

  function RowEntry(r: FieldRow): (string, Value) {
    (r.fieldId, r.value)
  }

  /** The rows follow the key order of the field data, not the order of the schema. */
  lemma {:induction false} FieldRowsInKeyOrder(fieldData: Record<Value>, config: seq<FieldConfig>)
    ensures Lists.IsSubsequence(Lists.Map(FieldRows(fieldData, config), RowEntry), fieldData)
    decreases |fieldData|
  {
    if |fieldData| > 0 {
      var rest := FieldRows(fieldData[1..], config);
      FieldRowsInKeyOrder(fieldData[1..], config);
      var restEntries := Lists.Map(rest, RowEntry);
      match EntryRow(fieldData[0], config)
      case None =>
        assert FieldRows(fieldData, config) == rest;
        Lists.SubsequenceOfTail(restEntries, fieldData);
      case Some(r) =>
        assert FieldRows(fieldData, config) == [r] + rest;
        Lists.MapCons(r, rest, RowEntry);
    }
  }

  /** Every entry whose id is in the schema and whose value is truthy gets a row. */
  lemma {:induction false} FieldRowsComplete(fieldData: Record<Value>, config: seq<FieldConfig>, j: int)
    requires 0 <= j < |fieldData| && fieldData[j].0 in Ids(config) && Truthy(fieldData[j].1)
    ensures exists i | 0 <= i < |FieldRows(fieldData, config)| ::
      RowEntry(FieldRows(fieldData, config)[i]) == fieldData[j]
    decreases |fieldData|
  {
    var first := match EntryRow(fieldData[0], config) case None => [] case Some(r) => [r];
    var rest := FieldRows(fieldData[1..], config);
    assert FieldRows(fieldData, config) == first + rest;
    if j == 0 {
      assert RowEntry((first + rest)[0]) == fieldData[0];
    } else {
      FieldRowsComplete(fieldData[1..], config, j - 1);
      assert fieldData[1..][j - 1] == fieldData[j];
      Lists.HitInSuffix(first, rest, RowEntry, fieldData[j]);
    }
  }

  /** A boolean entry either shows "Yes" or no row at all: the "No" text is never shown for a boolean. */
  lemma NoRowForFalse(fieldData: Record<Value>, config: seq<FieldConfig>, i: int)
    requires 0 <= i < |FieldRows(fieldData, config)| && FieldRows(fieldData, config)[i].value.Bool?
    ensures FieldRows(fieldData, config)[i].value == Bool(true)
  {
  }
}
