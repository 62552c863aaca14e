/**
 * Editing a category's schema in the create and edit dialogs: the draft field,
 * the id a new field receives, and the field lists after `addField` and
 * `removeField`.
 */
module SchemaEditing {
  import opened Wrappers
  import opened Strings
  import opened FieldSchema
  import Validation
  import Lists

  /** The `newField` draft: a name, a type name and the required flag. */
  datatype Draft = Draft(name: string, kind: string, required: bool)

  /** `{ name: '', type: 'text', required: false }`. */
  const DefaultDraft := Draft("", "text", false)

  /** The type names the type selector offers, in its order. */
  const TypeChoices: seq<string> := ["text", "textarea", "number", "boolean", "date", "image", "select", "tags", "quantity"]

  /** Every choice of the selector names one of the nine types, and every type is offered. */
  lemma TypeChoicesAreTypes()
    ensures forall i | 0 <= i < |TypeChoices| :: ParseFieldType(TypeChoices[i]).Some?
    ensures forall t: FieldType :: TypeName(t) in TypeChoices
  {
    forall t: FieldType ensures TypeName(t) in TypeChoices {
      match t
      case Text => assert TypeChoices[0] == "text";
      case Textarea => assert TypeChoices[1] == "textarea";
      case Number => assert TypeChoices[2] == "number";
      case Boolean => assert TypeChoices[3] == "boolean";
      case Date => assert TypeChoices[4] == "date";
      case Image => assert TypeChoices[5] == "image";
      case Select => assert TypeChoices[6] == "select";
      case Tags => assert TypeChoices[7] == "tags";
      case Quantity => assert TypeChoices[8] == "quantity";
    }
  }

  /** `s.substr(start, length)` for a start within the string. */
  function Substr(s: string, start: nat, length: nat): (r: string)
    ensures |r| <= length
    ensures start <= |s| ==> r <= s[start..]
  {
    if start > |s| then "" else Lists.Take(s[start..], length)
  }

  /**
   * `field_${Date.now()}_${Math.random().toString(36).substr(2, 9)}`: `now` is
   * the clock reading and `randomText` the base-36 text of the random number.
   */
  function NewFieldId(now: nat, randomText: string): (id: string)
    ensures StartsWith(id, "field_")
    ensures |id| > |"field_"|
  {
    "field_" + IntToString(now) + "_" + Substr(randomText, 2, 9)
  }

  /** `newField.name.trim()` is truthy: the name holds something other than whitespace. */
  predicate HasName(d: Draft) {
    Trim(d.name) != ""
  }

  /** `{ ...newField, id }`: the stored name is the raw draft name, untrimmed. */
  function DraftField(d: Draft, id: string): FieldConfig {
    FieldConfig(id, d.name, d.kind, d.required, NoOptions)
  }

  /** The field list after `addField`: unchanged for a blank name, else the new field appended. */
  function FieldsAfterAdd(fields: seq<FieldConfig>, d: Draft, id: string): (r: seq<FieldConfig>)
    ensures !HasName(d) ==> r == fields
    ensures HasName(d) ==> |r| == |fields| + 1 && r[..|fields|] == fields
    ensures HasName(d) ==>
      && r[|fields|].id == id && r[|fields|].name == d.name
      && r[|fields|].kind == d.kind && r[|fields|].required == d.required
  {
    if HasName(d) then fields + [DraftField(d, id)] else fields
  }

  /** The draft after `addField`: back to the default after an addition, as it was otherwise. */
  function DraftAfterAdd(d: Draft): (d': Draft)
    ensures HasName(d) ==> d' == DefaultDraft
    ensures !HasName(d) ==> d' == d
  {
    if HasName(d) then DefaultDraft else d
  }

  /** `fields.filter((_, i) => i !== index)`. */
  function FieldsAfterRemove(fields: seq<FieldConfig>, index: int): (r: seq<FieldConfig>)
    ensures 0 <= index < |fields| ==>
      && |r| == |fields| - 1
      && (forall j | 0 <= j < index :: r[j] == fields[j])
      && (forall j | index <= j < |r| :: r[j] == fields[j + 1])
    ensures !(0 <= index < |fields|) ==> r == fields
  {
    Lists.RemoveAt(fields, index)
  }

  /** The default draft has no name, so adding it right away changes nothing. */
  lemma DefaultDraftAddsNothing(fields: seq<FieldConfig>, id: string)
    ensures FieldsAfterAdd(fields, DefaultDraft, id) == fields
  {
    assert IsBlank("");
  }

  /** A name of spaces only is blank: `"   "` adds no field. */
  lemma SpacesAreNoName(fields: seq<FieldConfig>, id: string, kind: string, required: bool)
    ensures FieldsAfterAdd(fields, Draft("   ", kind, required), id) == fields
  {
    assert IsBlank("   ") by {
      forall i | 0 <= i < 3 ensures IsSpace("   "[i]) {}
    }
  }

  /** `trim` also removes Unicode spaces: a name of one no-break space adds no field. */
  lemma NoBreakSpaceIsNoName(fields: seq<FieldConfig>, id: string, kind: string, required: bool)
    ensures FieldsAfterAdd(fields, Draft([0xA0 as char], kind, required), id) == fields
  {
    assert IsSpace([0xA0 as char][0]);
  }

  /** Adding with an id not yet in the list keeps the ids distinct, and keeps every id already there. */
  lemma AddKeepsIds(fields: seq<FieldConfig>, d: Draft, id: string)
    requires UniqueIds(fields) && id !in Ids(fields)
    ensures UniqueIds(FieldsAfterAdd(fields, d, id))
    ensures Ids(FieldsAfterAdd(fields, d, id)) == if HasName(d) then Ids(fields) + [id] else Ids(fields)
  {
    var r := FieldsAfterAdd(fields, d, id);
    if HasName(d) {
      forall i, j | 0 <= i < j < |r| ensures r[i].id != r[j].id {
        if j == |fields| {
          assert Ids(fields)[i] == fields[i].id;
        } else {
          assert r[i] == fields[i] && r[j] == fields[j];
        }
      }
    }
  }

  /** Removing keeps the ids distinct, and the ids that remain are the others, in order. */
  lemma RemoveKeepsIds(fields: seq<FieldConfig>, index: int)
    requires UniqueIds(fields)
    ensures UniqueIds(FieldsAfterRemove(fields, index))
    ensures Ids(FieldsAfterRemove(fields, index)) == Lists.RemoveAt(Ids(fields), index)
  {
    var r := FieldsAfterRemove(fields, index);
    if 0 <= index < |fields| {
      forall i, j | 0 <= i < j < |r| ensures r[i].id != r[j].id {
        var i' := if i < index then i else i + 1;
        var j' := if j < index then j else j + 1;
        assert r[i] == fields[i'] && r[j] == fields[j'];
      }
    }
  }

  /** A field added from the selector has a name and a known type, so the server's schema check accepts it. */
  lemma AddedFieldAccepted(fields: seq<FieldConfig>, d: Draft, id: string)
    requires HasName(d) && d.kind in TypeChoices
    ensures Validation.FieldConfigAccepted(FieldsAfterAdd(fields, d, id)[|fields|])
  {
    TypeChoicesAreTypes();
    assert d.name != "" by {
      assert IsBlank("");
    }
  }

  /** What the create and update calls send. */
  datatype CategoryPayload = CategoryPayload(name: string, description: string, color: string, fieldConfig: seq<FieldConfig>)

  /** The colour a form starts with. */
  const DefaultColor: string := "#3B82F6"

  /** The starting colour matches the server's colour pattern. */
  lemma DefaultColorAccepted()
    ensures Validation.IsHexColor(DefaultColor)
  {
  }
}
