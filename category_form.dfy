/**
 * The "New Category" dialog: the form fields, the field list being built and
 * the draft field, as `addField`, `removeField` and the submit handler change them.
 */
module CategoryForm {
  import opened FieldSchema
  import opened SchemaEditing
  import Strings
  import Lists

  class CategoryFormState {
    var open: bool
    var name: string
    var description: string
    var color: string
    var fields: seq<FieldConfig>
    var draft: Draft

    /** The dialog as first rendered. */
    predicate IsInitial()
      reads this
    {
      name == "" && description == "" && color == DefaultColor && fields == [] && draft == DefaultDraft
    }

    constructor()
      ensures IsInitial() && !open
    {
      open := false;
      name, description, color := "", "", DefaultColor;
      fields := [];
      draft := DefaultDraft;
    }

    /** `setNewField(...)` from the draft inputs. */
    method EditDraft(d: Draft)
      modifies this
      ensures draft == d
      ensures open == old(open) && name == old(name) && description == old(description)
      ensures color == old(color) && fields == old(fields)
    {
      draft := d;
    }

    /**
     * `addField`: with a non-blank draft name, a field with a fresh id
     * (`now`, `randomText`: the clock and the random text) is appended and the
     * draft resets; a blank name changes nothing.
     */
    method AddField(now: nat, randomText: string)
      modifies this
      ensures fields == FieldsAfterAdd(old(fields), old(draft), NewFieldId(now, randomText))
      ensures draft == DraftAfterAdd(old(draft))
      ensures open == old(open) && name == old(name) && description == old(description) && color == old(color)
    {
      fields, draft := FieldsAfterAdd(fields, draft, NewFieldId(now, randomText)), DraftAfterAdd(draft);
    }

    /** `removeField(index)`. */
    method RemoveField(index: int)
      modifies this
      ensures fields == FieldsAfterRemove(old(fields), index)
      ensures draft == old(draft)
      ensures open == old(open) && name == old(name) && description == old(description) && color == old(color)
    {
      fields := Lists.RemoveAt(fields, index);
    }

    /**
     * `handleSubmit`: the payload carries the form and the whole field list;
     * after a successful create the dialog closes and everything returns to
     * its initial value, after a failure nothing changes.
     */
    method Submit(succeeded: bool) returns (payload: CategoryPayload)
      modifies this
      ensures payload == CategoryPayload(old(name), old(description), old(color), old(fields))
      ensures succeeded ==> IsInitial() && !open
      ensures !succeeded ==>
        && open == old(open) && name == old(name) && description == old(description)
        && color == old(color) && fields == old(fields) && draft == old(draft)
    {
      payload := CategoryPayload(name, description, color, fields);
      if succeeded {
        name, description, color := "", "", DefaultColor;
        fields := [];
        draft := DefaultDraft;
        open := false;
      }
    }
  }
}
