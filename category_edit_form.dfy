/**
 * The "Edit Category" dialog: like the create dialog, but it starts from an
 * existing category each time it opens and sends an update.
 */
module CategoryEditForm {
  import opened Wrappers
  import opened FieldSchema
  import opened Entities
  import opened SchemaEditing
  import Strings
  import Lists

  /** `category.color || '#3B82F6'`. */
  function ColorOrDefault(color: Option<string>): (c: string)
    ensures color.Some? && color.value != "" ==> c == color.value
    ensures color.None? || color.value == "" ==> c == DefaultColor
  {
    match color
    case Some(s) => if s != "" then s else DefaultColor
    case None => DefaultColor
  }

  class CategoryEditFormState {
    const category: Category
    var open: bool
    var name: string
    var description: string
    var color: string
    var fields: seq<FieldConfig>
    var draft: Draft

    /** The form holds the category's own values and schema, and the default draft. */
    predicate ShowsCategory()
      reads this
    {
      && name == category.name
      && description == category.description.GetOr("")
      && color == ColorOrDefault(category.color)
      && fields == category.fieldConfig.GetOr([])
      && draft == DefaultDraft
    }

    constructor(category: Category)
      ensures this.category == category && !open
      ensures name == category.name && description == category.description.GetOr("")
      ensures color == ColorOrDefault(category.color) && fields == [] && draft == DefaultDraft
    {
      this.category := category;
      open := false;
      name := category.name;
      description := category.description.GetOr("");
      color := ColorOrDefault(category.color);
      fields := [];
      draft := DefaultDraft;
    }

    /** Opening the dialog; the effect on `open` resets the form to the category. */
    method Open()
      modifies this
      ensures open && ShowsCategory()
    {
      open := true;
      name := category.name;
      description := category.description.GetOr("");
      color := ColorOrDefault(category.color);
      fields := category.fieldConfig.GetOr([]);
      draft := Draft("", "text", false);
    }

    /** `setNewField(...)` from the draft inputs. */
    method EditDraft(d: Draft)
      modifies this
      ensures draft == d
      ensures open == old(open) && name == old(name) && description == old(description)
      ensures color == old(color) && fields == old(fields)
    {
      draft := d;
    }

    /** `addField`, as in the create dialog. */
    method AddField(now: nat, randomText: string)
      modifies this
      ensures fields == FieldsAfterAdd(old(fields), old(draft), NewFieldId(now, randomText))
      ensures draft == DraftAfterAdd(old(draft))
      ensures open == old(open) && name == old(name) && description == old(description) && color == old(color)
    {
      fields, draft := FieldsAfterAdd(fields, draft, NewFieldId(now, randomText)), DraftAfterAdd(draft);
    }

    /** `removeField(index)`. */
    method RemoveField(index: int)
      modifies this
      ensures fields == FieldsAfterRemove(old(fields), index)
      ensures draft == old(draft)
      ensures open == old(open) && name == old(name) && description == old(description) && color == old(color)
    {
      fields := Lists.RemoveAt(fields, index);
    }

    /**
     * `handleSubmit`: the update carries name, description, colour and the
     * whole field list; a successful update closes the dialog, the form keeps
     * its values until the next opening resets them.
     */
    method Submit(succeeded: bool) returns (categoryId: string, payload: CategoryPayload)
      modifies this
      ensures categoryId == category.id
      ensures payload == CategoryPayload(old(name), old(description), old(color), old(fields))
      ensures open == (old(open) && !succeeded)
      ensures name == old(name) && description == old(description) && color == old(color)
      ensures fields == old(fields) && draft == old(draft)
    {
      categoryId := category.id;
      payload := CategoryPayload(name, description, color, fields);
      if succeeded {
        open := false;
      }
    }
  }
}
