/**
 * The items table of a category: how each field value is rendered in a cell,
 * the search over the items, and the page state the effects and the delete
 * handler replace.
 */
module ItemsPage {
  import opened Wrappers
  import opened Strings
  import opened Values
  import opened FieldSchema
  import opened Entities
  import Search
  import Lists

  /** What a cell shows: a label, a raw value, up to two thumbnails with a "+n" marker, or one image. */
  datatype Cell =
    | Label(text: string)
    | Raw(value: Value)
    | Thumbnails(urls: seq<string>, more: Option<nat>)
    | Thumbnail(url: string)

  const Dash: string := "-"
  const CheckMark: string := "\U{2713}"
  const CrossMark: string := "\U{2717}"

  /** The image cell: the first two URLs of a non-empty array and a marker for the rest, one non-empty string, or a dash. */
  function ImageCell(value: Value): (c: Cell)
    ensures value.Arr? && |value.items| > 0 ==> c.Thumbnails?
    ensures c.Thumbnail? <==> value.Str? && value.s != ""
    ensures c.Thumbnail? ==> c.url == value.s
    ensures c.Thumbnails? ==>
      && value.Arr?
      && |c.urls| == (if |value.items| < 2 then |value.items| else 2) && c.urls <= value.items
      && (c.more.Some? <==> |value.items| > 2)
      && |c.urls| + c.more.GetOr(0) == |value.items|
    ensures !c.Thumbnails? && !c.Thumbnail? ==> c == Label(Dash)
  {
    if value.Arr? && |value.items| > 0 then
      Thumbnails(Lists.Take(value.items, 2), if |value.items| > 2 then Some(|value.items| - 2) else None)
    else if value.Str? && value.s != "" then Thumbnail(value.s)
    else Label(Dash)
  }

  /**
   * `renderFieldValue(field, value)`. `formatDate` is the host's
   * `new Date(value).toLocaleDateString()`.
   */
  function RenderFieldValue(f: FieldConfig, value: Value, formatDate: Value -> string): (c: Cell)
    ensures IsEmpty(value) ==> c == Label(Dash)
    ensures !IsEmpty(value) && ParseFieldType(f.kind) == Some(Boolean) ==>
      c == Label(if Truthy(value) then CheckMark else CrossMark)
    ensures !IsEmpty(value) && ParseFieldType(f.kind) == Some(Quantity) ==>
      c == Label(if HasUnit(f.options) then ToStr(value) + " " + f.options.unit.value else ToStr(value))
    ensures !IsEmpty(value) && ParseFieldType(f.kind) == Some(Tags) ==>
      c == if value.Arr? then Label(Join(value.items, TagSeparator)) else Raw(value)
    ensures !IsEmpty(value) && ParseFieldType(f.kind) == Some(Image) ==> c == ImageCell(value)
    ensures !IsEmpty(value) && ParseFieldType(f.kind) in {None, Some(FieldType.Text), Some(Textarea), Some(Number), Some(Select)} ==>
      c == Label(ToStr(value))
    ensures c.Raw? ==> c.value == value && !value.Arr?
  {
    if IsEmpty(value) then Label(Dash)
    else match ParseFieldType(f.kind)
      case Some(Boolean) => Label(if Truthy(value) then CheckMark else CrossMark)
      case Some(Date) => Label(formatDate(value))
      case Some(Quantity) =>
        if HasUnit(f.options) then Label(ToStr(value) + " " + f.options.unit.value) else Label(ToStr(value))
      case Some(Tags) => if value.Arr? then Label(Join(value.items, TagSeparator)) else Raw(value)
      case Some(Image) => ImageCell(value)
      case _ => Label(ToStr(value))
  }

  /** An empty array in an image field renders a dash, as do numbers and booleans there. */
  lemma EmptyImageListRendersDash(f: FieldConfig, formatDate: Value -> string)
    requires ParseFieldType(f.kind) == Some(Image)
    ensures RenderFieldValue(f, Arr([]), formatDate) == Label(Dash)
  {
  }

  /** The boolean cell tests truthiness, not type: `'false'` and `1` both show a check mark. */
  lemma BooleanCellIsTruthiness(f: FieldConfig, formatDate: Value -> string)
    requires ParseFieldType(f.kind) == Some(Boolean)
    ensures RenderFieldValue(f, Str("false"), formatDate) == Label(CheckMark)
    ensures RenderFieldValue(f, Num(1), formatDate) == Label(CheckMark)
    ensures RenderFieldValue(f, Bool(false), formatDate) == Label(CrossMark)
  {
  }

  /** A quantity field with unit "kg" shows `3` as "3 kg" and a missing value as a dash. */
  lemma QuantityExample(formatDate: Value -> string)
    ensures var f := FieldConfig("q", "Weight", "quantity", false, NoOptions.(unit := Some("kg")));
      RenderFieldValue(f, Num(3), formatDate) == Label("3 kg")
      && RenderFieldValue(f, Undefined, formatDate) == Label(Dash)
  {
    assert IntToString(3) == "3";
  }

  /** Two images show both thumbnails and no "+n" marker. */
  lemma TwoImagesExample(formatDate: Value -> string)
    ensures var f := FieldConfig("f3", "Photos", "image", false, NoOptions.(multiple := true));
      RenderFieldValue(f, Arr(["a.png", "b.png"]), formatDate) == Thumbnails(["a.png", "b.png"], None)
  {
  }

  /** The page's item lists; after every update the filter effect has run. */
  class ItemsPageState {
    var items: seq<Item>
    var filteredItems: seq<Item>
    var searchTerm: string

    predicate Valid()
      reads this
    {
      filteredItems == Search.SearchItems(items, searchTerm)
    }

    constructor()
      ensures Valid() && items == [] && searchTerm == ""
    {
      items, filteredItems, searchTerm := [], [], "";
    }

    /** The fetch effect (and the refresh after creating an item): the list is replaced and filtered again. */
    method Loaded(itemsList: seq<Item>)
      modifies this
      ensures Valid() && items == itemsList && searchTerm == old(searchTerm)
    {
      items := itemsList;
      filteredItems := itemsList;
      filteredItems := Search.SearchItems(items, searchTerm);
    }

    /** Typing in the search box. */
    method SetSearchTerm(term: string)
      modifies this
      ensures Valid() && searchTerm == term && items == old(items)
    {
      searchTerm := term;
      filteredItems := Search.SearchItems(items, searchTerm);
    }

    /** `handleDeleteItem` after the confirmed delete call succeeded. */
    method DeleteItem(itemId: string)
      modifies this
      ensures Valid() && searchTerm == old(searchTerm)
      ensures items == Search.WithoutItem(old(items), itemId)
      ensures forall i | 0 <= i < |filteredItems| :: filteredItems[i].id != itemId
    {
      items := Search.WithoutItem(items, itemId);
      filteredItems := Search.SearchItems(items, searchTerm);
    }
  }
}
