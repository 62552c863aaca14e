/**
 * The stored entities the pages list: categories, which carry a field schema,
 * and items, which carry field data keyed by the schema's field ids.
 */
module Entities {
  import opened Wrappers
  import opened Records
  import opened Values
  import opened FieldSchema

  /**
   * A category as the API returns it. `fieldConfig` may be absent (`null`);
   * `itemCounts` is the `items` relation of a counting query: absent, or a list
   * of rows each with its `count`.
   */
  datatype Category = Category(
    id: string,
    name: string,
    description: Option<string>,
    fieldConfig: Option<seq<FieldConfig>>,
    color: Option<string>,
    itemCounts: Option<seq<int>>)

  /** An item: its name, optional description, field data and optional image list. */
  datatype Item = Item(
    id: string,
    categoryId: string,
    name: string,
    description: Option<string>,
    fieldData: Record<Value>,
    images: Option<seq<string>>)
}
