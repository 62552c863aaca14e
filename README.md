# Dynamic field schemas of the sorting app

The sorting app lets a user define categories, each with its own schema of typed
fields (`field_config`): text, long text, yes/no, number, date, image, dropdown,
tags and quantity with a unit. Items of a category carry a loosely typed
`field_data` object keyed by field id. This project models the logic that gives
those schemas their meaning, and proves what it promises:

- the server's field-data validator and the request-level guards around it
  (pagination, bulk update, uploads and image deletion);
- the item form, which builds the initial field data from a schema and coerces
  each input before storing it;
- the rendering of stored values in the items table and on the category page;
- the create and edit dialogs that add and remove schema fields;
- the search and filter logic of the list pages and hooks, and the dashboard's
  totals.

JavaScript values are a tagged union (`Values.Value`) with the host's
truthiness, `String(v)`, `Number(v)` and `===`. A JavaScript object keyed by
strings is an ordered record (`Records.Record`): an assignment replaces a key
in place or appends a new one, so key order is that of first insertion.
Numbers are integers.

Host services become parameters:
- `Date.parse` is a `Validation.DateParser`;
- `toLocaleDateString` is a `formatDate` function;
- the clock and `Math.random` text for field ids are `now` and `randomText`;
- `uuidv4` is a function from the file's index;
- the upload service's answers are a sequence of optional URLs;
- database lookups are their results: a found category's schema, or the set of
  the user's item ids.

React state is modelled by classes whose methods are the handlers and
effects. Each method runs to completion before the next, and a list page's
filter effect has run after every update (the `Valid` predicates).

Modules, one per source file of the core, plus helpers:

| module | file |
|---|---|
| `Wrappers`, `Lists`, `Strings`, `Records`, `Http` | helpers: options, list operations, strings and number text, ordered records, HTTP outcomes |
| `Values` | JavaScript values |
| `FieldSchema` | `server/src/types/database.ts` |
| `Validation` | `server/src/utils/validation.ts` |
| `ItemForm` | `client/src/components/Items/ItemForm.tsx` |
| `ImageUpload` | `client/src/components/Items/ImageUploadField.tsx` |
| `Entities` | the category and item records of `client/src/types/index.ts` |
| `Search` | `client/src/hooks/useSearch.ts` and the name/description search of the pages |
| `ItemsPage` | `client/src/pages/ItemsPage.tsx` |
| `CategoryPage` | `client/src/pages/CategoryPage.tsx` |
| `CategoriesPage` | `client/src/pages/CategoriesPage.tsx` |
| `Dashboard` | `client/src/pages/Dashboard.tsx` |
| `SchemaEditing`, `CategoryForm`, `CategoryEditForm` | `client/src/components/Categories/CategoryForm.tsx`, `CategoryEditForm.tsx` |
| `ItemsController` | `server/src/controllers/items.ts` |
| `UploadController` | `server/src/controllers/upload.ts` |

Where the code does something its surface does not suggest, the model follows the code:

- `removeField` removes by list position, not by field id.
  - An index out of range leaves the list as it is.
  - Two fields with the same id are removed one at a time.
- A number or quantity input stores `parseFloat(text) || 0`.
  - Text that does not parse is stored as `0`, not as a not-a-number value that the validator would report.
  - So an input typed through the form always passes the "must be a number" test (`ItemForm.NumberInputIsANumber`).
- The date rule rejects a value whose parse is falsy.
  - That includes a date that parses to the epoch itself, not only an unparseable one (`Validation.EpochDateRejected`).
- The category page's boolean row shows "Yes" or "No".
  - A `false` entry is falsy, so it never gets a row, and "No" never appears (`CategoryPage.NoRowForFalse`).
- The boolean cell of the items table tests truthiness, not type (`ItemsPage.BooleanCellIsTruthiness`).

## Model

| member | source | states |
|---|---|---|
| FieldSchema.TypeName | server/src/types/database.ts:41-50 | each of the nine field types has a stored name that reads back as that type |
| FieldSchema.ParseFieldTypeInverse | server/src/utils/validation.ts:17 | a name that denotes a type is that type's name, so names and types correspond one to one |
| Values.Lookup | server/src/utils/validation.ts:51 | a key missing from an object reads as `undefined`, a present key as its value |
| Values.EmptyIsFalsy | server/src/utils/validation.ts:54-60 | every empty value (`undefined`, `null`, `''`) is falsy; the falsy values that are not empty are exactly `0`, `NaN` and `false` |
| Values.ToNumber | server/src/utils/validation.ts:66-69 | `Number(v)`: a number converts to itself, a string or array through its text |
| Values.ToNumberOfText | server/src/utils/validation.ts:66-69 | `Number(String(n))` gives back `n` |
| Validation.NumberRule | server/src/utils/validation.ts:64-77 | a non-number fails with "must be a number"; above `max` gives "must be at most max" even when also below `min`; below `min` alone gives "must be at least min"; no message exactly when the number lies within the bounds that are set |
| Validation.TypeRule | server/src/utils/validation.ts:63-103 | the per-type rule: number and quantity follow the number rule; boolean passes exactly a genuine boolean, else "must be true or false"; date passes exactly when the parse is a non-zero time, else "must be a valid date"; select passes exactly when it has no choices or the value is one of them, and the message lists the choices joined by ", "; tags pass exactly an array (of strings, the only arrays the model has), else "must be an array"; multi-image passes exactly an array of strings, else "must be an array for multiple images", and single image always; text, textarea and unknown types always pass |
| Validation.FieldError | server/src/utils/validation.ts:53-103 | a required empty value gets exactly "<name> is required" and no type rule; an optional falsy value gets nothing; every other value gets its type rule; every message starts with the field name |
| Validation.RequiredFalsyIsChecked | server/src/utils/validation.ts:54-60 | a required field holding `0` or `false` is not missing and goes on to its type rule |
| Validation.EpochDateRejected | server/src/utils/validation.ts:83-87 | a date that parses to the epoch is rejected with "must be a valid date" |
| Validation.Step | server/src/utils/validation.ts:51-102 | one iteration of the loop: a failing field writes its message under its id, a passing one leaves the record as it was (specification function; its properties are the lemmas below) |
| Validation.ErrorsOf | server/src/utils/validation.ts:50-103 | the record the in-order walk over the schema leaves (specification function that `ValidateFieldData` is proved against) |
| Validation.ValidateFieldData | server/src/utils/validation.ts:47-107 | the loop with its `continue`s and its `switch` (in `CheckType`) leaves exactly the record of the in-order walk over the schema, and `isValid` holds exactly when that record is empty |
| Validation.WithTypeRule | server/src/utils/validation.ts:63-103 | the record after the `switch`: the type rule's message written under the field's id when the rule fails, the record unchanged when it passes (specification function of `CheckType`) |
| Validation.WithTypeRuleGet | server/src/utils/validation.ts:63-103 | the `switch` changes only the entry under the field's own id, and a failing rule leaves exactly its message there |
| Validation.CheckType | server/src/utils/validation.ts:63-103 | the `switch` with its per-case writes leaves exactly the record of `WithTypeRule` |
| Validation.CheckNumber | server/src/utils/validation.ts:64-77 | the `min` write followed by the `max` write leaves exactly the number rule's message under the field's id (so "at most" overwrites "at least"), or the record unchanged when the value passes |
| Validation.ErrorKeysAreFieldIds | server/src/utils/validation.ts:50-55 | every key of the error record is a schema field id, and no key occurs twice |
| Validation.ValidIffNoFieldFails | server/src/utils/validation.ts:106 | the record is empty exactly when no field of the schema leaves a message |
| Validation.NotAFieldIdNotReported | server/src/utils/validation.ts:50-51 | an id that is not in the schema never appears in the record |
| Validation.ErrorsOfLastGet | server/src/utils/validation.ts:50-103 | the last field of the schema decides the entry under its own id when it fails; every other entry is what the shorter schema left |
| Validation.ErrorsOfEachField | server/src/utils/validation.ts:50-103 | with distinct ids, all failures are collected: the record holds, under each field's id, exactly that field's message or nothing |
| Validation.ErrorsIgnoreOtherIds | server/src/utils/validation.ts:50-51 | two data objects that agree on the schema's ids give the same record; values under other keys are never examined |
| Validation.RemovedFieldNotReported | server/src/utils/validation.ts:50-51 | after a field is removed from a schema with distinct ids, validation never reports its id |
| Validation.OneFieldErrors | server/src/utils/validation.ts:50-57 | a one-field schema leaves that field's message under its id, or an empty record |
| Validation.SizeFieldExamples | server/src/utils/validation.ts:54-77 | required number "Size" with bounds 1..10: missing gives "Size is required", 15 gives "Size must be at most 10", 5 gives no error |
| Validation.ColorFieldExample | server/src/utils/validation.ts:88-92 | select "Color" with choices Red, Blue rejects "Green" with "Color must be one of: Red, Blue" |
| Validation.ColorFieldChoiceExample | server/src/utils/validation.ts:88-92 | the same field accepts "Red" |
| Validation.PhotosFieldExample | server/src/utils/validation.ts:98-102 | a multi-image field rejects a string with "Photos must be an array for multiple images" |
| Validation.PhotosFieldArrayExample | server/src/utils/validation.ts:98-102 | the same field accepts an array of URLs |
| Validation.FieldConfigAccepted | server/src/utils/validation.ts:14-29 | `fieldConfigSchema`: a non-empty name and one of the nine type names (predicate used by `SchemaEditing.AddedFieldAccepted`) |
| Validation.IsHexColor | server/src/utils/validation.ts:35 | the colour pattern: "#" and six hexadecimal digits of either case (predicate used by `SchemaEditing.DefaultColorAccepted`) |
| Validation.CategoryAccepted | server/src/utils/validation.ts:31-37 | `categorySchema`: name of 1..255 characters, description up to 1000, every field accepted, colour matching the pattern, icon up to 50 (predicate) |
| Validation.ItemAccepted | server/src/utils/validation.ts:39-45 | the length limits of `itemSchema`: name of 1..255 characters, description up to 1000 (predicate) |
| ItemForm.InitialValue | client/src/components/Items/ItemForm.tsx:36 | a field starts at its default when that is truthy, else at `''` |
| ItemForm.Defaults | client/src/components/Items/ItemForm.tsx:34-37 | the field data after giving every field its initial value in schema order; it has no more keys than the schema has fields |
| ItemForm.InitialFieldData | client/src/components/Items/ItemForm.tsx:34-37 | the `forEach` builds exactly the in-order fold of defaults over the schema |
| ItemForm.DefaultsKeys | client/src/components/Items/ItemForm.tsx:34-37 | with distinct ids, the initial data has exactly the schema's ids as keys, in schema order |
| ItemForm.DefaultsGet | client/src/components/Items/ItemForm.tsx:34-37 | with distinct ids, every field id holds that field's initial value |
| ItemForm.ShownValue | client/src/components/Items/ItemForm.tsx:82 | an input shows the stored value when it is truthy, else `''` |
| ItemForm.NumberInput | client/src/components/Items/ItemForm.tsx:114 | a number input always stores a number: the parsed integer, or `0` when nothing parses |
| ItemForm.NumberInputOfText | client/src/components/Items/ItemForm.tsx:113-114 | typing the text of a number stores that number |
| ItemForm.NumberInputIsANumber | client/src/components/Items/ItemForm.tsx:114 | whatever is typed, the stored value passes the validator's number test |
| ItemForm.Checked | client/src/components/Items/ItemForm.tsx:135 | a checkbox is ticked exactly for a truthy value |
| ItemForm.CheckboxValueAccepted | client/src/components/Items/ItemForm.tsx:136 | the stored checkbox state is a genuine boolean, which the boolean rule accepts |
| ItemForm.TagsText | client/src/components/Items/ItemForm.tsx:173 | an array shows joined by ", ", anything else as its string |
| ItemForm.TagsInput | client/src/components/Items/ItemForm.tsx:174 | the stored tags are an array holding exactly the non-empty pieces of the text split at ", ", each as many times as it was typed, and no empty piece |
| ItemForm.TagsInputInOrder | client/src/components/Items/ItemForm.tsx:174 | the stored tags keep the order in which they were typed |
| ItemForm.TagsInputWithoutSeparator | client/src/components/Items/ItemForm.tsx:174 | text without ", " (such as "a,b") is a single tag |
| ItemForm.TagsRoundTrip | client/src/components/Items/ItemForm.tsx:173-174 | showing a tag list and reading it back gives the same list when no tag is empty or holds ", " |
| ItemForm.TagsInputAccepted | client/src/components/Items/ItemForm.tsx:174 | stored tags always pass the tags rule |
| ItemForm.ImageFieldValue | client/src/components/Items/ItemForm.tsx:183 | an image field without a value is handed `[]` in multiple mode, else `''` |
| ItemForm.ItemFormState.constructor | client/src/components/Items/ItemForm.tsx:18-25 | the form starts closed and empty |
| ItemForm.ItemFormState.CategoryLoaded | client/src/components/Items/ItemForm.tsx:33-38 | after the category loads, the field data is the schema's initial data |
| ItemForm.ItemFormState.HandleFieldChange | client/src/components/Items/ItemForm.tsx:74-79 | only the changed key takes the new value; every other key keeps its value |
| ItemForm.ItemFormState.Submit | client/src/components/Items/ItemForm.tsx:49-72 | the payload carries the form as it stands; on success name, description and field data are reset and the dialog closes; on failure nothing changes |
| ImageUpload.Previews | client/src/components/Items/ImageUploadField.tsx:23-31 | an array previews its non-empty entries; any other truthy value previews itself, as its string form; a falsy value previews nothing |
| ImageUpload.PreviewsInOrder | client/src/components/Items/ImageUploadField.tsx:25 | previews of an array keep its order |
| ImageUpload.CurrentUrls | client/src/components/Items/ImageUploadField.tsx:48 | the URLs already held: the array itself, a non-empty string alone, or none |
| ImageUpload.UploadedUrls | client/src/components/Items/ImageUploadField.tsx:42-46 | one URL per successful upload, in upload order |
| ImageUpload.HandleFileSelect | client/src/components/Items/ImageUploadField.tsx:33-65 | no files: no change; multiple mode: held URLs followed by every uploaded URL, or no change when an upload fails; single mode: the first file's URL |
| ImageUpload.UploadKeepsHeldUrls | client/src/components/Items/ImageUploadField.tsx:48-50 | the held URLs stay first and in order, and the list grows by one per file |
| ImageUpload.RemoveImage | client/src/components/Items/ImageUploadField.tsx:67-74 | an array in multiple mode loses exactly that index; any other value is cleared to `[]` or `''` |
| ImageUpload.RemoveImageShape | client/src/components/Items/ImageUploadField.tsx:68-70 | removing an index in range shortens the array by one and keeps the other URLs in order |
| ImageUpload.RemoveImageOutOfRange | client/src/components/Items/ImageUploadField.tsx:69 | an index out of range leaves the array as it is |
| ItemsPage.ImageCell | client/src/pages/ItemsPage.tsx:98-124 | a non-empty array shows its first min(n,2) URLs in order and a "+(n-2)" marker exactly when n > 2; a non-empty string shows itself; anything else a dash |
| ItemsPage.RenderFieldValue | client/src/pages/ItemsPage.tsx:86-128 | empty values render "-"; boolean renders a check mark exactly for a truthy value; quantity appends " unit" only for a non-empty unit; tags arrays join with ", " and other tags values pass through; images as `ImageCell`; text, number, select and unknown types as `String(value)` |
| ItemsPage.EmptyImageListRendersDash | client/src/pages/ItemsPage.tsx:99-124 | an empty image array renders a dash |
| ItemsPage.BooleanCellIsTruthiness | client/src/pages/ItemsPage.tsx:90-91 | `'false'` and `1` render a check mark, `false` a cross |
| ItemsPage.QuantityExample | client/src/pages/ItemsPage.tsx:94-95 | with unit "kg", `3` renders "3 kg" and a missing value "-" |
| ItemsPage.TwoImagesExample | client/src/pages/ItemsPage.tsx:99-113 | two images render both thumbnails and no marker |
| ItemsPage.ItemsPageState.constructor | client/src/pages/ItemsPage.tsx:22-25 | the page starts with no items and an empty search |
| ItemsPage.ItemsPageState.Loaded | client/src/pages/ItemsPage.tsx:40-42 | a fetched list replaces the items and the filter is applied again |
| ItemsPage.ItemsPageState.SetSearchTerm | client/src/pages/ItemsPage.tsx:53-59 | the shown items are the items that match the new term |
| ItemsPage.ItemsPageState.DeleteItem | client/src/pages/ItemsPage.tsx:73-84 | exactly the items with that id are removed, and none of them is shown |
| Search.EmptyTermMatchesAll | client/src/pages/CategoriesPage.tsx:28 | every text contains the empty term |
| Search.MatchesSearch | client/src/pages/ItemsPage.tsx:54-57 | the name contains the term ignoring case, or the description is present and does (predicate used by the searches) |
| Search.SearchItems | client/src/pages/ItemsPage.tsx:53-59 | kept are exactly the items whose name or description contains the term, ignoring case |
| Search.SearchItemsInOrder | client/src/pages/CategoryPage.tsx:56-59 | the item search keeps the items' order and each matching item as often as it occurs, and the empty term keeps them all |
| Search.WithoutItem | client/src/pages/ItemsPage.tsx:77 | exactly the items with another id remain |
| Search.WithoutItemInOrder | client/src/pages/ItemsPage.tsx:77 | the remaining items keep their order, each as often as it occurred |
| Search.SearchCategories | client/src/pages/CategoriesPage.tsx:26-32 | kept are exactly the categories whose name or description contains the term, ignoring case |
| Search.SearchCategoriesInOrder | client/src/pages/CategoriesPage.tsx:27-30 | the category search keeps the order and each matching category as often as it occurs, and the empty term keeps every category |
| Search.WithoutCategory | client/src/pages/CategoriesPage.tsx:39 | exactly the categories with another id remain |
| Search.WithoutCategoryInOrder | client/src/pages/CategoriesPage.tsx:39 | the remaining categories keep their order, each as often as it occurred |
| Search.UseSearch | client/src/hooks/useSearch.ts:3-26 | the empty term keeps the list; otherwise kept are exactly the items for which some search key matches |
| Search.UseSearchInOrder | client/src/hooks/useSearch.ts:11 | the result keeps the input's order and, for a non-empty term, each matching item as often as it occurs |
| Search.KeyMatches | client/src/hooks/useSearch.ts:13-20 | one search key: a string contains the term, an array or object's JSON text does, anything else never matches (predicate) |
| Search.AnyKeyMatches | client/src/hooks/useSearch.ts:12-21 | some search key matches (predicate) |
| Search.OnlyTextAndObjectsMatch | client/src/hooks/useSearch.ts:12-21 | a value that is neither a string nor an object never matches |
| Search.UseFilter | client/src/hooks/useSearch.ts:28-59 | kept are exactly the items that pass every filter entry; with only empty filter values every item is kept |
| Search.FilterAccepts | client/src/hooks/useSearch.ts:35-53 | one filter entry: empty filters pass; an array wants membership, a boolean strict equality, a string a case-insensitive substring of `String(itemValue)`, anything else `===` (predicate) |
| Search.UseFilterInOrder | client/src/hooks/useSearch.ts:33-55 | the filtered list keeps the input's order and each passing item as often as it occurs, and no failing one |
| Search.KeptItemsMeetFilters | client/src/hooks/useSearch.ts:34-51 | a kept item's value is a member of an array filter, equals a boolean filter, and contains a string filter ignoring case |
| Search.BooleanFilterIsStrict | client/src/hooks/useSearch.ts:45-47 | a boolean filter rejects every value that is not a boolean |
| CategoryPage.FirstImage | client/src/pages/CategoryPage.tsx:155-161 | an item shows its first image exactly when its image list is non-empty |
| CategoryPage.FirstIndex | client/src/pages/CategoryPage.tsx:164 | finds the first position holding the id, or reports that none does |
| CategoryPage.FindField | client/src/pages/CategoryPage.tsx:164 | a field is found exactly when its id is in the schema, and it is the first field with that id |
| CategoryPage.FieldRows | client/src/pages/CategoryPage.tsx:163-175 | each row comes from a field-data entry whose id is in the schema and whose value is truthy; it is labelled with the name of the first schema field with that id; a boolean shows "Yes", anything else `String(value)` |
| CategoryPage.RowText | client/src/pages/CategoryPage.tsx:171 | a boolean shows "Yes" or "No", anything else `String(value)` (helper of `FieldRows`) |
| CategoryPage.EntryRow | client/src/pages/CategoryPage.tsx:163-175 | one entry's row: none when no schema field has its id or its value is falsy (helper of `FieldRows`) |
| CategoryPage.FieldRowsInKeyOrder | client/src/pages/CategoryPage.tsx:163 | rows follow the key order of the field data, not schema order |
| CategoryPage.FieldRowsComplete | client/src/pages/CategoryPage.tsx:163-175 | every entry with a schema id and a truthy value gets a row |
| CategoryPage.NoRowForFalse | client/src/pages/CategoryPage.tsx:165-171 | a boolean row always holds `true`: "No" is never shown |
| CategoriesPage.CategoriesPageState.constructor | client/src/pages/CategoriesPage.tsx:11-14 | the page starts with no categories and an empty search |
| CategoriesPage.CategoriesPageState.Fetched | client/src/pages/CategoriesPage.tsx:53-60 | the response replaces the list; with an empty term every category is shown |
| CategoriesPage.CategoriesPageState.SetSearchTerm | client/src/pages/CategoriesPage.tsx:26-32 | the shown categories are the ones that match the new term |
| CategoriesPage.CategoriesPageState.Delete | client/src/pages/CategoriesPage.tsx:35-46 | exactly the categories with that id are removed, and none of them is shown |
| CategoriesPage.CategoriesPageState.Showing | client/src/pages/CategoriesPage.tsx:130 | the number shown never exceeds the number loaded |
| Dashboard.ItemCount | client/src/pages/Dashboard.tsx:52 | a category contributes its first count row, or 0 when it has none |
| Dashboard.TotalItems | client/src/pages/Dashboard.tsx:52 | the `reduce` over the categories' counts, from the left; when no category has a count row (no list, or an empty one) the total is 0 |
| Dashboard.TotalItemsAppend | client/src/pages/Dashboard.tsx:52 | the total of two lists one after the other is the sum of their totals |
| Dashboard.UncountedCategoryAddsNothing | client/src/pages/Dashboard.tsx:52 | a category without counts adds 0 |
| Dashboard.TotalItemsBounds | client/src/pages/Dashboard.tsx:52 | with non-negative counts, each category's count lies between 0 and the total |
| Dashboard.TotalItemsNonNegative | client/src/pages/Dashboard.tsx:52 | with non-negative counts the total is non-negative |
| Dashboard.Recent | client/src/pages/Dashboard.tsx:121-137 | the empty state exactly for no categories, otherwise the first six (or all, when fewer) in fetched order |
| SchemaEditing.TypeChoicesAreTypes | client/src/components/Categories/CategoryForm.tsx:32-42 | every choice of the type selector is one of the nine types, and every type is offered |
| SchemaEditing.Substr | client/src/components/Categories/CategoryForm.tsx:78 | `substr(start, length)` is at most `length` long and is a prefix of the text from `start` |
| SchemaEditing.NewFieldId | client/src/components/Categories/CategoryForm.tsx:78 | a new field id starts with "field_" and continues past it |
| SchemaEditing.FieldsAfterAdd | client/src/components/Categories/CategoryForm.tsx:74-83 | a name that `trim` empties (ASCII and Unicode whitespace alike) changes nothing; otherwise the list grows by one, the existing fields are unchanged and in order, and the last has the new id and the draft's raw name, type and required flag |
| SchemaEditing.DraftAfterAdd | client/src/components/Categories/CategoryForm.tsx:81 | after an addition the draft returns to its default; after a refused one it is unchanged |
| SchemaEditing.FieldsAfterRemove | client/src/components/Categories/CategoryForm.tsx:85-87 | an index in range deletes exactly that position and keeps the rest in order; an index out of range changes nothing |
| SchemaEditing.DefaultDraftAddsNothing | client/src/components/Categories/CategoryForm.tsx:75 | the default draft has no name, so adding it changes nothing |
| SchemaEditing.SpacesAreNoName | client/src/components/Categories/CategoryForm.tsx:75 | a name of spaces only adds no field |
| SchemaEditing.NoBreakSpaceIsNoName | client/src/components/Categories/CategoryForm.tsx:75 | a name of one no-break space (U+00A0) adds no field, because `trim` removes it |
| SchemaEditing.AddKeepsIds | client/src/components/Categories/CategoryEditForm.tsx:81-90 | adding with a fresh id keeps the ids distinct, keeps every existing id and appends only the new one |
| SchemaEditing.RemoveKeepsIds | client/src/components/Categories/CategoryEditForm.tsx:92-94 | removing keeps the ids distinct and the remaining ids in order; no id is altered |
| SchemaEditing.AddedFieldAccepted | client/src/components/Categories/CategoryForm.tsx:74-80 | a field added with a name and a type from the selector passes the server's field schema |
| SchemaEditing.DefaultColorAccepted | client/src/components/Categories/CategoryForm.tsx:27 | the starting colour matches the server's `#RRGGBB` pattern |
| CategoryForm.CategoryFormState.constructor | client/src/components/Categories/CategoryForm.tsx:22-30 | the dialog starts closed and in its initial state |
| CategoryForm.CategoryFormState.EditDraft | client/src/components/Categories/CategoryForm.tsx:182-203 | editing the draft changes only the draft |
| CategoryForm.CategoryFormState.AddField | client/src/components/Categories/CategoryForm.tsx:74-83 | the list and the draft become those of an addition with the new id; the form fields are untouched |
| CategoryForm.CategoryFormState.RemoveField | client/src/components/Categories/CategoryForm.tsx:85-87 | the list loses that position; nothing else changes |
| CategoryForm.CategoryFormState.Submit | client/src/components/Categories/CategoryForm.tsx:44-72 | the payload is the form and exactly the current field list; success returns everything to its initial value and closes the dialog; failure changes nothing |
| CategoryEditForm.ColorOrDefault | client/src/components/Categories/CategoryEditForm.tsx:29 | the category's colour when set and non-empty, else the default |
| CategoryEditForm.CategoryEditFormState.constructor | client/src/components/Categories/CategoryEditForm.tsx:24-32 | the dialog starts closed with the category's name, description and colour, no fields and the default draft |
| CategoryEditForm.CategoryEditFormState.Open | client/src/components/Categories/CategoryEditForm.tsx:46-57 | opening resets the form to the category, the list to its schema (or empty) and the draft to the default |
| CategoryEditForm.CategoryEditFormState.EditDraft | client/src/components/Categories/CategoryEditForm.tsx:188-209 | editing the draft changes only the draft |
| CategoryEditForm.CategoryEditFormState.AddField | client/src/components/Categories/CategoryEditForm.tsx:81-90 | as in the create dialog |
| CategoryEditForm.CategoryEditFormState.RemoveField | client/src/components/Categories/CategoryEditForm.tsx:92-94 | as in the create dialog |
| CategoryEditForm.CategoryEditFormState.Submit | client/src/components/Categories/CategoryEditForm.tsx:59-79 | the update goes to the category's id with name, description, colour and the whole field list; success closes the dialog and nothing else changes |
| ItemsController.WindowOf | server/src/controllers/items.ts:80-84 | the offset is (page-1)*limit, and the requested range spans exactly `limit` rows |
| ItemsController.ParseParam | server/src/controllers/items.ts:78-79 | `parseInt` of a query parameter, with its default text when absent (helper of `Pagination`) |
| ItemsController.ClampedWindow | server/src/controllers/items.ts:78-84 | the page is raised to at least 1 and the limit clamped into 1..100, and the window has `WindowOf`'s offset and span for them |
| ItemsController.Pagination | server/src/controllers/items.ts:78-84 | no window exactly when a parameter does not parse; otherwise page ≥ 1, 1 ≤ limit ≤ 100, and the offset and span of `WindowOf` |
| ItemsController.DefaultPagination | server/src/controllers/items.ts:57 | without parameters the window is page 1, limit 10, rows 0 to 9 |
| ItemsController.PaginationClamps | server/src/controllers/items.ts:78-79 | numeric parameters are clamped: page to at least 1, limit into 1..100 |
| ItemsController.PaginationOfPage | server/src/controllers/items.ts:78-80 | a page number of at least 1 is taken as it is |
| ItemsController.ConsecutivePagesAdjacent | server/src/controllers/items.ts:80-84 | consecutive pages with the same limit request adjacent, non-overlapping ranges |
| ItemsController.ValidationFailureMessage | server/src/controllers/items.ts:27 | the message is "Field validation failed: " followed by the record's messages joined by ", " in key order; every message of the record occurs in it; a single failure gives that prefix and its message |
| ItemsController.FailureListsEveryField | server/src/controllers/items.ts:25-27 | with distinct ids, the message of every failing field is in the record and occurs in the text of the 400 response |
| ItemsController.MessageListsEveryValue | server/src/controllers/items.ts:27 | every value of the error record occurs in the joined message |
| ItemsController.CreateItemChecks | server/src/controllers/items.ts:20-28 | 404 "Category not found" without a category; otherwise accepted exactly when every field passes, else 400 with the joined messages |
| ItemsController.UpdateItemChecks | server/src/controllers/items.ts:151-170 | 404 "Item not found" first; field data is validated only when the request carries it and the category is found; then it is accepted exactly when the error record is empty, else 400 with the joined messages |
| ItemsController.OwnedRows | server/src/controllers/items.ts:243-247 | the rows returned are exactly the requested ids the user owns |
| ItemsController.BulkUpdateChecks | server/src/controllers/items.ts:238-251 | an `itemIds` that is not an array of strings, or is empty, gets 400 "Item IDs are required"; any other refusal is 404 "Some items not found or access denied" |
| ItemsController.BulkUpdateOnlyOwned | server/src/controllers/items.ts:249-251 | an accepted request names only owned ids, each once |
| ItemsController.BulkUpdateOwnedAccepted | server/src/controllers/items.ts:243-251 | a non-empty list of distinct owned ids is accepted |
| ItemsController.BulkUpdateRefusesRepeatedId | server/src/controllers/items.ts:249-250 | a list that repeats an id is refused even when every id is owned |
| UploadController.FileFilter | server/src/controllers/upload.ts:11-18 | a file is accepted exactly when its mimetype starts with "image/", else 400 "Only image files are allowed" |
| UploadController.WithinSizeLimit | server/src/controllers/upload.ts:23-24 | a file passes the size limit exactly when it is at most 5 MiB (predicate) |
| UploadController.Extension | server/src/controllers/upload.ts:38 | the extension is the part of the name after its last '.', or the whole name when it has none |
| UploadController.StoredName | server/src/controllers/upload.ts:38-39 | the stored name is exactly the user id, "/", the uuid, "." and the extension, so it starts with the user id and "/" |
| UploadController.StoredNameKeepsExtension | server/src/controllers/upload.ts:38-39 | the extension read back from a stored name is the original file's extension |
| UploadController.UploadImage | server/src/controllers/upload.ts:28-39 | no file gives 400 "No file uploaded"; otherwise the stored name |
| UploadController.UploadMultipleImages | server/src/controllers/upload.ts:71-83 | no files give 400 "No files uploaded"; otherwise one stored name per file, in order |
| UploadController.DeleteAllowed | server/src/controllers/upload.ts:127 | the ownership test of `deleteImage`: the path starts with the user id (predicate) |
| UploadController.DeleteImage | server/src/controllers/upload.ts:121-129 | deletion is allowed exactly when the path starts with the user id, else 403 "Access denied" |
| UploadController.OwnUploadsDeletable | server/src/controllers/upload.ts:127-129 | every name stored for a user passes that user's delete check |
| UploadController.PrefixIdPassesOnOthersFiles | server/src/controllers/upload.ts:127 | a user id that is a proper prefix of another's passes the check on the other's files |
| UploadController.ShortPrefixExample | server/src/controllers/upload.ts:127 | user "ab" passes the check for path "abc/x" |
| UploadController.SameLengthIdsExact | server/src/controllers/upload.ts:127 | between ids of equal length (such as UUIDs) the check admits exactly the owner |

## Left out

- Persistence, authentication and networking: the database queries, storage calls and auth middleware are not modelled. Their results enter as parameters: the found schema, the set of owned ids, upload answers.
- Request parsing by the zod schemas: the `categorySchema`, `itemSchema` and `fieldConfigSchema` limits are the predicates in `Validation`. The UUID format of `category_id` and the error path of a failed parse are not modelled.
- Category-name uniqueness on create and update: it is a database query followed by an insert, with no local logic.
- The 10-file cap of the multiple-upload route, and the multer upload streaming itself: wiring outside the core. `UploadController.WithinSizeLimit` only states the 5 MiB bound.
- React scheduling: effects, asynchronous upload loops and `loading` flags become sequential method calls; a handler's success or failure is a parameter.
- Presentation: placeholders, labels, dialogs, markup, alerts and console output.
- Values.Value: `Arr` holds strings only, and every other array is an `Obj`. So an array of non-strings is not an array in the model. `Validation.TypeRule` refuses `[1, 2]` as tags, and `[null]` as a multi-image value, although `Array.isArray` accepts them. `ItemsController.BulkUpdateChecks` answers 400 to `itemIds: [1, 2]`, where the source goes on to the ownership query.
- Values.ToNumber: numbers are integers; `Number(v)`, `parseInt` and `parseFloat` read optionally signed decimal integer text. Fractions, exponents, hexadecimal, `Infinity` and IEEE arithmetic are not modelled.
- Validation.TypeRule: `Date.parse` is a parameter, so which strings are dates is not modelled.
- ItemsPage.RenderFieldValue: the date cell is the `formatDate` parameter's text; locale formatting is not modelled.
- Search.ContainsIgnoringCase: lower-casing covers ASCII letters only, not Unicode case mapping.
- Values.JsonText: `JSON.stringify` of a string array quotes each entry without escaping; other objects are carried by their JSON text.
- Values.StrictEquals: arrays and objects compare by reference, which the model does not track, so two of them are never equal.
- Records.Set: key order is insertion order; JavaScript's ordering of integer-like keys before other keys is not modelled.
- ItemsController.Pagination: a parameter that does not parse gives no window. The source would go on with `NaN` arithmetic and an ill-formed range.
- ItemsController.BulkUpdateChecks: a failed fetch is not distinguished from a count mismatch (both are 404). The update itself and its success message are left out.
- UploadController.UploadMultipleImages: the failure of one storage upload inside `Promise.all` is not modelled.
- SchemaEditing.NewFieldId: fresh ids come from the clock and random text. Their uniqueness is not proved; lemmas that need it state it as a precondition (`AddKeepsIds`).
- Validation.ValidateFieldData: a `field_config` that is `null` or not an array is not modelled; the schema is always a list.
- Id uniqueness within a schema is not enforced by the source. Lemmas that rely on it require `UniqueIds`.
