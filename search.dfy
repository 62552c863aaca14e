/**
 * Searching and filtering lists: the name/description search shared by the
 * item and category pages, and the generic `useSearch` and `useFilter` hooks.
 */
module Search {
  import opened Wrappers
  import opened Strings
  import opened Records
  import opened Values
  import opened Entities
  import Lists

  /** `s.toLowerCase().includes(term.toLowerCase())`, on ASCII letters. */
  predicate ContainsIgnoringCase(s: string, term: string) {
    Contains(Lower(s), Lower(term))
  }

  /** Every text contains the empty term. */
  lemma EmptyTermMatchesAll(s: string)
    ensures ContainsIgnoringCase(s, "")
  {
    assert Lower("") == "";
    ContainsEmpty(Lower(s));
  }

  /**
   * `name.toLowerCase().includes(t) || description?.toLowerCase().includes(t)`:
   * the search of the item and category pages. A missing description never matches.
   */
  predicate MatchesSearch(name: string, description: Option<string>, term: string) {
    ContainsIgnoringCase(name, term)
    || (description.Some? && ContainsIgnoringCase(description.value, term))
  }

  // ---- the item and category pages ----

  predicate ItemMatches(item: Item, term: string) {
    MatchesSearch(item.name, item.description, term)
  }

  /** The items whose name or description contains the term, ignoring case, in their order. */
  function SearchItems(items: seq<Item>, term: string): (r: seq<Item>)
    ensures forall i | 0 <= i < |r| :: r[i] in items && ItemMatches(r[i], term)
    ensures forall i | 0 <= i < |items| :: ItemMatches(items[i], term) ==> items[i] in r
    ensures |r| <= |items|
  {
    Lists.Filter(items, item => ItemMatches(item, term))
  }

  /** The item search keeps the items' order, and the empty term keeps them all. */
  lemma SearchItemsInOrder(items: seq<Item>, term: string)
    ensures Lists.IsSubsequence(SearchItems(items, term), items)
    ensures forall x | x in items ::
      multiset(SearchItems(items, term))[x] == if ItemMatches(x, term) then multiset(items)[x] else 0
    ensures term == "" ==> SearchItems(items, term) == items
  {
    Lists.FilterIsSubsequence(items, item => ItemMatches(item, term));
    Lists.FilterCounts(items, item => ItemMatches(item, term));
    if term == "" {
      forall i | 0 <= i < |items| ensures ItemMatches(items[i], term) {
        EmptyTermMatchesAll(items[i].name);
      }
    }
  }

  /** `items.filter(item => item.id !== itemId)`. */
  function WithoutItem(items: seq<Item>, id: string): (r: seq<Item>)
    ensures forall i | 0 <= i < |r| :: r[i].id != id && r[i] in items
    ensures forall i | 0 <= i < |items| :: items[i].id != id ==> items[i] in r
    ensures (forall i | 0 <= i < |items| :: items[i].id != id) ==> r == items
  {
    Lists.Filter(items, (item: Item) => item.id != id)
  }

  /** Deleting an item keeps the others in their order. */
  lemma WithoutItemInOrder(items: seq<Item>, id: string)
    ensures Lists.IsSubsequence(WithoutItem(items, id), items)
    ensures forall x | x in items :: multiset(WithoutItem(items, id))[x] == if x.id != id then multiset(items)[x] else 0
  {
    Lists.FilterIsSubsequence(items, (item: Item) => item.id != id);
    Lists.FilterCounts(items, (item: Item) => item.id != id);
  }

  predicate CategoryMatches(c: Category, term: string) {
    MatchesSearch(c.name, c.description, term)
  }

  /** The categories whose name or description contains the term, ignoring case, in their order. */
  function SearchCategories(categories: seq<Category>, term: string): (r: seq<Category>)
    ensures forall i | 0 <= i < |r| :: r[i] in categories && CategoryMatches(r[i], term)
    ensures forall i | 0 <= i < |categories| :: CategoryMatches(categories[i], term) ==> categories[i] in r
    ensures |r| <= |categories|
  {
    Lists.Filter(categories, c => CategoryMatches(c, term))
  }

  /** The category search keeps the order, and the empty term keeps every category. */
  lemma SearchCategoriesInOrder(categories: seq<Category>, term: string)
    ensures Lists.IsSubsequence(SearchCategories(categories, term), categories)
    ensures forall x | x in categories ::
      multiset(SearchCategories(categories, term))[x] == if CategoryMatches(x, term) then multiset(categories)[x] else 0
    ensures term == "" ==> SearchCategories(categories, term) == categories
  {
    Lists.FilterIsSubsequence(categories, c => CategoryMatches(c, term));
    Lists.FilterCounts(categories, c => CategoryMatches(c, term));
    if term == "" {
      forall i | 0 <= i < |categories| ensures CategoryMatches(categories[i], term) {
        EmptyTermMatchesAll(categories[i].name);
      }
    }
  }

  /** `categories.filter(cat => cat.id !== category.id)`. */
  function WithoutCategory(categories: seq<Category>, id: string): (r: seq<Category>)
    ensures forall i | 0 <= i < |r| :: r[i].id != id && r[i] in categories
    ensures forall i | 0 <= i < |categories| :: categories[i].id != id ==> categories[i] in r
    ensures (forall i | 0 <= i < |categories| :: categories[i].id != id) ==> r == categories
  {
    Lists.Filter(categories, (c: Category) => c.id != id)
  }

  /** Deleting a category keeps the others in their order. */
  lemma WithoutCategoryInOrder(categories: seq<Category>, id: string)
    ensures Lists.IsSubsequence(WithoutCategory(categories, id), categories)
    ensures forall x | x in categories ::
      multiset(WithoutCategory(categories, id))[x] == if x.id != id then multiset(categories)[x] else 0
  {
    Lists.FilterIsSubsequence(categories, (c: Category) => c.id != id);
    Lists.FilterCounts(categories, (c: Category) => c.id != id);
  }

  // ---- useSearch ----

  /**
   * One search key of one object: a string matches when it contains the term,
   * an array or object when its JSON text does, anything else never.
   */
  predicate KeyMatches(item: Record<Value>, key: string, term: string) {
    var v := Lookup(item, key);
    if v.Str? then ContainsIgnoringCase(v.s, term)
    else if v.Arr? || v.Obj? then ContainsIgnoringCase(JsonText(v), term)
    else false
  }

  /** `searchKeys.some(...)`. */
  predicate AnyKeyMatches(item: Record<Value>, keys: seq<string>, term: string) {
    exists j | 0 <= j < |keys| :: KeyMatches(item, keys[j], term)
  }

  /** `useSearch(items, searchKeys, searchTerm)`. */
  function UseSearch(items: seq<Record<Value>>, keys: seq<string>, term: string): (r: seq<Record<Value>>)
    ensures term == "" ==> r == items
    ensures term != "" ==> forall i | 0 <= i < |r| :: r[i] in items && AnyKeyMatches(r[i], keys, term)
    ensures term != "" ==> forall i | 0 <= i < |items| :: AnyKeyMatches(items[i], keys, term) ==> items[i] in r
  {
    if term == "" then items
    else Lists.Filter(items, item => AnyKeyMatches(item, keys, term))
  }

  /** The search result keeps the input's order. */
  lemma UseSearchInOrder(items: seq<Record<Value>>, keys: seq<string>, term: string)
    ensures Lists.IsSubsequence(UseSearch(items, keys, term), items)
    ensures term != "" ==> forall x | x in items ::
      multiset(UseSearch(items, keys, term))[x] == if AnyKeyMatches(x, keys, term) then multiset(items)[x] else 0
  {
    if term == "" {
      Lists.FilterIsSubsequence(items, _ => true);
    } else {
      Lists.FilterIsSubsequence(items, item => AnyKeyMatches(item, keys, term));
      Lists.FilterCounts(items, item => AnyKeyMatches(item, keys, term));
    }
  }

  /** Values that are neither strings nor objects never match, whatever the term. */
  lemma OnlyTextAndObjectsMatch(item: Record<Value>, key: string, term: string)
    requires var v := Lookup(item, key); !v.Str? && !v.Arr? && !v.Obj?
    ensures !KeyMatches(item, key, term)
  {
  }

  // ---- useFilter ----

  /**
   * One entry of the filter object against the item's value under the same key:
   * empty filters pass; an array wants membership, a boolean strict equality, a
   * string a case-insensitive substring of `String(itemValue)`, anything else `===`.
   */
  predicate FilterAccepts(filterValue: Value, itemValue: Value) {
    if IsEmpty(filterValue) then true
    else if filterValue.Arr? then IncludedIn(itemValue, filterValue.items)
    else if filterValue.Bool? then StrictEquals(itemValue, filterValue)
    else if filterValue.Str? then ContainsIgnoringCase(ToStr(itemValue), filterValue.s)
    else StrictEquals(itemValue, filterValue)
  }

  /** `Object.entries(filters).every(...)`. */
  predicate PassesFilters(item: Record<Value>, filters: Record<Value>) {
    forall j | 0 <= j < |filters| :: FilterAccepts(filters[j].1, Lookup(item, filters[j].0))
  }

  /** `useFilter(items, filters)`. */
  function UseFilter(items: seq<Record<Value>>, filters: Record<Value>): (r: seq<Record<Value>>)
    ensures forall i | 0 <= i < |r| :: r[i] in items && PassesFilters(r[i], filters)
    ensures forall i | 0 <= i < |items| :: PassesFilters(items[i], filters) ==> items[i] in r
    ensures (forall j | 0 <= j < |filters| :: IsEmpty(filters[j].1)) ==> r == items
  {
    Lists.Filter(items, item => PassesFilters(item, filters))
  }

  /** The filtered list keeps the input's order and each passing item as often as it occurs. */
  lemma UseFilterInOrder(items: seq<Record<Value>>, filters: Record<Value>)
    ensures Lists.IsSubsequence(UseFilter(items, filters), items)
    ensures forall x | x in items ::
      multiset(UseFilter(items, filters))[x] == if PassesFilters(x, filters) then multiset(items)[x] else 0
  {
    Lists.FilterIsSubsequence(items, item => PassesFilters(item, filters));
    Lists.FilterCounts(items, item => PassesFilters(item, filters));
  }

  /** Every kept item meets every filter entry that is not empty. */
  lemma KeptItemsMeetFilters(items: seq<Record<Value>>, filters: Record<Value>, i: int, j: int)
    requires 0 <= i < |UseFilter(items, filters)| && 0 <= j < |filters| && !IsEmpty(filters[j].1)
    ensures var item := UseFilter(items, filters)[i]; var f := filters[j].1; var v := Lookup(item, filters[j].0);
      (f.Arr? ==> v.Str? && v.s in f.items)
      && (f.Bool? ==> v == f)
      && (f.Str? ==> ContainsIgnoringCase(ToStr(v), f.s))
  {
  }

  /** A boolean filter is strict: a truthy stand-in such as `1` or `'true'` does not pass it. */
  lemma BooleanFilterIsStrict(b: bool, v: Value)
    requires !v.Bool?
    ensures !FilterAccepts(Bool(b), v)
  {
  }
}
