/**
 * The categories page: the fetched list, the list the search leaves, and the
 * updates the fetch, the search box and the delete handler make to them.
 */
module CategoriesPage {
  import opened Entities
  import Search
  import Lists

  /** The page's category lists; after every update the filter effect has run. */
  class CategoriesPageState {
    var categories: seq<Category>
    var filteredCategories: seq<Category>
    var searchTerm: string

    predicate Valid()
      reads this
    {
      filteredCategories == Search.SearchCategories(categories, searchTerm)
    }

    constructor()
      ensures Valid() && categories == [] && searchTerm == ""
    {
      categories, filteredCategories, searchTerm := [], [], "";
    }

    /** `fetchCategories`: both lists get the response, then the filter effect runs. */
    method Fetched(response: seq<Category>)
      modifies this
      ensures Valid() && categories == response && searchTerm == old(searchTerm)
      ensures searchTerm == "" ==> filteredCategories == response
    {
      categories := response;
      filteredCategories := response;
      filteredCategories := Search.SearchCategories(categories, searchTerm);
      Search.SearchCategoriesInOrder(categories, searchTerm);
    }

    /** Typing in the search box. */
    method SetSearchTerm(term: string)
      modifies this
      ensures Valid() && searchTerm == term && categories == old(categories)
    {
      searchTerm := term;
      filteredCategories := Search.SearchCategories(categories, searchTerm);
    }

    /** `handleDelete` after the confirmed delete call succeeded. */
    method Delete(id: string)
      modifies this
      ensures Valid() && searchTerm == old(searchTerm)
      ensures categories == Search.WithoutCategory(old(categories), id)
      ensures forall i | 0 <= i < |filteredCategories| :: filteredCategories[i].id != id
    {
      categories := Search.WithoutCategory(categories, id);
      filteredCategories := Search.SearchCategories(categories, searchTerm);
    }

    /** "Showing X of Y categories": X never exceeds Y. */
    method Showing() returns (shown: nat, total: nat)
      requires Valid()
      ensures shown == |filteredCategories| && total == |categories| && shown <= total
    {
      shown, total := |filteredCategories|, |categories|;
    }
  }
}
