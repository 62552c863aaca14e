/**
 * The checks the items controller makes around its storage calls: the
 * pagination window of a listing, the validation of field data on create and
 * update, and the guards of the bulk update.
 */
module ItemsController {
  import opened Wrappers
  import opened Strings
  import opened Records
  import opened Values
  import opened FieldSchema
  import opened Http
  import Validation
  import Lists

  // ---- pagination ----

  const DefaultPage: string := "1"
  const DefaultLimit: string := "10"
  const MaxLimit: int := 100

  function Max(a: int, b: int): int { if a < b then b else a }
  function Min(a: int, b: int): int { if a < b then a else b }

  /** The rows a listing asks for: page and limit after clamping, and the inclusive range `[offset, last]`. */
  datatype Window = Window(page: int, limit: int, offset: int, last: int)

  /** `parseInt(param)` with the parameter's default when it is absent. */
  function ParseParam(raw: Option<string>, default: string): Option<int> {
    ParseLeadingInt(raw.GetOr(default))
  }

  /** The window of a clamped page and limit. */
  function WindowOf(pageNum: int, limitNum: int): (w: Window)
    requires pageNum >= 1 && limitNum >= 1
    ensures w.page == pageNum && w.limit == limitNum
    ensures w.offset == (pageNum - 1) * limitNum >= 0
    ensures w.last - w.offset + 1 == limitNum
  {
    var offset := (pageNum - 1) * limitNum;
    Window(pageNum, limitNum, offset, offset + limitNum - 1)
  }

  /** `Math.max(1, page)` and `Math.min(100, Math.max(1, limit))`, then the window of the clamped values. */
  function ClampedWindow(page: int, limit: int): (w: Window)
    ensures w.page == Max(1, page) && w.limit == Min(MaxLimit, Max(1, limit))
    ensures w.page >= 1 && 1 <= w.limit <= MaxLimit
    ensures w.offset == (w.page - 1) * w.limit >= 0
    ensures w.last - w.offset + 1 == w.limit
  {
    WindowOf(Max(1, page), Min(MaxLimit, Max(1, limit)))
  }

  /**
   * `page = '1'`, `limit = '10'`, `Math.max(1, parseInt(page))`,
   * `Math.min(100, Math.max(1, parseInt(limit)))`, the offset and the range.
   * `None` when either parameter does not parse (the host computes with `NaN` then).
   */
  function Pagination(page: Option<string>, limit: Option<string>): (w: Option<Window>)
    ensures w.None? <==> ParseParam(page, DefaultPage).None? || ParseParam(limit, DefaultLimit).None?
    ensures w.Some? ==> w.value.page == Max(1, ParseParam(page, DefaultPage).value)
    ensures w.Some? ==> w.value.limit == Min(MaxLimit, Max(1, ParseParam(limit, DefaultLimit).value))
    ensures w.Some? ==> w.value.page >= 1 && 1 <= w.value.limit <= MaxLimit
    ensures w.Some? ==> w.value.offset == (w.value.page - 1) * w.value.limit >= 0
    ensures w.Some? ==> w.value.last - w.value.offset + 1 == w.value.limit
  {
    var p := ParseParam(page, DefaultPage);
    var l := ParseParam(limit, DefaultLimit);
    if p.None? || l.None? then None
    else Some(ClampedWindow(p.value, l.value))
  }

  /** Without parameters a listing asks for rows 0 to 9 of page 1. */
  lemma DefaultPagination()
    ensures Pagination(None, None) == Some(Window(1, 10, 0, 9))
  {
    ParseOne();
    ParseTen();
  }

  lemma ParseOne()
    ensures ParseLeadingInt(DefaultPage) == Some(1)
  {
    assert IntToString(1) == DefaultPage;
    ParseLeadingIntOfIntToString(1);
  }

  lemma ParseTen()
    ensures ParseLeadingInt(DefaultLimit) == Some(10)
  {
    assert NatToString(1) == "1";
    assert IntToString(10) == DefaultLimit;
    ParseLeadingIntOfIntToString(10);
  }

  /** A limit above 100 is cut to 100, and a page below 1 is raised to 1. */
  lemma PaginationClamps(page: int, limit: int)
    ensures var w := Pagination(Some(IntToString(page)), Some(IntToString(limit)));
      w.Some? && w.value.page == Max(1, page) && w.value.limit == Min(MaxLimit, Max(1, limit))
  {
    ParseLeadingIntOfIntToString(page);
    ParseLeadingIntOfIntToString(limit);
  }

  /** The window of page `p` for a limit text that parses. */
  lemma PaginationOfPage(p: nat, limit: string)
    requires p >= 1 && ParseLeadingInt(limit).Some?
    ensures Pagination(Some(IntToString(p)), Some(limit)) == Some(WindowOf(p, Min(MaxLimit, Max(1, ParseLeadingInt(limit).value))))
  {
    ParseLeadingIntOfIntToString(p);
  }

  /** Page `p + 1` asks for the rows right after those of page `p`, with no overlap. */
  lemma ConsecutivePagesAdjacent(p: nat, limit: string)
    requires p >= 1 && ParseLeadingInt(limit).Some?
    ensures var w1 := Pagination(Some(IntToString(p)), Some(limit));
      var w2 := Pagination(Some(IntToString(p + 1)), Some(limit));
      w1.Some? && w2.Some? && w2.value.offset == w1.value.last + 1 && w2.value.limit == w1.value.limit
  {
    PaginationOfPage(p, limit);
    PaginationOfPage(p + 1, limit);
    var l := Min(MaxLimit, Max(1, ParseLeadingInt(limit).value));
    assert p * l == (p - 1) * l + l;
  }

  // ---- field-data validation on create and update ----

  const FailurePrefix: string := "Field validation failed: "

  /** `Field validation failed: ${Object.values(errors).join(', ')}`. */
  function ValidationFailureMessage(errors: Record<string>): (m: string)
    ensures m == FailurePrefix + Join(Records.Values(errors), ", ")
    ensures StartsWith(m, FailurePrefix)
    ensures |errors| == 1 ==> m == FailurePrefix + errors[0].1
    ensures forall k | 0 <= k < |errors| :: Contains(m, errors[k].1)
  {
    var m := FailurePrefix + Join(Records.Values(errors), ", ");
    assert m[..|FailurePrefix|] == FailurePrefix;
    MessageListsEveryValue(errors);
    m
  }

  /** Each message of the record occurs in the text that follows the prefix. */
  lemma MessageListsEveryValue(errors: Record<string>)
    ensures forall k | 0 <= k < |errors| :: Contains(FailurePrefix + Join(Records.Values(errors), ", "), errors[k].1)
  {
    forall k | 0 <= k < |errors|
      ensures Contains(FailurePrefix + Join(Records.Values(errors), ", "), errors[k].1)
    {
      assert Records.Values(errors)[k] == errors[k].1;
      JoinContains(Records.Values(errors), ", ", k);
      ContainsAfter(FailurePrefix, Join(Records.Values(errors), ", "), errors[k].1);
    }
  }

  /** With distinct ids, the message of a rejected request carries the message of every failing field. */
  lemma FailureListsEveryField(config: seq<FieldConfig>, data: Record<Value>, parseDate: Validation.DateParser, i: int)
    requires UniqueIds(config) && 0 <= i < |config|
    requires Validation.FieldError(config[i], Lookup(data, config[i].id), parseDate).Some?
    ensures Validation.FieldError(config[i], Lookup(data, config[i].id), parseDate).value
      in Records.Values(Validation.ErrorsOf(config, data, parseDate))
    ensures Contains(ValidationFailureMessage(Validation.ErrorsOf(config, data, parseDate)),
      Validation.FieldError(config[i], Lookup(data, config[i].id), parseDate).value)
  {
    var errors := Validation.ErrorsOf(config, data, parseDate);
    Validation.ErrorsOfEachField(config, data, parseDate);
    GetInValues(errors, config[i].id);
    var k :| 0 <= k < |errors| && Records.Values(errors)[k] == Validation.FieldError(config[i], Lookup(data, config[i].id), parseDate).value;
    assert errors[k].1 == Records.Values(errors)[k];
  }

  /**
   * `createItem` after the body has parsed: 404 when the category is not the
   * user's, 400 with the joined messages when the field data fails its
   * schema, otherwise the insert may go ahead.
   */
  method CreateItemChecks(category: Option<seq<FieldConfig>>, fieldData: Record<Value>, parseDate: Validation.DateParser)
    returns (r: Outcome<()>)
    ensures category.None? ==> r == Failed(NotFound, "Category not found")
    ensures category.Some? ==> (r.Done? <==>
      forall i | 0 <= i < |category.value| ::
        Validation.FieldError(category.value[i], Lookup(fieldData, category.value[i].id), parseDate).None?)
    ensures category.Some? && r.Failed? ==>
      r == Failed(BadRequest, ValidationFailureMessage(Validation.ErrorsOf(category.value, fieldData, parseDate)))
  {
    if category.None? {
      return Failed(NotFound, "Category not found");
    }
    var isValid, errors := Validation.ValidateFieldData(fieldData, category.value, parseDate);
    Validation.ValidIffNoFieldFails(category.value, fieldData, parseDate);
    if !isValid {
      return Failed(BadRequest, "Field validation failed: " + Join(Records.Values(errors), ", "));
    }
    return Done(());
  }

  /**
   * `updateItem` after the body has parsed: 404 when the item is not the
   * user's; the field data is validated only when the request carries it and
   * the item's category is found.
   */
  method UpdateItemChecks(itemFound: bool, fieldData: Option<Record<Value>>, category: Option<seq<FieldConfig>>, parseDate: Validation.DateParser)
    returns (r: Outcome<()>)
    ensures !itemFound ==> r == Failed(NotFound, "Item not found")
    ensures itemFound && (fieldData.None? || category.None?) ==> r == Done(())
    ensures itemFound && fieldData.Some? && category.Some? ==> (r.Done? <==>
      |Validation.ErrorsOf(category.value, fieldData.value, parseDate)| == 0)
    ensures itemFound && fieldData.Some? && category.Some? && r.Failed? ==>
      r == Failed(BadRequest, ValidationFailureMessage(Validation.ErrorsOf(category.value, fieldData.value, parseDate)))
    ensures r.Failed? && itemFound ==> r.status == BadRequest && StartsWith(r.message, FailurePrefix)
  {
    if !itemFound {
      return Failed(NotFound, "Item not found");
    }
    if fieldData.Some? {
      if category.Some? {
        var isValid, errors := Validation.ValidateFieldData(fieldData.value, category.value, parseDate);
        if !isValid {
          return Failed(BadRequest, ValidationFailureMessage(errors));
        }
      }
    }
    return Done(());
  }

  // ---- bulk update ----

  /** The rows `.eq('user_id', userId).in('id', itemIds)` returns: the user's items among the ids, each once. */
  function OwnedRows(owned: set<string>, ids: seq<string>): (rows: set<string>)
    ensures rows <= owned && rows <= Lists.Elements(ids)
    ensures forall id | id in ids && id in owned :: id in rows
  {
    set id | id in ids && id in owned
  }

  /**
   * `bulkUpdateItems` before the update: `itemIds` must be a non-empty array,
   * and the lookup (`owned`: the user's item ids, `None` when it fails) must
   * return as many rows as ids were sent.
   */
  function BulkUpdateChecks(itemIds: Value, owned: Option<set<string>>): (r: Outcome<seq<string>>)
    ensures !itemIds.Arr? || |itemIds.items| == 0 ==> r == Failed(BadRequest, "Item IDs are required")
    ensures r.Done? ==> r.value == itemIds.items && |r.value| > 0 && owned.Some?
    ensures r.Failed? && itemIds.Arr? && |itemIds.items| > 0 ==> r == Failed(NotFound, "Some items not found or access denied")
  {
    if !itemIds.Arr? || |itemIds.items| == 0 then Failed(BadRequest, "Item IDs are required")
    else if owned.None? || |OwnedRows(owned.value, itemIds.items)| != |itemIds.items| then
      Failed(NotFound, "Some items not found or access denied")
    else Done(itemIds.items)
  }

  /** An accepted bulk update touches only the user's items, and lists no id twice. */
  lemma BulkUpdateOnlyOwned(itemIds: Value, owned: Option<set<string>>)
    requires BulkUpdateChecks(itemIds, owned).Done?
    ensures forall i | 0 <= i < |itemIds.items| :: itemIds.items[i] in owned.value
    ensures Lists.Distinct(itemIds.items)
  {
    var ids := itemIds.items;
    var rows := OwnedRows(owned.value, ids);
    Lists.ElementsCount(ids);
    assert rows == Lists.Elements(ids) by {
      if rows != Lists.Elements(ids) {
        Lists.ProperSubsetCount(rows, Lists.Elements(ids));
      }
    }
  }

  /** Sending every id the user owns, distinct, passes the guard. */
  lemma BulkUpdateOwnedAccepted(ids: seq<string>, owned: set<string>)
    requires |ids| > 0 && Lists.Distinct(ids)
    requires forall i | 0 <= i < |ids| :: ids[i] in owned
    ensures BulkUpdateChecks(Arr(ids), Some(owned)) == Done(ids)
  {
    Lists.ElementsCount(ids);
    assert OwnedRows(owned, ids) == Lists.Elements(ids);
  }

  /** An id sent twice makes the guard refuse the request, even when every item is the user's. */
  lemma BulkUpdateRefusesRepeatedId(ids: seq<string>, owned: set<string>)
    requires |ids| > 0 && !Lists.Distinct(ids)
    ensures BulkUpdateChecks(Arr(ids), Some(owned)) == Failed(NotFound, "Some items not found or access denied")
  {
    Lists.ElementsCount(ids);
    assert |OwnedRows(owned, ids)| <= |Lists.Elements(ids)| by {
      Lists.SubsetCount(OwnedRows(owned, ids), Lists.Elements(ids));
    }
  }
}
