/**
 * The server-side field-data validator and the request schemas beside it.
 *
 * `ValidateFieldData` walks a category's schema in order and collects one message
 * per failing field id into an ordered error record; `FieldError` says what
 * message (if any) one field leaves, and `ErrorsOf` what the whole walk leaves.
 */
module Validation {
  import opened Wrappers
  import opened Strings
  import opened Records
  import opened Values
  import opened FieldSchema
  import Lists

  /** The host's `Date.parse`: milliseconds since the epoch, `None` for `NaN`. */
  type DateParser = string -> Option<int>

  // ---- the type rules ----

  /** The rule for `number` and `quantity` fields: a number, then `min`, then `max` (written last, so it wins). */
  function NumberRule(f: FieldConfig, value: Value): (r: Option<string>)
    ensures ToNumber(value).None? ==> r == Some(f.name + " must be a number")
    ensures ToNumber(value).Some? && f.options.max.Some? && ToNumber(value).value > f.options.max.value
      ==> r == Some(f.name + " must be at most " + IntToString(f.options.max.value))
    ensures ToNumber(value).Some? && f.options.min.Some? && ToNumber(value).value < f.options.min.value
        && !(f.options.max.Some? && ToNumber(value).value > f.options.max.value)
      ==> r == Some(f.name + " must be at least " + IntToString(f.options.min.value))
    ensures r.None? <==> (ToNumber(value).Some?
      && (f.options.min.None? || ToNumber(value).value >= f.options.min.value)
      && (f.options.max.None? || ToNumber(value).value <= f.options.max.value))
  {
    match ToNumber(value)
    case None => Some(f.name + " must be a number")
    case Some(num) =>
      var afterMin :=
        if f.options.min.Some? && num < f.options.min.value
        then Some(f.name + " must be at least " + IntToString(f.options.min.value))
        else None;
      if f.options.max.Some? && num > f.options.max.value
      then Some(f.name + " must be at most " + IntToString(f.options.max.value))
      else afterMin
  }

  /** The `switch` on the field type; a type outside the nine has no rule. */
  function TypeRule(f: FieldConfig, value: Value, parseDate: DateParser): (r: Option<string>)
    ensures ParseFieldType(f.kind) in {Some(Number), Some(Quantity)} ==> r == NumberRule(f, value)
    ensures ParseFieldType(f.kind) == Some(Boolean) ==> (r.None? <==> value.Bool?)
    ensures ParseFieldType(f.kind) == Some(Boolean) && r.Some? ==> r.value == f.name + " must be true or false"
    ensures ParseFieldType(f.kind) == Some(Date) ==>
      (r.None? <==> var t := parseDate(ToStr(value)); t.Some? && t.value != 0)
    ensures ParseFieldType(f.kind) == Some(Date) && r.Some? ==> r.value == f.name + " must be a valid date"
    ensures ParseFieldType(f.kind) == Some(Select) ==>
      (r.None? <==> f.options.choices.None? || IncludedIn(value, f.options.choices.value))
    ensures ParseFieldType(f.kind) == Some(Select) && r.Some? ==>
      r.value == f.name + " must be one of: " + Join(f.options.choices.value, ", ")
    ensures ParseFieldType(f.kind) == Some(Tags) ==> (r.None? <==> value.Arr?)
    ensures ParseFieldType(f.kind) == Some(Tags) && r.Some? ==> r.value == f.name + " must be an array"
    ensures ParseFieldType(f.kind) == Some(Image) ==> (r.None? <==> !f.options.multiple || value.Arr?)
    ensures ParseFieldType(f.kind) == Some(Image) && r.Some? ==>
      r.value == f.name + " must be an array for multiple images"
    ensures ParseFieldType(f.kind) in {None, Some(Text), Some(Textarea)} ==> r.None?
  {
    match ParseFieldType(f.kind)
    case Some(Number) => NumberRule(f, value)
    case Some(Quantity) => NumberRule(f, value)
    case Some(Boolean) =>
      if value.Bool? then None else Some(f.name + " must be true or false")
    case Some(Date) =>
      var t := parseDate(ToStr(value));
      if t.None? || t.value == 0 then Some(f.name + " must be a valid date") else None
    case Some(Select) =>
      if f.options.choices.Some? && !IncludedIn(value, f.options.choices.value)
      then Some(f.name + " must be one of: " + Join(f.options.choices.value, ", "))
      else None
    case Some(Tags) =>
      if value.Arr? then None else Some(f.name + " must be an array")
    case Some(Image) =>
      if f.options.multiple && !value.Arr? then Some(f.name + " must be an array for multiple images") else None
    case _ => None
  }

  /**
   * The message one field leaves in the error record, if any: the required
   * check first (which skips the type rule), then the skip of optional falsy
   * values, then the type rule.
   */
  function FieldError(f: FieldConfig, value: Value, parseDate: DateParser): (r: Option<string>)
    ensures f.required && IsEmpty(value) ==> r == Some(f.name + " is required")
    ensures !f.required && !Truthy(value) ==> r == None
    ensures f.required && !IsEmpty(value) ==> r == TypeRule(f, value, parseDate)
    ensures Truthy(value) ==> r == TypeRule(f, value, parseDate)
    ensures r.Some? ==> StartsWith(r.value, f.name)
  {
    if f.required && IsEmpty(value) then Some(f.name + " is required")
    else if !Truthy(value) && !f.required then None
    else TypeRule(f, value, parseDate)
  }

  /** The date test is on falsiness: a date the host parses to the epoch itself is rejected like an unparseable one. */
  lemma EpochDateRejected(f: FieldConfig, value: Value, parseDate: DateParser)
    requires ParseFieldType(f.kind) == Some(Date) && parseDate(ToStr(value)) == Some(0)
    ensures TypeRule(f, value, parseDate) == Some(f.name + " must be a valid date")
  {
  }

  /** A required field holding `0` or `false` is not missing: it goes on to its type rule. */
  lemma RequiredFalsyIsChecked(f: FieldConfig, value: Value, parseDate: DateParser)
    requires f.required && (value == Num(0) || value == Bool(false))
    ensures FieldError(f, value, parseDate) == TypeRule(f, value, parseDate)
  {
  }

  // ---- the walk over the schema ----

  /** One iteration of the walk: a failing field writes its message under its id. */
  function Step(errors: Record<string>, f: FieldConfig, data: Record<Value>, parseDate: DateParser): Record<string> {
    match FieldError(f, Lookup(data, f.id), parseDate)
    case None => errors
    case Some(m) => Set(errors, f.id, m)
  }

  /** The error record after walking `config` in order. */
  function ErrorsOf(config: seq<FieldConfig>, data: Record<Value>, parseDate: DateParser): Record<string>
    decreases |config|
  {
    if |config| == 0 then []
    else Step(ErrorsOf(config[..|config| - 1], data, parseDate), config[|config| - 1], data, parseDate)
  }

  /**
   * `validateFieldData(fieldData, fieldConfig)`: the loop writes `errors[field.id]`
   * for each failure, `continue`s after a missing required value and after an
   * optional falsy one, and reports `isValid` when no key was written.
   */
  method ValidateFieldData(fieldData: Record<Value>, fieldConfig: seq<FieldConfig>, parseDate: DateParser)
    returns (isValid: bool, errors: Record<string>)
    ensures errors == ErrorsOf(fieldConfig, fieldData, parseDate)
    ensures isValid <==> |errors| == 0
  {
    errors := [];
    for i := 0 to |fieldConfig|
      invariant errors == ErrorsOf(fieldConfig[..i], fieldData, parseDate)
    {
      assert fieldConfig[..i + 1][..i] == fieldConfig[..i];
      var field := fieldConfig[i];
      var value := Lookup(fieldData, field.id);

      if field.required && (value == Undefined || value == Null || value == Str("")) {
        errors := Set(errors, field.id, field.name + " is required");
        continue;
      }

      if !Truthy(value) && !field.required {
        continue;
      }

      errors := CheckType(errors, field, value, parseDate);
    }
    assert fieldConfig[..|fieldConfig|] == fieldConfig;
    isValid := |errors| == 0;
  }

  /** The record after writing the type rule's message, if any, under the field's id. */
  function WithTypeRule(errors: Record<string>, f: FieldConfig, value: Value, parseDate: DateParser): (r: Record<string>)
    ensures TypeRule(f, value, parseDate).None? ==> r == errors
    ensures TypeRule(f, value, parseDate).Some? ==> r == Set(errors, f.id, TypeRule(f, value, parseDate).value)
  {
    match TypeRule(f, value, parseDate)
    case None => errors
    case Some(m) => Set(errors, f.id, m)
  }

  /** The type rule touches only the field's own entry, and leaves its message there when it fails. */
  lemma WithTypeRuleGet(errors: Record<string>, f: FieldConfig, value: Value, parseDate: DateParser, k: string)
    ensures var m := TypeRule(f, value, parseDate);
      Get(WithTypeRule(errors, f, value, parseDate), k) == if k == f.id && m.Some? then m else Get(errors, k)
  {
    match TypeRule(f, value, parseDate)
    case None =>
    case Some(m) => SetGet(errors, f.id, m);
  }

  /** The `switch` of the loop body: each case writes its message under the field's id. */
  method CheckType(errors: Record<string>, field: FieldConfig, value: Value, parseDate: DateParser)
    returns (r: Record<string>)
    ensures r == WithTypeRule(errors, field, value, parseDate)
  {
    r := errors;
    match ParseFieldType(field.kind)
    case Some(Number) | Some(Quantity) =>
      r := CheckNumber(errors, field, value);
    case Some(Boolean) =>
      if !value.Bool? {
        r := Set(r, field.id, field.name + " must be true or false");
      }
    case Some(Date) =>
      var t := parseDate(ToStr(value));
      if t.None? || t.value == 0 {
        r := Set(r, field.id, field.name + " must be a valid date");
      }
    case Some(Select) =>
      if field.options.choices.Some? && !IncludedIn(value, field.options.choices.value) {
        r := Set(r, field.id, field.name + " must be one of: " + Join(field.options.choices.value, ", "));
      }
    case Some(Tags) =>
      if !value.Arr? {
        r := Set(r, field.id, field.name + " must be an array");
      }
    case Some(Image) =>
      if field.options.multiple && !value.Arr? {
        r := Set(r, field.id, field.name + " must be an array for multiple images");
      }
    case _ =>
  }

  /** The `number` and `quantity` case: the `min` write, then the `max` write over it. */
  method CheckNumber(errors: Record<string>, field: FieldConfig, value: Value) returns (r: Record<string>)
    ensures NumberRule(field, value).None? ==> r == errors
    ensures NumberRule(field, value).Some? ==> r == Set(errors, field.id, NumberRule(field, value).value)
  {
    r := errors;
    var num := ToNumber(value);
    if num.None? {
      r := Set(r, field.id, field.name + " must be a number");
    } else {
      var atLeast := field.name + " must be at least " + IntToString(field.options.min.GetOr(0));
      var atMost := field.name + " must be at most " + IntToString(field.options.max.GetOr(0));
      if field.options.min.Some? && num.value < field.options.min.value {
        r := Set(r, field.id, atLeast);
      }
      if field.options.max.Some? && num.value > field.options.max.value {
        if r != errors {
          SetSet(errors, field.id, atLeast, atMost);
        }
        r := Set(r, field.id, atMost);
      }
    }
  }

  // ---- what the walk guarantees ----

  /** Only ids of the schema ever appear in the error record, and none twice. */
  lemma {:induction false} ErrorKeysAreFieldIds(config: seq<FieldConfig>, data: Record<Value>, parseDate: DateParser)
    ensures forall k | k in Keys(ErrorsOf(config, data, parseDate)) :: k in Ids(config)
    ensures UniqueKeys(ErrorsOf(config, data, parseDate))
    decreases |config|
  {
    if |config| > 0 {
      var init := config[..|config| - 1];
      var f := config[|config| - 1];
      ErrorKeysAreFieldIds(init, data, parseDate);
      var e := ErrorsOf(init, data, parseDate);
      assert forall k | k in Ids(init) :: k in Ids(config) by {
        forall k | k in Ids(init) ensures k in Ids(config) {
          var j :| 0 <= j < |init| && Ids(init)[j] == k;
          assert Ids(config)[j] == k;
        }
      }
      assert f.id == Ids(config)[|config| - 1];
      match FieldError(f, Lookup(data, f.id), parseDate)
      case None =>
      case Some(m) =>
        SetKeys(e, f.id, m);
        SetKeepsKeysUnique(e, f.id, m);
    }
  }

  /** `isValid` holds exactly when no field of the schema fails. */
  lemma {:induction false} ValidIffNoFieldFails(config: seq<FieldConfig>, data: Record<Value>, parseDate: DateParser)
    ensures |ErrorsOf(config, data, parseDate)| == 0
      <==> forall i | 0 <= i < |config| :: FieldError(config[i], Lookup(data, config[i].id), parseDate).None?
    decreases |config|
  {
    if |config| > 0 {
      var init := config[..|config| - 1];
      ValidIffNoFieldFails(init, data, parseDate);
      assert forall i | 0 <= i < |init| :: init[i] == config[i];
    }
  }

  /** A key never written by the walk reads as missing. */
  lemma NotAFieldIdNotReported(config: seq<FieldConfig>, data: Record<Value>, parseDate: DateParser, k: string)
    requires k !in Ids(config)
    ensures Get(ErrorsOf(config, data, parseDate), k).None?
  {
    ErrorKeysAreFieldIds(config, data, parseDate);
  }

  /** What one step leaves under a key: the field's message under its own id, otherwise the old entry. */
  lemma StepGet(e: Record<string>, f: FieldConfig, data: Record<Value>, parseDate: DateParser, k: string)
    ensures var m := FieldError(f, Lookup(data, f.id), parseDate);
      Get(Step(e, f, data, parseDate), k) == if k == f.id && m.Some? then m else Get(e, k)
  {
    match FieldError(f, Lookup(data, f.id), parseDate)
    case None =>
    case Some(m) => SetGet(e, f.id, m);
  }

  /**
   * Collect-all: with distinct ids, the record holds, for every field of the
   * schema, exactly the message that field's own check produces — one failing
   * field does not hide another.
   */
  lemma {:induction false} ErrorsOfEachField(config: seq<FieldConfig>, data: Record<Value>, parseDate: DateParser)
    requires UniqueIds(config)
    ensures forall i | 0 <= i < |config| ::
      Get(ErrorsOf(config, data, parseDate), config[i].id) == FieldError(config[i], Lookup(data, config[i].id), parseDate)
    decreases |config|
  {
    if |config| > 0 {
      var n := |config| - 1;
      var init := config[..n];
      UniqueIdsInit(config);
      ErrorsOfEachField(init, data, parseDate);
      NotAFieldIdNotReported(init, data, parseDate, config[n].id);
      forall i | 0 <= i < |config|
        ensures Get(ErrorsOf(config, data, parseDate), config[i].id) == FieldError(config[i], Lookup(data, config[i].id), parseDate)
      {
        if i < n {
          assert init[i] == config[i];
          ErrorsOfLastGet(config, data, parseDate, config[i].id);
        } else {
          ErrorsOfLastGet(config, data, parseDate, config[n].id);
        }
      }
    }
  }

  /** The last field of the schema decides its own id's entry; other entries are those of the shorter schema. */
  lemma ErrorsOfLastGet(config: seq<FieldConfig>, data: Record<Value>, parseDate: DateParser, k: string)
    requires |config| > 0
    ensures var n := |config| - 1;
      var m := FieldError(config[n], Lookup(data, config[n].id), parseDate);
      Get(ErrorsOf(config, data, parseDate), k) == if k == config[n].id && m.Some? then m else Get(ErrorsOf(config[..n], data, parseDate), k)
  {
    var n := |config| - 1;
    StepGet(ErrorsOf(config[..n], data, parseDate), config[n], data, parseDate, k);
  }

  /** Values under ids that are not in the schema are never examined. */
  lemma {:induction false} ErrorsIgnoreOtherIds(config: seq<FieldConfig>, d1: Record<Value>, d2: Record<Value>, parseDate: DateParser)
    requires forall i | 0 <= i < |config| :: Lookup(d1, config[i].id) == Lookup(d2, config[i].id)
    ensures ErrorsOf(config, d1, parseDate) == ErrorsOf(config, d2, parseDate)
    decreases |config|
  {
    if |config| > 0 {
      var init := config[..|config| - 1];
      assert forall i | 0 <= i < |init| :: init[i] == config[i];
      ErrorsIgnoreOtherIds(init, d1, d2, parseDate);
    }
  }

  /** After a field is removed from a schema with distinct ids, re-validating old data never reports its id. */
  lemma RemovedFieldNotReported(config: seq<FieldConfig>, i: int, data: Record<Value>, parseDate: DateParser)
    requires UniqueIds(config) && 0 <= i < |config|
    ensures config[i].id !in Keys(ErrorsOf(Lists.RemoveAt(config, i), data, parseDate))
  {
    var rest := Lists.RemoveAt(config, i);
    assert config[i].id !in Ids(rest) by {
      forall j | 0 <= j < |rest| ensures Ids(rest)[j] != config[i].id {
        if j < i { assert rest[j] == config[j]; } else { assert rest[j] == config[j + 1]; }
      }
    }
    ErrorKeysAreFieldIds(rest, data, parseDate);
  }

  // ---- worked examples ----

  /** A required number field with bounds 1..10. */
  const SizeField := FieldConfig("f1", "Size", "number", true, NoOptions.(min := Some(1), max := Some(10)))

  lemma SizeFieldExamples(parseDate: DateParser)
    ensures ErrorsOf([SizeField], [], parseDate) == [("f1", "Size is required")]
    ensures ErrorsOf([SizeField], [("f1", Num(15))], parseDate) == [("f1", "Size must be at most 10")]
    ensures ErrorsOf([SizeField], [("f1", Num(5))], parseDate) == []
  {
    SizeFieldMissing(parseDate);
    SizeFieldTooLarge(parseDate);
    OneFieldErrors(SizeField, [("f1", Num(5))], parseDate);
    assert Lookup([("f1", Num(5))], "f1") == Num(5);
  }

  lemma SizeFieldMissing(parseDate: DateParser)
    ensures ErrorsOf([SizeField], [], parseDate) == [("f1", "Size is required")]
  {
    OneFieldErrors(SizeField, [], parseDate);
    assert Lookup([], "f1") == Undefined;
    assert SizeField.name + " is required" == "Size is required";
  }

  lemma SizeFieldTooLarge(parseDate: DateParser)
    ensures ErrorsOf([SizeField], [("f1", Num(15))], parseDate) == [("f1", "Size must be at most 10")]
  {
    OneFieldErrors(SizeField, [("f1", Num(15))], parseDate);
    assert Lookup([("f1", Num(15))], "f1") == Num(15);
    assert ParseFieldType(SizeField.kind) == Some(Number);
    SizeMaxMessage();
  }

  lemma SizeMaxMessage()
    ensures SizeField.name + " must be at most " + IntToString(10) == "Size must be at most 10"
  {
    assert NatToString(1) == "1";
    assert IntToString(10) == "10";
    SizeText();
  }

  lemma SizeText()
    ensures "Size" + " must be at most " + "10" == "Size must be at most 10"
  {
  }

  /** A schema of one field leaves at most that field's message. */
  lemma OneFieldErrors(f: FieldConfig, data: Record<Value>, parseDate: DateParser)
    ensures var e := FieldError(f, Lookup(data, f.id), parseDate);
      ErrorsOf([f], data, parseDate) == if e.Some? then [(f.id, e.value)] else []
  {
    assert [f][..0] == [];
  }

  /** An optional select field with two choices. */
  const ColorField := FieldConfig("f2", "Color", "select", false, NoOptions.(choices := Some(["Red", "Blue"])))

  lemma ColorFieldExample(parseDate: DateParser)
    ensures ErrorsOf([ColorField], [("f2", Str("Green"))], parseDate) == [("f2", "Color must be one of: Red, Blue")]
  {
    var data := [("f2", Str("Green"))];
    assert Lookup(data, "f2") == Str("Green");
    assert Join(["Red", "Blue"], ", ") == "Red, Blue" by {
      assert ["Red", "Blue"][1..] == ["Blue"];
    }
    ColorText();
    assert ColorField.name == "Color";
    assert FieldError(ColorField, Str("Green"), parseDate) == Some("Color must be one of: Red, Blue");
    OneFieldErrors(ColorField, data, parseDate);
  }

  lemma ColorText()
    ensures "Color" + " must be one of: " + "Red, Blue" == "Color must be one of: Red, Blue"
  {
  }

  lemma ColorFieldChoiceExample(parseDate: DateParser)
    ensures ErrorsOf([ColorField], [("f2", Str("Red"))], parseDate) == []
  {
    var data := [("f2", Str("Red"))];
    assert Lookup(data, "f2") == Str("Red");
    assert FieldError(ColorField, Str("Red"), parseDate) == None;
    OneFieldErrors(ColorField, data, parseDate);
  }

  /** An optional image field holding several images. */
  const PhotosField := FieldConfig("f3", "Photos", "image", false, NoOptions.(multiple := true))

  lemma PhotosFieldExample(parseDate: DateParser)
    ensures ErrorsOf([PhotosField], [("f3", Str("not-an-array"))], parseDate) == [("f3", "Photos must be an array for multiple images")]
  {
    var data := [("f3", Str("not-an-array"))];
    assert Lookup(data, "f3") == Str("not-an-array");
    PhotosStringError(parseDate);
    OneFieldErrors(PhotosField, data, parseDate);
  }

  lemma PhotosStringError(parseDate: DateParser)
    ensures FieldError(PhotosField, Str("not-an-array"), parseDate) == Some("Photos must be an array for multiple images")
  {
    PhotosStringRule(parseDate);
    assert Truthy(Str("not-an-array"));
  }

  lemma PhotosStringRule(parseDate: DateParser)
    ensures TypeRule(PhotosField, Str("not-an-array"), parseDate) == Some("Photos must be an array for multiple images")
  {
    PhotosRuleMessage(parseDate);
    PhotosMessageText();
  }

  lemma PhotosRuleMessage(parseDate: DateParser)
    ensures TypeRule(PhotosField, Str("not-an-array"), parseDate) == Some(PhotosField.name + " must be an array for multiple images")
  {
    assert ParseFieldType(PhotosField.kind) == Some(Image);
  }

  lemma PhotosMessageText()
    ensures PhotosField.name + " must be an array for multiple images" == "Photos must be an array for multiple images"
  {
    PhotosText();
  }

  lemma PhotosText()
    ensures "Photos" + " must be an array for multiple images" == "Photos must be an array for multiple images"
  {
  }

  lemma PhotosFieldArrayExample(parseDate: DateParser)
    ensures ErrorsOf([PhotosField], [("f3", Arr(["a.png", "b.png"]))], parseDate) == []
  {
    var data := [("f3", Arr(["a.png", "b.png"]))];
    assert Lookup(data, "f3") == Arr(["a.png", "b.png"]);
    OneFieldErrors(PhotosField, data, parseDate);
  }

  // ---- the request schemas ----

  /** `fieldConfigSchema`: a non-empty field name and a type name from the enum. */
  predicate FieldConfigAccepted(f: FieldConfig) {
    |f.name| >= 1 && ParseFieldType(f.kind).Some?
  }

  predicate IsHexDigit(c: char) {
    '0' <= c <= '9' || 'a' <= c <= 'f' || 'A' <= c <= 'F'
  }

  /** The colour pattern `^#[0-9A-F]{6}$`, case-insensitive. */
  predicate IsHexColor(s: string) {
    |s| == 7 && s[0] == '#' && forall i | 1 <= i < 7 :: IsHexDigit(s[i])
  }

  /** `categorySchema`: name length 1..255, description at most 1000, icon at most 50, every field accepted. */
  predicate CategoryAccepted(name: string, description: Option<string>, fieldConfig: seq<FieldConfig>, color: Option<string>, icon: Option<string>) {
    && 1 <= |name| <= 255
    && (description.None? || |description.value| <= 1000)
    && (forall i | 0 <= i < |fieldConfig| :: FieldConfigAccepted(fieldConfig[i]))
    && (color.None? || IsHexColor(color.value))
    && (icon.None? || |icon.value| <= 50)
  }

  /** `itemSchema` apart from the UUID format of `category_id`: name length 1..255, description at most 1000. */
  predicate ItemAccepted(name: string, description: Option<string>) {
    1 <= |name| <= 255 && (description.None? || |description.value| <= 1000)
  }
}
