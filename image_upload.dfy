/**
 * The image field: the previews it derives from its value, the value it hands
 * back after files are uploaded, and the value after one image is removed.
 * The upload service is a parameter: the URL it returns for each file, or
 * `None` when the request fails.
 */
module ImageUpload {
  import opened Wrappers
  import opened Values
  import Lists

  predicate NonEmpty(s: string) {
    s != ""
  }

  /**
   * The effect on `[value]`: an array's non-empty entries, any other truthy value
   * alone (a preview's `src` is its string form), or nothing.
   */
  function Previews(value: Value): (ps: seq<string>)
    ensures value.Arr? ==> ps == Lists.Filter(value.items, NonEmpty)
    ensures value.Str? && value.s != "" ==> ps == [value.s]
    ensures !value.Arr? && Truthy(value) ==> ps == [ToStr(value)]
    ensures !value.Arr? && !Truthy(value) ==> ps == []
    ensures forall i | 0 <= i < |ps| :: ps[i] != ""
  {
    match value
    case Arr(xs) => Lists.Filter(xs, NonEmpty)
    case _ => if Truthy(value) then [ToStr(value)] else []
  }

  /** The previews of an array are its non-empty entries in their order. */
  lemma PreviewsInOrder(xs: seq<string>)
    ensures Lists.IsSubsequence(Previews(Arr(xs)), xs)
  {
    Lists.FilterIsSubsequence(xs, NonEmpty);
  }

  /** `Array.isArray(value) ? value : (value ? [value] : [])`: the URLs already held. */
  function CurrentUrls(value: Value): (urls: seq<string>)
    requires value.Arr? || value.Str?
    ensures value.Arr? ==> urls == value.items
    ensures value.Str? ==> urls == if value.s != "" then [value.s] else []
  {
    if value.Arr? then value.items
    else if Truthy(value) then [value.s]
    else []
  }

  /** The URLs of the first `n` uploads, all of which succeeded. */
  function UploadedUrls(uploads: seq<Option<string>>, n: nat): (urls: seq<string>)
    requires n <= |uploads|
    requires forall i | 0 <= i < n :: uploads[i].Some?
    ensures |urls| == n
    ensures forall i | 0 <= i < n :: urls[i] == uploads[i].value
  {
    seq(n, i requires 0 <= i < n => uploads[i].value)
  }

  /** Whether every upload succeeded. */
  predicate AllSucceeded(uploads: seq<Option<string>>) {
    forall i | 0 <= i < |uploads| :: uploads[i].Some?
  }

  /**
   * `handleFileSelect`: `uploads[i]` is the answer of the upload service for the
   * i-th selected file. Returns the value passed to `onChange`, or `None` when
   * it is not called: no file selected, or an upload failed (the loop stops at
   * the first failure and the value is left as it was).
   */
  method HandleFileSelect(value: Value, multiple: bool, uploads: seq<Option<string>>) returns (changed: Option<Value>)
    requires value.Arr? || value.Str?
    ensures |uploads| == 0 ==> changed == None
    ensures multiple && |uploads| > 0 ==>
      changed == if AllSucceeded(uploads) then Some(Arr(CurrentUrls(value) + UploadedUrls(uploads, |uploads|))) else None
    ensures !multiple && |uploads| > 0 ==>
      changed == if uploads[0].Some? then Some(Str(uploads[0].value)) else None
  {
    if |uploads| == 0 {
      return None;
    }
    if multiple {
      var uploadedUrls: seq<string> := [];
      var i := 0;
      while i < |uploads|
        invariant 0 <= i <= |uploads|
        invariant forall j | 0 <= j < i :: uploads[j].Some?
        invariant uploadedUrls == UploadedUrls(uploads, i)
      {
        var response := uploads[i];
        if response.None? {
          return None;
        }
        uploadedUrls := uploadedUrls + [response.value];
        i := i + 1;
      }
      var currentUrls := if value.Arr? then value.items else if Truthy(value) then [value.s] else [];
      changed := Some(Arr(currentUrls + uploadedUrls));
    } else {
      var response := uploads[0];
      if response.None? {
        return None;
      }
      changed := Some(Str(response.value));
    }
  }

  /** In multiple mode, the held URLs stay first and in order, followed by one URL per file. */
  lemma UploadKeepsHeldUrls(value: Value, uploads: seq<Option<string>>)
    requires value.Arr? || value.Str?
    requires |uploads| > 0 && AllSucceeded(uploads)
    ensures var v := CurrentUrls(value) + UploadedUrls(uploads, |uploads|);
      |v| == |CurrentUrls(value)| + |uploads| && CurrentUrls(value) <= v
  {
  }

  /**
   * `removeImage(index)`: an array in multiple mode loses exactly that index;
   * any other value is cleared to `[]` or `''`.
   */
  function RemoveImage(value: Value, multiple: bool, index: int): (v: Value)
    ensures multiple && value.Arr? ==> v == Arr(Lists.RemoveAt(value.items, index))
    ensures !(multiple && value.Arr?) ==> v == if multiple then Arr([]) else Str("")
  {
    if multiple && value.Arr? then Arr(Lists.RemoveAt(value.items, index))
    else if multiple then Arr([])
    else Str("")
  }

  /** Removing an index in range shortens the array by one and keeps the others in order. */
  lemma RemoveImageShape(xs: seq<string>, index: int)
    requires 0 <= index < |xs|
    ensures var ys := RemoveImage(Arr(xs), true, index).items;
      |ys| == |xs| - 1
      && (forall j | 0 <= j < index :: ys[j] == xs[j])
      && (forall j | index <= j < |ys| :: ys[j] == xs[j + 1])
  {
  }

  /** Removing an index out of range leaves the array as it is. */
  lemma RemoveImageOutOfRange(xs: seq<string>, index: int)
    requires index < 0 || index >= |xs|
    ensures RemoveImage(Arr(xs), true, index) == Arr(xs)
  {
  }
}
