/**
 * The dashboard: the total item count over all categories and the first
 * categories it shows.
 */
module Dashboard {
  import opened Entities
  import Lists

  /** `cat.items?.[0]?.count || 0`: the count of the first counting row, or 0. */
  function ItemCount(c: Category): (n: int)
    ensures c.itemCounts.None? || |c.itemCounts.value| == 0 ==> n == 0
    ensures c.itemCounts.Some? && |c.itemCounts.value| > 0 ==> n == c.itemCounts.value[0]
  {
    match c.itemCounts
    case Some(counts) => if |counts| > 0 && counts[0] != 0 then counts[0] else 0
    case None => 0
  }

  /** `categories.reduce((sum, cat) => sum + count(cat), 0)`, folding from the left. */
  function TotalItems(cs: seq<Category>): (t: int)
    ensures (forall i | 0 <= i < |cs| :: cs[i].itemCounts.None? || |cs[i].itemCounts.value| == 0) ==> t == 0
    decreases |cs|
  {
    if |cs| == 0 then 0 else TotalItems(cs[..|cs| - 1]) + ItemCount(cs[|cs| - 1])
  }

  /** The total of two lists placed one after the other is the sum of their totals. */
  lemma {:induction false} TotalItemsAppend(a: seq<Category>, b: seq<Category>)
    ensures TotalItems(a + b) == TotalItems(a) + TotalItems(b)
    decreases |b|
  {
    if |b| > 0 {
      var n := |b| - 1;
      assert (a + b)[..|a + b| - 1] == a + b[..n];
      assert (a + b)[|a + b| - 1] == b[n];
      TotalItemsAppend(a, b[..n]);
    } else {
      assert a + b == a;
    }
  }

  /** A category without counting rows adds nothing to the total. */
  lemma UncountedCategoryAddsNothing(cs: seq<Category>, c: Category)
    requires c.itemCounts.None? || |c.itemCounts.value| == 0
    ensures TotalItems(cs + [c]) == TotalItems(cs)
  {
    assert (cs + [c])[..|cs|] == cs;
  }

  /** With non-negative counts the total is at least every single category's count. */
  lemma {:induction false} TotalItemsBounds(cs: seq<Category>, i: int)
    requires forall j | 0 <= j < |cs| :: ItemCount(cs[j]) >= 0
    requires 0 <= i < |cs|
    ensures 0 <= ItemCount(cs[i]) <= TotalItems(cs)
    decreases |cs|
  {
    var n := |cs| - 1;
    assert forall j | 0 <= j < n :: cs[..n][j] == cs[j];
    TotalItemsNonNegative(cs[..n]);
    if i < n {
      TotalItemsBounds(cs[..n], i);
    }
  }

  lemma {:induction false} TotalItemsNonNegative(cs: seq<Category>)
    requires forall j | 0 <= j < |cs| :: ItemCount(cs[j]) >= 0
    ensures TotalItems(cs) >= 0
    decreases |cs|
  {
    if |cs| > 0 {
      var n := |cs| - 1;
      assert forall j | 0 <= j < n :: cs[..n][j] == cs[j];
      TotalItemsNonNegative(cs[..n]);
    }
  }

  const MaxRecent: nat := 6

  /** What the "Recent Categories" section shows. */
  datatype RecentView = EmptyState | Cards(shown: seq<Category>)

  /** The empty state for no categories, otherwise `categories.slice(0, 6)`. */
  function Recent(cs: seq<Category>): (v: RecentView)
    ensures v.EmptyState? <==> |cs| == 0
    ensures v.Cards? ==> 0 < |v.shown| <= MaxRecent && v.shown <= cs
    ensures v.Cards? && |cs| >= MaxRecent ==> |v.shown| == MaxRecent
    ensures v.Cards? && |cs| < MaxRecent ==> v.shown == cs
  {
    if |cs| == 0 then EmptyState else Cards(Lists.Take(cs, MaxRecent))
  }
}
