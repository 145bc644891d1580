/** The gallery: filter buttons derived from the items' categories, and the
    items shown for the selected filter. */
module GallerySection {

  /** A gallery entry; the before/after image URLs are presentation only. */
  datatype GalleryItem = GalleryItem(id: int, title: string, category: string)

  const GalleryItems: seq<GalleryItem> := [
    GalleryItem(1, "Modern Bob Transformation", "Cut"),
    GalleryItem(2, "Platinum Blonde Masterpiece", "Color"),
    GalleryItem(3, "Textured Pixie Revolution", "Style"),
    GalleryItem(4, "Rich Auburn Transformation", "Color"),
    GalleryItem(5, "Elegant Wedding Updo", "Special"),
    GalleryItem(6, "Men's Executive Cut", "Cut")
  ]

  /** The filter value that shows every item, and the first button. */
  const AllFilter := "All"

  predicate NoDuplicates<T(==)>(xs: seq<T>)
  {
    forall i, j | 0 <= i < j < |xs| :: xs[i] != xs[j]
  }

  /** The position of the first occurrence of `x`, or `|xs|` when it does not occur. */
  function FirstIndex<T(==)>(xs: seq<T>, x: T): (k: nat)
    ensures k <= |xs| && x !in xs[..k]
    ensures k < |xs| <==> x in xs
    ensures k < |xs| ==> xs[k] == x
  {
    if xs == [] then 0
    else if xs[0] == x then 0
    else 1 + FirstIndex(xs[1..], x)
  }

  /** `[...new Set(xs)]`: each value once, in the order a `Set` keeps, which
      is the order of first insertion. Built the way a `Set` is filled, one
      element at a time from the left. */
  function Distinct<T(==)>(xs: seq<T>): seq<T>
    decreases |xs|
  {
    if xs == [] then []
    else
      var r := Distinct(xs[..|xs| - 1]);
      var last := xs[|xs| - 1];
      if last in r then r else r + [last]
  }

  /** `Distinct` keeps each value once and loses none. */
  lemma {:induction false} DistinctSameValuesOnce<T>(xs: seq<T>)
    ensures NoDuplicates(Distinct(xs))
    ensures forall x | x in Distinct(xs) :: x in xs
    ensures forall x | x in xs :: x in Distinct(xs)
  {
    if xs != [] {
      var p, last := xs[..|xs| - 1], xs[|xs| - 1];
      assert xs == p + [last];
      DistinctSameValuesOnce(p);
    }
  }

  /** A first occurrence stays first when something is appended. */
  lemma {:induction false} FirstIndexAppend<T>(p: seq<T>, y: T, x: T)
    requires x in p + [y]
    ensures x in p ==> FirstIndex(p + [y], x) == FirstIndex(p, x)
    ensures x !in p ==> FirstIndex(p + [y], x) == |p|
  {
    if p == [] {
      assert [y][..0] == [];
    } else if p[0] != x {
      assert (p + [y])[1..] == p[1..] + [y];
      FirstIndexAppend(p[1..], y, x);
    }
  }

  /** `Distinct` lists the values in the order of their first occurrence. */
  lemma {:induction false} DistinctKeepsFirstOccurrenceOrder<T>(xs: seq<T>)
    ensures forall i, j | 0 <= i < j < |Distinct(xs)| ::
      FirstIndex(xs, Distinct(xs)[i]) < FirstIndex(xs, Distinct(xs)[j])
  {
    if xs != [] {
      var p, last := xs[..|xs| - 1], xs[|xs| - 1];
      assert xs == p + [last];
      var r', r := Distinct(p), Distinct(xs);
      DistinctKeepsFirstOccurrenceOrder(p);
      DistinctSameValuesOnce(p);
      forall i, j | 0 <= i < j < |r|
        ensures FirstIndex(xs, r[i]) < FirstIndex(xs, r[j])
      {
        assert r[i] in r' && r[i] in p;
        FirstIndexAppend(p, last, r[i]);
        FirstIndexAppend(p, last, r[j]);
        if j == |r'| {
          assert r[j] == last && last !in p;
        } else {
          assert r[j] == r'[j];
        }
      }
    }
  }

  /** `galleryItems.map(item => item.category)`. */
  function CategoriesOf(items: seq<GalleryItem>): (cs: seq<string>)
    ensures |cs| == |items| && forall k | 0 <= k < |items| :: cs[k] == items[k].category
  {
    seq(|items|, k requires 0 <= k < |items| => items[k].category)
  }

  /** `['All', ...new Set(galleryItems.map(item => item.category))]`. */
  function Categories(items: seq<GalleryItem>): seq<string>
  {
    [AllFilter] + Distinct(CategoriesOf(items))
  }

  /** The buttons start with "All", then list every item's category once,
      each of them an item's category, in order of first appearance. */
  lemma CategoriesShape(items: seq<GalleryItem>)
    ensures Categories(items)[0] == AllFilter
    ensures NoDuplicates(Categories(items)[1..])
    ensures forall k | 0 <= k < |items| :: items[k].category in Categories(items)[1..]
    ensures forall c | c in Categories(items)[1..] :: exists k | 0 <= k < |items| :: items[k].category == c
    ensures forall i, j | 1 <= i < j < |Categories(items)| ::
      FirstIndex(CategoriesOf(items), Categories(items)[i]) < FirstIndex(CategoriesOf(items), Categories(items)[j])
  {
    var cs := CategoriesOf(items);
    assert Categories(items)[1..] == Distinct(cs);
    DistinctSameValuesOnce(cs);
    forall c | c in Distinct(cs) ensures exists k | 0 <= k < |items| :: items[k].category == c {
      var k := FirstIndex(cs, c);
    }
    DistinctKeepsFirstOccurrenceOrder(cs);
    forall i, j | 1 <= i < j < |Categories(items)|
      ensures FirstIndex(cs, Categories(items)[i]) < FirstIndex(cs, Categories(items)[j])
    {
      assert Categories(items)[i] == Distinct(cs)[i - 1];
      assert Categories(items)[j] == Distinct(cs)[j - 1];
    }
  }

  /** `b` contains `a` in order, possibly with gaps. */
  predicate IsSubsequence<T(==)>(a: seq<T>, b: seq<T>)
    decreases |b|
  {
    a == [] || (b != [] && ((a[0] == b[0] && IsSubsequence(a[1..], b[1..])) || IsSubsequence(a, b[1..])))
  }

  /** `items.filter(item => item.category === c)`. */
  function FilterCategory(items: seq<GalleryItem>, c: string): seq<GalleryItem>
  {
    if items == [] then []
    else if items[0].category == c then [items[0]] + FilterCategory(items[1..], c)
    else FilterCategory(items[1..], c)
  }

  /** The filter keeps exactly the items of category `c`, each as often as
      in the list, in their original order. */
  lemma {:induction false} FilterCategoryExact(items: seq<GalleryItem>, c: string)
    ensures forall k | 0 <= k < |FilterCategory(items, c)| :: FilterCategory(items, c)[k].category == c
    ensures forall x :: multiset(FilterCategory(items, c))[x] == if x.category == c then multiset(items)[x] else 0
    ensures IsSubsequence(FilterCategory(items, c), items)
  {
    if items != [] {
      FilterCategoryExact(items[1..], c);
      assert items == [items[0]] + items[1..];
    }
  }

  /** `filteredItems` for the active filter. */
  function FilteredItems(items: seq<GalleryItem>, activeFilter: string): seq<GalleryItem>
  {
    if activeFilter == AllFilter then items else FilterCategory(items, activeFilter)
  }

  /** The "All" filter shows the list unchanged. */
  lemma AllShowsEverything(items: seq<GalleryItem>)
    ensures FilteredItems(items, AllFilter) == items
  {
  }

  /** For the shipped items the buttons are "All" and the four categories
      in order of first appearance. */
  lemma ShippedCategories()
    ensures Categories(GalleryItems) == ["All", "Cut", "Color", "Style", "Special"]
  {
    ShippedCategoryList();
    ShippedDistinct(["Cut", "Color", "Style", "Color", "Special", "Cut"]);
  }

  lemma ShippedCategoryList()
    ensures CategoriesOf(GalleryItems) == ["Cut", "Color", "Style", "Color", "Special", "Cut"]
  {
  }

  lemma ShippedDistinct(cs: seq<string>)
    requires cs == ["Cut", "Color", "Style", "Color", "Special", "Cut"]
    ensures Distinct(cs) == ["Cut", "Color", "Style", "Special"]
  {
    ShippedDistinctFirstThree(cs);
    DistinctStep(cs, 4, ["Cut", "Color", "Style"]);
    DistinctStep(cs, 5, ["Cut", "Color", "Style"]);
    DistinctStep(cs, 6, ["Cut", "Color", "Style", "Special"]);
    assert cs[..6] == cs;
  }

  lemma ShippedDistinctFirstThree(cs: seq<string>)
    requires cs == ["Cut", "Color", "Style", "Color", "Special", "Cut"]
    ensures Distinct(cs[..3]) == ["Cut", "Color", "Style"]
  {
    DistinctStep(cs, 1, []);
    DistinctStep(cs, 2, ["Cut"]);
    DistinctStep(cs, 3, ["Cut", "Color"]);
  }

  /** One insertion into the `Set`: extending the input by one element. */
  lemma DistinctStep(xs: seq<string>, k: int, before: seq<string>)
    requires 0 < k <= |xs| && Distinct(xs[..k - 1]) == before
    ensures Distinct(xs[..k]) == if xs[k - 1] in before then before else before + [xs[k - 1]]
  {
    assert xs[..k][..k - 1] == xs[..k - 1];
  }

  /** One step of the filter, from the suffix after `k` to the suffix at `k`. */
  lemma FilterStep(items: seq<GalleryItem>, k: int, c: string, r: seq<GalleryItem>)
    requires 0 <= k < |items|
    requires r == if items[k].category == c then [items[k]] + FilterCategory(items[k + 1..], c)
                  else FilterCategory(items[k + 1..], c)
    ensures FilterCategory(items[k..], c) == r
  {
    assert items[k..][1..] == items[k + 1..];
  }

  lemma CutFilterAfterFirst()
    ensures FilterCategory(GalleryItems[1..], "Cut") == [GalleryItems[5]]
  {
    var g := GalleryItems;
    FilterStep(g, 5, "Cut", [g[5]]);
    FilterStep(g, 4, "Cut", [g[5]]);
    FilterStep(g, 3, "Cut", [g[5]]);
    FilterStep(g, 2, "Cut", [g[5]]);
    FilterStep(g, 1, "Cut", [g[5]]);
  }

  /** For the shipped items the "Cut" filter shows the first and the last item. */
  lemma ShippedCutFilter()
    ensures FilteredItems(GalleryItems, "Cut") == [GalleryItems[0], GalleryItems[5]]
  {
    var g := GalleryItems;
    CutFilterAfterFirst();
    FilterStep(g, 0, "Cut", [g[0], g[5]]);
  }

  /** The component's state: the selected filter. */
  class GalleryFilter {
    var activeFilter: string

    constructor ()
      ensures activeFilter == AllFilter
    {
      activeFilter := AllFilter;
    }

    /** A filter button's click: `setActiveFilter(category)`. */
    method SetActiveFilter(category: string)
      modifies this
      ensures activeFilter == category
    {
      activeFilter := category;
    }

    /** The items on show. */
    function VisibleItems(): seq<GalleryItem>
      reads this
    {
      FilteredItems(GalleryItems, activeFilter)
    }
  }
}
