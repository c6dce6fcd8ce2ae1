/** The filtering on the category screen (pages/CategoryPage.tsx): the brand
    facet list, the brand check-boxes and the price slider, and the
    conjunctive filter they drive. */
module CategoryFilter {
  import opened Types
  import opened Seqs

  /** The slider's maximum and the initial upper bound of the price range. */
  const MaxPrice: int := 50000

  /** Inclusive price bounds. */
  datatype PriceRange = PriceRange(lo: int, hi: int)

  /** The screen's filter state: the ticked brands, in the order they were
      ticked, and the price range. */
  datatype Filters = Filters(selectedBrands: seq<string>, priceRange: PriceRange)

  /** No brand ticked and the full slider range. */
  function InitialFilters(): (f: Filters)
    ensures f.selectedBrands == []
    ensures f.priceRange.lo == 0 && f.priceRange.hi == MaxPrice
  {
    Filters([], PriceRange(0, MaxPrice))
  }

  /** The brand of every product, in catalog order. */
  function BrandsOf(products: seq<Product>): (bs: seq<string>)
    ensures |bs| == |products|
    ensures forall i :: 0 <= i < |products| ==> bs[i] == products[i].brand
  {
    seq(|products|, i requires 0 <= i < |products| => products[i].brand)
  }

  /** The brand facets: every brand of the products once, in order of first appearance. */
  function Brands(products: seq<Product>): (r: seq<string>)
    ensures NoDuplicates(r)
    ensures forall p :: p in products ==> p.brand in r
    ensures forall b :: b in r ==> exists p :: p in products && p.brand == b
    ensures forall i, j :: 0 <= i < j < |r| ==>
      FirstIndex(BrandsOf(products), r[i]) < FirstIndex(BrandsOf(products), r[j])
  {
    var bs := BrandsOf(products);
    BrandsOfMembers(products);
    Distinct(bs)
  }

  /** The brands listed by `BrandsOf` are exactly the products' brands. */
  lemma BrandsOfMembers(products: seq<Product>)
    ensures forall p :: p in products ==> p.brand in BrandsOf(products)
    ensures forall b :: b in BrandsOf(products) ==> exists p :: p in products && p.brand == b
  {
    var bs := BrandsOf(products);
    forall p | p in products
      ensures p.brand in bs
    {
      var i :| 0 <= i < |products| && products[i] == p;
      assert bs[i] == p.brand;
    }
    forall b | b in bs
      ensures exists p :: p in products && p.brand == b
    {
      var i := FirstIndex(bs, b);
      assert products[i] in products;
    }
  }

  /** The facet list as the source builds it: one pass over the products,
      remembering the brands already listed in a set. */
  method BrandFacets(products: seq<Product>) returns (r: seq<string>)
    ensures r == Brands(products)
  {
    r := [];
    var seen: set<string> := {};
    var i := 0;
    while i < |products|
      invariant 0 <= i <= |products|
      invariant r == Distinct(BrandsOf(products[..i]))
      invariant forall b :: b in seen <==> b in r
    {
      var b := products[i].brand;
      ghost var before := BrandsOf(products[..i]);
      ghost var after := BrandsOf(products[..i + 1]);
      assert after[..i] == before;
      assert after[i] == b;
      assert b in before <==> b in r;
      if b !in seen {
        r := r + [b];
        seen := seen + {b};
      }
      i := i + 1;
    }
    assert products[..i] == products;
  }

  /** Ticking or unticking a brand: a ticked brand is removed (every copy of
      it), an unticked one is appended at the end. */
  function ToggleBrand(selected: seq<string>, brand: string): (r: seq<string>)
    ensures brand in selected ==> brand !in r
    ensures brand in selected ==> forall b :: b != brand ==> (b in r <==> b in selected)
    ensures brand in selected ==> IsSubsequence(r, selected)
    ensures brand !in selected ==> r == selected + [brand]
  {
    if brand in selected then
      FilterIsSubsequence(selected, b => b != brand);
      Filter(selected, b => b != brand)
    else selected + [brand]
  }

  /** Toggling the same brand twice leaves the same set of ticked brands; when
      the brand was not ticked it restores the selection exactly. */
  lemma ToggleTwice(selected: seq<string>, brand: string)
    ensures forall b :: b in ToggleBrand(ToggleBrand(selected, brand), brand) <==> b in selected
    ensures brand !in selected ==> ToggleBrand(ToggleBrand(selected, brand), brand) == selected
  {
    if brand !in selected {
      var f := b => b != brand;
      FilterAppend(selected, [brand], f);
      FilterKeepsAll(selected, f);
      assert Filter([brand], f) == [];
    }
  }

  /** Toggling never ticks a brand twice. */
  lemma ToggleKeepsNoDuplicates(selected: seq<string>, brand: string)
    requires NoDuplicates(selected)
    ensures NoDuplicates(ToggleBrand(selected, brand))
  {
    if brand in selected {
      FilterNoDuplicates(selected, b => b != brand);
    }
  }

  /** The brand condition: no brand ticked means any brand. */
  predicate BrandMatch(selected: seq<string>, p: Product)
  {
    |selected| == 0 || p.brand in selected
  }

  /** The price condition, inclusive at both ends. */
  predicate PriceMatch(range: PriceRange, p: Product)
  {
    range.lo <= p.price <= range.hi
  }

  /** The products shown: those meeting both the brand and the price condition, in catalog order. */
  function FilteredProducts(products: seq<Product>, f: Filters): (r: seq<Product>)
    ensures forall p :: p in r <==>
      && p in products
      && (|f.selectedBrands| == 0 || p.brand in f.selectedBrands)
      && f.priceRange.lo <= p.price <= f.priceRange.hi
    ensures forall p ::
      (multiset(r)[p] ==
         if (|f.selectedBrands| == 0 || p.brand in f.selectedBrands) && f.priceRange.lo <= p.price <= f.priceRange.hi
         then multiset(products)[p] else 0)
    ensures IsSubsequence(r, products)
  {
    var keep := p => BrandMatch(f.selectedBrands, p) && PriceMatch(f.priceRange, p);
    FilterIsSubsequence(products, keep);
    FilterCounts(products, keep);
    var r := Filter(products, keep);
    assert forall p :: p in r ==> p in products && keep(p);
    r
  }

  /** With no brand ticked the screen filters on price alone. */
  lemma EmptySelectionFiltersOnPrice(products: seq<Product>, range: PriceRange)
    ensures FilteredProducts(products, Filters([], range)) ==
      Filter(products, p => PriceMatch(range, p))
  {
    FilterAgrees(products,
      p => BrandMatch([], p) && PriceMatch(range, p),
      p => PriceMatch(range, p));
  }

  /** At the initial state every product priced from 0 to the slider maximum is
      shown and nothing dearer, although the label then reads "50000+". */
  lemma InitialFiltersShowUpToMax(products: seq<Product>, p: Product)
    requires p in products
    ensures p in FilteredProducts(products, InitialFilters()) <==> 0 <= p.price <= MaxPrice
  {
  }

  /** A product of category "c" with the given brand and price. */
  function Sample(brand: string, price: int): Product
  {
    Product(0, "", "c", brand, price, "", "", "", 0.0, 0, map[], Variants(None, None))
  }

  /** The catalog of the conjunction example: an X at 50 and a Y at 150. */
  function ExampleCatalog(): (ps: seq<Product>)
    ensures |ps| == 2 && ps[1..] == [Sample("Y", 150)] && ps[1..][1..] == []
  {
    [Sample("X", 50), Sample("Y", 150)]
  }

  /** Brand and price conditions are conjoined: of an X at 50 and a Y at 150
      under the range 0..100, ticking X or nothing shows the X, ticking Y
      shows nothing. */
  lemma FilterConjunctionExample()
    ensures FilteredProducts(ExampleCatalog(), Filters(["X"], PriceRange(0, 100))) == [Sample("X", 50)]
    ensures FilteredProducts(ExampleCatalog(), Filters([], PriceRange(0, 100))) == [Sample("X", 50)]
    ensures FilteredProducts(ExampleCatalog(), Filters(["Y"], PriceRange(0, 100))) == []
  {
    TickX();
    TickNothing();
    TickY();
  }

  lemma TickX()
    ensures FilteredProducts(ExampleCatalog(), Filters(["X"], PriceRange(0, 100))) == [Sample("X", 50)]
  {
  }

  lemma TickNothing()
    ensures FilteredProducts(ExampleCatalog(), Filters([], PriceRange(0, 100))) == [Sample("X", 50)]
  {
  }

  lemma TickY()
    ensures FilteredProducts(ExampleCatalog(), Filters(["Y"], PriceRange(0, 100))) == []
  {
  }

  /** A user action on the filter panel. */
  datatype FilterEvent = ToggleEvent(brand: string) | SliderEvent(value: int)

  /** The panel's handlers: a check-box toggles its brand; the slider
      replaces the upper bound and keeps the lower one. */
  function ApplyFilterEvent(f: Filters, e: FilterEvent): (g: Filters)
    ensures e.SliderEvent? ==> g.selectedBrands == f.selectedBrands
    ensures e.SliderEvent? ==> g.priceRange == PriceRange(f.priceRange.lo, e.value)
    ensures e.ToggleEvent? ==> g.priceRange == f.priceRange
    ensures e.ToggleEvent? ==> g.selectedBrands == ToggleBrand(f.selectedBrands, e.brand)
  {
    match e
    case ToggleEvent(brand) => f.(selectedBrands := ToggleBrand(f.selectedBrands, brand))
    case SliderEvent(value) => f.(priceRange := PriceRange(f.priceRange.lo, value))
  }

  function RunFilterEvents(f: Filters, es: seq<FilterEvent>): Filters
    decreases |es|
  {
    if |es| == 0 then f else RunFilterEvents(ApplyFilterEvent(f, es[0]), es[1..])
  }

  /** Whatever the user does on the panel, the lower price bound stays 0 and
      no brand is ticked twice. */
  lemma {:induction false} ReachableFilters(f: Filters, es: seq<FilterEvent>)
    requires f.priceRange.lo == 0 && NoDuplicates(f.selectedBrands)
    ensures RunFilterEvents(f, es).priceRange.lo == 0
    ensures NoDuplicates(RunFilterEvents(f, es).selectedBrands)
    decreases |es|
  {
    if |es| > 0 {
      if es[0].ToggleEvent? {
        ToggleKeepsNoDuplicates(f.selectedBrands, es[0].brand);
      }
      ReachableFilters(ApplyFilterEvent(f, es[0]), es[1..]);
    }
  }
}
