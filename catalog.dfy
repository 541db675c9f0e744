/**
 * The order screen's mock catalogs and its two search filters: products and
 * dealers whose lower-cased name includes the lower-cased search query.
 */
module Catalog {
  import opened Sequences
  import opened Text

  /** A catalog product. `available` is the stock ceiling the quantity editor clamps to. */
  datatype Product = Product(id: string, name: string, price: int, unit: string, available: int)

  datatype Dealer = Dealer(id: string, name: string)

  const PRODUCTS: seq<Product> := [
    Product("1", "Super Grow Fertilizer", 750, "bag", 240),
    Product("2", "Premium Seeds Mix", 320, "packet", 120),
    Product("3", "Pest Control Solution", 480, "bottle", 85),
    Product("4", "Garden Tools Set", 1200, "set", 45),
    Product("5", "Soil Enhancer", 550, "bag", 180)
  ]

  const DEALERS: seq<Dealer> := [
    Dealer("1", "Agro Solutions Ltd."),
    Dealer("2", "Krishi Kendra"),
    Dealer("3", "Farm Supplies Co."),
    Dealer("4", "Seedtech Enterprises"),
    Dealer("5", "Green Growth Agro")
  ]

  /** Product ids are unique, prices are positive and every product has stock. */
  predicate WellFormed(catalog: seq<Product>) {
    && (forall i, j :: 0 <= i < j < |catalog| ==> catalog[i].id != catalog[j].id)
    && (forall i :: 0 <= i < |catalog| ==> catalog[i].price > 0 && catalog[i].available >= 1)
  }

  lemma ProductsWellFormed()
    ensures WellFormed(PRODUCTS)
  {
    forall i | 0 <= i < |PRODUCTS| ensures PRODUCTS[i].id == [('1' as int + i) as char] {
    }
    forall i, j | 0 <= i < j < |PRODUCTS| ensures PRODUCTS[i].id != PRODUCTS[j].id {
      assert PRODUCTS[i].id[0] != PRODUCTS[j].id[0];
    }
  }

  /** Dealer ids are unique, so a selected dealer stands for one entry of the list. */
  lemma DealersWellFormed()
    ensures forall i, j :: 0 <= i < j < |DEALERS| ==> DEALERS[i].id != DEALERS[j].id
  {
    forall i, j | 0 <= i < j < |DEALERS| ensures DEALERS[i].id != DEALERS[j].id {
      assert DEALERS[i].id[0] != DEALERS[j].id[0];
    }
  }

  predicate InCatalog(catalog: seq<Product>, id: string) {
    exists i :: 0 <= i < |catalog| && catalog[i].id == id
  }

  function IdIs(id: string): Product -> bool {
    (p: Product) => p.id == id
  }

  /** The first catalog entry with the id, for an id the catalog holds. */
  function LookUp(catalog: seq<Product>, id: string): (p: Product)
    requires InCatalog(catalog, id)
    ensures p in catalog && p.id == id
    ensures WellFormed(catalog) ==> forall i :: 0 <= i < |catalog| && catalog[i].id == id ==> catalog[i] == p
  {
    var k := FindFirst(catalog, IdIs(id));
    assert k.Some?;
    catalog[k.value]
  }

  // ---------------------------------------------------------------------------
  // Search

  /** `name.toLowerCase().includes(query.toLowerCase())` */
  predicate NameMatches(name: string, query: string) {
    Includes(ToLower(name), ToLower(query))
  }

  function ProductMatches(query: string): Product -> bool {
    (p: Product) => NameMatches(p.name, query)
  }

  function DealerMatches(query: string): Dealer -> bool {
    (d: Dealer) => NameMatches(d.name, query)
  }

  function FilteredProducts(catalog: seq<Product>, query: string): seq<Product> {
    Filter(catalog, ProductMatches(query))
  }

  function FilteredDealers(dealers: seq<Dealer>, query: string): seq<Dealer> {
    Filter(dealers, DealerMatches(query))
  }

  /**
   * The product search keeps, in catalog order, exactly the products whose
   * lower-cased name contains the lower-cased query somewhere.
   */
  lemma FilteredProductsSpec(catalog: seq<Product>, query: string)
    ensures Subsequence(FilteredProducts(catalog, query), catalog)
    ensures forall i :: 0 <= i < |catalog| ==>
      (catalog[i] in FilteredProducts(catalog, query) <==>
       exists k: nat :: OccursAt(ToLower(catalog[i].name), ToLower(query), k))
  {
    var r := FilteredProducts(catalog, query);
    FilterIsSubsequence(catalog, ProductMatches(query));
    FilterMembers(catalog, ProductMatches(query));
    forall i | 0 <= i < |catalog|
      ensures catalog[i] in r <==> exists k: nat :: OccursAt(ToLower(catalog[i].name), ToLower(query), k)
    {
      IncludesIffOccurs(ToLower(catalog[i].name), ToLower(query));
      if catalog[i] in r {
        var j :| 0 <= j < |r| && r[j] == catalog[i];
        assert ProductMatches(query)(r[j]);
      }
    }
  }

  /** The dealer search keeps, in list order, exactly the dealers whose lower-cased name contains the query. */
  lemma FilteredDealersSpec(dealers: seq<Dealer>, query: string)
    ensures Subsequence(FilteredDealers(dealers, query), dealers)
    ensures forall i :: 0 <= i < |dealers| ==>
      (dealers[i] in FilteredDealers(dealers, query) <==>
       exists k: nat :: OccursAt(ToLower(dealers[i].name), ToLower(query), k))
  {
    var r := FilteredDealers(dealers, query);
    FilterIsSubsequence(dealers, DealerMatches(query));
    FilterMembers(dealers, DealerMatches(query));
    forall i | 0 <= i < |dealers|
      ensures dealers[i] in r <==> exists k: nat :: OccursAt(ToLower(dealers[i].name), ToLower(query), k)
    {
      IncludesIffOccurs(ToLower(dealers[i].name), ToLower(query));
      if dealers[i] in r {
        var j :| 0 <= j < |r| && r[j] == dealers[i];
        assert DealerMatches(query)(r[j]);
      }
    }
  }

  /** An empty query (the screen's initial state, and after a dealer is picked) lists the whole catalog. */
  lemma EmptyQueryKeepsAll(catalog: seq<Product>, dealers: seq<Dealer>)
    ensures FilteredProducts(catalog, "") == catalog
    ensures FilteredDealers(dealers, "") == dealers
  {
    forall i | 0 <= i < |catalog| ensures ProductMatches("")(catalog[i]) {
      IncludesEmpty(ToLower(catalog[i].name));
    }
    FilterKeepsAll(catalog, ProductMatches(""));
    forall i | 0 <= i < |dealers| ensures DealerMatches("")(dealers[i]) {
      IncludesEmpty(ToLower(dealers[i].name));
    }
    FilterKeepsAll(dealers, DealerMatches(""));
  }

  /** The search ignores the case of ASCII letters in the query. */
  lemma SearchIgnoresQueryCase(catalog: seq<Product>, query: string)
    ensures FilteredProducts(catalog, ToLower(query)) == FilteredProducts(catalog, query)
  {
    ToLowerIdempotent(query);
    FilterCongruent(catalog, ProductMatches(ToLower(query)), ProductMatches(query));
  }
}
