/**
 * The order cart of the place-order screen as values: the ordered list of lines
 * and the transforms the screen applies to it (add, remove, set quantity) and
 * the total it displays. Every transform builds a new list, as the screen's
 * `map`/`filter`/spread expressions do.
 */
module Cart {
  import opened Sequences
  import opened Text
  import opened Catalog

  /** A cart line: the product record copied in, plus the ordered quantity. */
  datatype Line = Line(item: Product, quantity: int) {
    function Id(): string { item.id }

    /** The subtotal displayed under the line: unit price times quantity. */
    function Subtotal(): int { item.price * quantity }
  }

  /** No two lines share a product id. */
  predicate UniqueIds(c: seq<Line>) {
    forall i, j :: 0 <= i < j < |c| ==> c[i].Id() != c[j].Id()
  }

  predicate HasLine(c: seq<Line>, id: string) {
    exists i :: 0 <= i < |c| && c[i].Id() == id
  }

  /** Every line has a positive quantity. */
  predicate PositiveQuantities(c: seq<Line>) {
    forall i :: 0 <= i < |c| ==> c[i].quantity >= 1
  }

  function LineIdIs(id: string): Line -> bool {
    (l: Line) => l.Id() == id
  }

  function LineIdIsNot(id: string): Line -> bool {
    (l: Line) => l.Id() != id
  }

  /** `l` with its quantity replaced by `q`; used to describe updates. */
  function WithQuantity(l: Line, q: int): Line {
    l.(quantity := q)
  }

  // ---------------------------------------------------------------------------
  // addToCart

  /** Every line with the id gets one more unit; the other lines are kept as they are. */
  function IncrementWhere(c: seq<Line>, id: string): (r: seq<Line>)
    ensures |r| == |c|
    ensures forall i :: 0 <= i < |c| ==> r[i].item == c[i].item
    ensures forall i :: 0 <= i < |c| && c[i].Id() == id ==> r[i].quantity == c[i].quantity + 1
  {
    seq(|c|, i requires 0 <= i < |c| => if c[i].Id() == id then WithQuantity(c[i], c[i].quantity + 1) else c[i])
  }

  /**
   * The "+" on a product card: bump the existing line for the product by one,
   * without looking at the stock, or append a new line of quantity 1.
   */
  function AddToCart(c: seq<Line>, product: Product): (r: seq<Line>)
    ensures HasLine(r, product.id)
    ensures |r| == (if HasLine(c, product.id) then |c| else |c| + 1)
  {
    var found := FindFirst(c, LineIdIs(product.id));
    if found.Some? then
      assert c[found.value].Id() == product.id;
      IncrementWhere(c, product.id)
    else
      assert !HasLine(c, product.id) by {
        forall j | 0 <= j < |c| ensures c[j].Id() != product.id {
          assert !LineIdIs(product.id)(c[j]);
        }
      }
      var r := c + [Line(product, 1)];
      assert r[|c|].Id() == product.id;
      r
  }

  /**
   * Adding a product already in the cart raises its line's quantity by exactly one,
   * even past the product's stock, and leaves every other line and the order alone.
   */
  lemma AddToCartExisting(c: seq<Line>, product: Product, k: nat)
    requires UniqueIds(c)
    requires k < |c| && c[k].Id() == product.id
    ensures AddToCart(c, product) == c[k := WithQuantity(c[k], c[k].quantity + 1)]
  {
    assert LineIdIs(product.id)(c[k]);
    var r := AddToCart(c, product);
    assert forall j :: 0 <= j < |c| && j != k ==> c[j].Id() != product.id;
  }

  /** Adding a product not yet in the cart appends one line of quantity 1 carrying the product's data. */
  lemma AddToCartNew(c: seq<Line>, product: Product)
    requires !HasLine(c, product.id)
    ensures AddToCart(c, product) == c + [Line(product, 1)]
    ensures |AddToCart(c, product)| == |c| + 1
  {
    assert forall j :: 0 <= j < |c| ==> !LineIdIs(product.id)(c[j]);
  }

  /** After adding, the product has exactly one line. */
  lemma AddToCartKeepsUnique(c: seq<Line>, product: Product)
    requires UniqueIds(c)
    ensures UniqueIds(AddToCart(c, product))
    ensures HasLine(AddToCart(c, product), product.id)
  {
    var r := AddToCart(c, product);
    if HasLine(c, product.id) {
      var k :| 0 <= k < |c| && c[k].Id() == product.id;
      AddToCartExisting(c, product, k);
      assert r[k].Id() == product.id;
    } else {
      AddToCartNew(c, product);
      assert r[|c|].Id() == product.id;
    }
  }

  /** Adding never produces a line at quantity 0 or below. */
  lemma AddToCartKeepsPositive(c: seq<Line>, product: Product)
    requires PositiveQuantities(c)
    ensures PositiveQuantities(AddToCart(c, product))
  {
    var r := AddToCart(c, product);
    if FindFirst(c, LineIdIs(product.id)).Some? {
      assert forall j :: 0 <= j < |c| ==> r[j].quantity >= c[j].quantity;
    } else {
      assert r[|c|].quantity == 1;
    }
  }

  // ---------------------------------------------------------------------------
  // removeFromCart

  /** Keep the lines whose id differs from `id`, in their order. */
  function RemoveFromCart(c: seq<Line>, id: string): (r: seq<Line>)
    ensures |r| <= |c|
  {
    Filter(c, LineIdIsNot(id))
  }

  /**
   * Removal drops every line with the id, keeps every other line, and keeps
   * the survivors in their relative order.
   */
  lemma RemoveFromCartSpec(c: seq<Line>, id: string)
    ensures Subsequence(RemoveFromCart(c, id), c)
    ensures !HasLine(RemoveFromCart(c, id), id)
    ensures forall i :: 0 <= i < |c| && c[i].Id() != id ==> c[i] in RemoveFromCart(c, id)
  {
    FilterIsSubsequence(c, LineIdIsNot(id));
    FilterMembers(c, LineIdIsNot(id));
    var r := RemoveFromCart(c, id);
    forall i | 0 <= i < |r| ensures r[i].Id() != id {
      assert LineIdIsNot(id)(r[i]);
    }
  }

  /** Removing an id that is not in the cart changes nothing. */
  lemma RemoveAbsentIsNoop(c: seq<Line>, id: string)
    requires !HasLine(c, id)
    ensures RemoveFromCart(c, id) == c
  {
    FilterKeepsAll(c, LineIdIsNot(id));
  }

  /** Removing twice is removing once. */
  lemma RemoveIdempotent(c: seq<Line>, id: string)
    ensures RemoveFromCart(RemoveFromCart(c, id), id) == RemoveFromCart(c, id)
  {
    FilterIdempotent(c, LineIdIsNot(id));
  }

  /** In a cart with unique ids, removal cuts out exactly the one matching line. */
  lemma RemoveUniqueLine(c: seq<Line>, id: string, k: nat)
    requires UniqueIds(c)
    requires k < |c| && c[k].Id() == id
    ensures RemoveFromCart(c, id) == c[..k] + c[k + 1..]
  {
    var p := LineIdIsNot(id);
    forall j | 0 <= j < |c| && j != k ensures p(c[j]) {
      if j < k {
        assert c[j].Id() != c[k].Id();
      } else {
        assert c[k].Id() != c[j].Id();
      }
    }
    FilterDropsOne(c, p, k);
  }

  /** Removal never lowers a quantity, so positive quantities stay positive. */
  lemma RemoveKeepsPositive(c: seq<Line>, id: string)
    requires PositiveQuantities(c)
    ensures PositiveQuantities(RemoveFromCart(c, id))
  {
    var r := RemoveFromCart(c, id);
    FilterMembers(c, LineIdIsNot(id));
    forall i | 0 <= i < |r| ensures r[i].quantity >= 1 {
      assert r[i] in c;
    }
  }

  /** Removal keeps the ids unique. */
  lemma RemoveKeepsUnique(c: seq<Line>, id: string)
    requires UniqueIds(c)
    ensures UniqueIds(RemoveFromCart(c, id))
  {
    if HasLine(c, id) {
      var k :| 0 <= k < |c| && c[k].Id() == id;
      RemoveUniqueLine(c, id, k);
    } else {
      RemoveAbsentIsNoop(c, id);
    }
  }

  // ---------------------------------------------------------------------------
  // updateQuantity

  /** Lines 98-100: a request above the ceiling is lowered to the ceiling. */
  function Clamp(requested: int, ceiling: int): (q: int)
    ensures q <= requested && q <= ceiling
    ensures q == requested || q == ceiling
  {
    if requested > ceiling then ceiling else requested
  }

  /** Every line with the id gets quantity `q`; the other lines are kept as they are. */
  function SetQuantityWhere(c: seq<Line>, id: string, q: int): (r: seq<Line>)
    ensures |r| == |c|
  {
    seq(|c|, i requires 0 <= i < |c| => if c[i].Id() == id then WithQuantity(c[i], q) else c[i])
  }

  /**
   * The quantity editor: a value of zero or less removes the line; otherwise the
   * value is clamped to the stock of the catalog product with that id and
   * written into the matching line. The catalog lookup is only made for a
   * positive value, so only then must the id be in the catalog.
   */
  function UpdateQuantity(c: seq<Line>, id: string, newQuantity: int, catalog: seq<Product>): (r: seq<Line>)
    requires newQuantity <= 0 || InCatalog(catalog, id)
    ensures newQuantity <= 0 ==> r == RemoveFromCart(c, id)
    ensures newQuantity > 0 ==> |r| == |c|
    ensures newQuantity > 0 ==> forall j :: 0 <= j < |c| ==>
      r[j].item == c[j].item && (c[j].Id() != id ==> r[j] == c[j])
  {
    if newQuantity <= 0 then RemoveFromCart(c, id)
    else
      var product := LookUp(catalog, id);
      SetQuantityWhere(c, id, Clamp(newQuantity, product.available))
  }

  /**
   * A positive request sets the matching line to min(request, stock): exactly the
   * request when it is within stock, the stock otherwise, so between 1 and the
   * stock whenever the product has stock.
   */
  lemma UpdateQuantityClamps(c: seq<Line>, id: string, newQuantity: int, catalog: seq<Product>, k: nat)
    requires newQuantity > 0 && InCatalog(catalog, id)
    requires k < |c| && c[k].Id() == id
    ensures var stock := LookUp(catalog, id).available;
      && UpdateQuantity(c, id, newQuantity, catalog)[k] == WithQuantity(c[k], Clamp(newQuantity, stock))
      && (newQuantity <= stock ==> UpdateQuantity(c, id, newQuantity, catalog)[k].quantity == newQuantity)
      && (newQuantity > stock ==> UpdateQuantity(c, id, newQuantity, catalog)[k].quantity == stock)
      && (stock >= 1 ==> 1 <= UpdateQuantity(c, id, newQuantity, catalog)[k].quantity <= stock)
  {
  }

  /**
   * The "+" on a cart line requests one more than the line holds. On a line that
   * product-card presses have pushed to or past its stock, the clamp sets the
   * line to the stock, so a line above its stock goes down, not up.
   */
  lemma PlusAtOrAboveStockSetsStock(c: seq<Line>, k: nat, catalog: seq<Product>)
    requires k < |c| && c[k].quantity >= 0 && InCatalog(catalog, c[k].Id())
    requires c[k].quantity >= LookUp(catalog, c[k].Id()).available
    ensures var stock := LookUp(catalog, c[k].Id()).available;
      var r := UpdateQuantity(c, c[k].Id(), c[k].quantity + 1, catalog);
      && r[k].quantity == stock
      && (c[k].quantity > stock ==> r[k].quantity < c[k].quantity)
  {
    UpdateQuantityClamps(c, c[k].Id(), c[k].quantity + 1, catalog, k);
  }

  /** The editor never adds a line: an id absent from the cart stays absent. */
  lemma UpdateQuantityNeverAdds(c: seq<Line>, id: string, newQuantity: int, catalog: seq<Product>)
    requires newQuantity <= 0 || InCatalog(catalog, id)
    requires !HasLine(c, id)
    ensures UpdateQuantity(c, id, newQuantity, catalog) == c
  {
    if newQuantity <= 0 {
      RemoveAbsentIsNoop(c, id);
    } else {
      var r := UpdateQuantity(c, id, newQuantity, catalog);
      assert forall j :: 0 <= j < |c| ==> r[j] == c[j];
    }
  }

  /** The editor keeps the ids unique. */
  lemma UpdateQuantityKeepsUnique(c: seq<Line>, id: string, newQuantity: int, catalog: seq<Product>)
    requires newQuantity <= 0 || InCatalog(catalog, id)
    requires UniqueIds(c)
    ensures UniqueIds(UpdateQuantity(c, id, newQuantity, catalog))
  {
    if newQuantity <= 0 {
      RemoveKeepsUnique(c, id);
    }
  }

  /**
   * With a catalog where every product has stock, the editor never leaves a line
   * at quantity 0 or below: such a request removes the line, and a positive one
   * is clamped to at least 1.
   */
  lemma UpdateQuantityKeepsPositive(c: seq<Line>, id: string, newQuantity: int, catalog: seq<Product>)
    requires newQuantity <= 0 || InCatalog(catalog, id)
    requires WellFormed(catalog)
    requires PositiveQuantities(c)
    ensures PositiveQuantities(UpdateQuantity(c, id, newQuantity, catalog))
  {
    var r := UpdateQuantity(c, id, newQuantity, catalog);
    if newQuantity <= 0 {
      RemoveKeepsPositive(c, id);
    } else {
      var product := LookUp(catalog, id);
      assert product.available >= 1;
      assert r == SetQuantityWhere(c, id, Clamp(newQuantity, product.available));
    }
  }

  /** The "-" button on a line of quantity 1 requests 0 and so cuts that line out. */
  lemma MinusOnSingleUnitRemoves(c: seq<Line>, k: nat, catalog: seq<Product>)
    requires UniqueIds(c)
    requires k < |c| && c[k].quantity == 1
    ensures UpdateQuantity(c, c[k].Id(), c[k].quantity - 1, catalog) == c[..k] + c[k + 1..]
  {
    RemoveUniqueLine(c, c[k].Id(), k);
  }

  /** Typing text without a digit into the quantity field reads as 0 and removes the line. */
  lemma NonNumericTextRemoves(c: seq<Line>, id: string, text: string, catalog: seq<Product>)
    requires forall i :: 0 <= i < |text| ==> !('0' <= text[i] <= '9')
    ensures ParseQuantity(text) == 0
    ensures UpdateQuantity(c, id, ParseQuantity(text), catalog) == RemoveFromCart(c, id)
  {
    NoDigitParsesToZero(text);
  }

  // ---------------------------------------------------------------------------
  // calculateTotal

  /** The cart total as the screen's `reduce` computes it: a left fold adding each line's subtotal to `acc`. */
  function TotalFrom(acc: int, c: seq<Line>): int
    decreases |c|
  {
    if c == [] then acc else TotalFrom(acc + c[0].Subtotal(), c[1..])
  }

  function CalculateTotal(c: seq<Line>): int {
    TotalFrom(0, c)
  }

  /** The sum of the line subtotals, as a reference for the fold. */
  function SumOfSubtotals(c: seq<Line>): int {
    if c == [] then 0 else c[0].Subtotal() + SumOfSubtotals(c[1..])
  }

  lemma {:induction false} TotalFromIsSum(acc: int, c: seq<Line>)
    ensures TotalFrom(acc, c) == acc + SumOfSubtotals(c)
    decreases |c|
  {
    if c != [] {
      TotalFromIsSum(acc + c[0].Subtotal(), c[1..]);
    }
  }

  /** The displayed total is the sum of the displayed subtotals; 0 for an empty cart. */
  lemma TotalIsSumOfSubtotals(c: seq<Line>)
    ensures CalculateTotal(c) == SumOfSubtotals(c)
    ensures CalculateTotal([]) == 0
  {
    TotalFromIsSum(0, c);
  }

  lemma {:induction false} SumAppend(a: seq<Line>, b: seq<Line>)
    ensures SumOfSubtotals(a + b) == SumOfSubtotals(a) + SumOfSubtotals(b)
  {
    if a == [] {
      assert a + b == b;
    } else {
      assert (a + b)[1..] == a[1..] + b;
      SumAppend(a[1..], b);
    }
  }

  /** Replacing one line changes the sum by the difference of the two subtotals. */
  lemma {:induction false} SumReplace(c: seq<Line>, k: nat, l: Line)
    requires k < |c|
    ensures SumOfSubtotals(c[k := l]) == SumOfSubtotals(c) - c[k].Subtotal() + l.Subtotal()
  {
    if k > 0 {
      assert c[k := l][1..] == c[1..][k - 1 := l];
      SumReplace(c[1..], k - 1, l);
    } else {
      assert c[k := l][1..] == c[1..];
    }
  }

  /** Cutting one line out lowers the sum by that line's subtotal. */
  lemma {:induction false} SumRemoveAt(c: seq<Line>, k: nat)
    requires k < |c|
    ensures SumOfSubtotals(c[..k] + c[k + 1..]) == SumOfSubtotals(c) - c[k].Subtotal()
  {
    if k == 0 {
      assert c[..k] + c[k + 1..] == c[1..];
    } else {
      SumRemoveAt(c[1..], k - 1);
      assert c[..k] + c[k + 1..] == [c[0]] + (c[1..][..k - 1] + c[1..][k..]);
    }
  }

  /** Removing a line lowers the total by exactly that line's subtotal. */
  lemma RemoveLowersTotal(c: seq<Line>, id: string, k: nat)
    requires UniqueIds(c)
    requires k < |c| && c[k].Id() == id
    ensures CalculateTotal(RemoveFromCart(c, id)) == CalculateTotal(c) - c[k].Subtotal()
  {
    RemoveUniqueLine(c, id, k);
    TotalIsSumOfSubtotals(c);
    TotalIsSumOfSubtotals(c[..k] + c[k + 1..]);
    SumRemoveAt(c, k);
  }

  /**
   * Adding a product raises the total by one unit price: that of the existing
   * line when there is one, the product's otherwise.
   */
  lemma AddToCartRaisesTotal(c: seq<Line>, product: Product)
    requires UniqueIds(c)
    ensures forall k :: 0 <= k < |c| && c[k].Id() == product.id ==>
      CalculateTotal(AddToCart(c, product)) == CalculateTotal(c) + c[k].item.price
    ensures !HasLine(c, product.id) ==>
      CalculateTotal(AddToCart(c, product)) == CalculateTotal(c) + product.price
  {
    TotalIsSumOfSubtotals(c);
    TotalIsSumOfSubtotals(AddToCart(c, product));
    forall k | 0 <= k < |c| && c[k].Id() == product.id
      ensures CalculateTotal(AddToCart(c, product)) == CalculateTotal(c) + c[k].item.price
    {
      AddToCartExisting(c, product, k);
      SumReplace(c, k, WithQuantity(c[k], c[k].quantity + 1));
    }
    if !HasLine(c, product.id) {
      AddToCartNew(c, product);
      SumAppend(c, [Line(product, 1)]);
    }
  }

  /** In a cart with unique ids, the quantity map touches exactly one position. */
  lemma SetQuantityWhereUnique(c: seq<Line>, id: string, q: int, k: nat)
    requires UniqueIds(c)
    requires k < |c| && c[k].Id() == id
    ensures SetQuantityWhere(c, id, q) == c[k := WithQuantity(c[k], q)]
  {
    var r := SetQuantityWhere(c, id, q);
    forall j | 0 <= j < |c| ensures r[j] == c[k := WithQuantity(c[k], q)][j] {
      if j != k {
        assert c[j].Id() != id;
      }
    }
  }

  /** Replacing a line's quantity changes its subtotal by its price times the change. */
  lemma SubtotalChange(l: Line, q: int)
    ensures WithQuantity(l, q).Subtotal() == l.Subtotal() + l.item.price * (q - l.quantity)
  {
  }

  /** Setting a line's quantity changes the total by its price times the change in quantity. */
  lemma UpdateQuantityChangesTotal(c: seq<Line>, id: string, newQuantity: int, catalog: seq<Product>, k: nat)
    requires UniqueIds(c)
    requires newQuantity > 0 && InCatalog(catalog, id)
    requires k < |c| && c[k].Id() == id
    ensures var q := Clamp(newQuantity, LookUp(catalog, id).available);
      CalculateTotal(UpdateQuantity(c, id, newQuantity, catalog))
        == CalculateTotal(c) + c[k].item.price * (q - c[k].quantity)
  {
    var q := Clamp(newQuantity, LookUp(catalog, id).available);
    var l := WithQuantity(c[k], q);
    assert UpdateQuantity(c, id, newQuantity, catalog) == SetQuantityWhere(c, id, q);
    SetQuantityWhereUnique(c, id, q, k);
    TotalIsSumOfSubtotals(c);
    TotalIsSumOfSubtotals(c[k := l]);
    SumReplace(c, k, l);
    SubtotalChange(c[k], q);
  }

  /** The carts built up by the example order, one "+" at a time. */
  lemma ExampleOrderLines(p0: Product, p1: Product)
    requires p0.id != p1.id
    ensures AddToCart(AddToCart(AddToCart([], p0), p0), p1) == [Line(p0, 2), Line(p1, 1)]
  {
    var c1 := AddToCart([], p0);
    AddToCartNew([], p0);
    AddToCartExisting(c1, p0, 0);
    var c2 := AddToCart(c1, p0);
    assert c2 == [Line(p0, 2)];
    assert !HasLine(c2, p1.id);
    AddToCartNew(c2, p1);
  }

  /**
   * Pressing "+" twice on "Super Grow Fertilizer" (750 a bag) and once on
   * "Premium Seeds Mix" (320 a packet) gives two lines and a total of 1820.
   */
  lemma ExampleOrderTotal()
    ensures var c := AddToCart(AddToCart(AddToCart([], PRODUCTS[0]), PRODUCTS[0]), PRODUCTS[1]);
      c == [Line(PRODUCTS[0], 2), Line(PRODUCTS[1], 1)] && CalculateTotal(c) == 1820
  {
    ExampleOrderLines(PRODUCTS[0], PRODUCTS[1]);
    var c3 := [Line(PRODUCTS[0], 2), Line(PRODUCTS[1], 1)];
    TotalIsSumOfSubtotals(c3);
    var tail := [Line(PRODUCTS[1], 1)];
    assert c3[1..] == tail && tail[1..] == [];
    assert PRODUCTS[0].price == 750 && PRODUCTS[1].price == 320;
    assert SumOfSubtotals(tail) == 320 + SumOfSubtotals([]);
    assert SumOfSubtotals(c3) == 2 * 750 + SumOfSubtotals(tail);
  }
}
