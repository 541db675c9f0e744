/**
 * The place-order screen's state and event handlers. The screen keeps its state
 * in React state cells replaced through setters; here those cells are the fields
 * of one object and each handler is a method that reassigns them.
 */
module PlaceOrder {
  import opened Wrappers
  import opened Sequences
  import opened Text
  import opened Catalog
  import opened Cart

  const NoDealerMessage: string := "Please select a dealer"
  const EmptyCartMessage: string := "Your cart is empty"

  /** What the "Place Order" handler does: reject with an alert, or start submitting. */
  datatype Outcome = Rejected(message: string) | Submitted

  /**
   * The guards of handlePlaceOrder: the dealer is checked first, then the cart;
   * only when both pass is the order submitted.
   */
  function CheckOrder(dealer: Option<Dealer>, cart: seq<Line>): (r: Outcome)
    ensures dealer.None? ==> r == Rejected(NoDealerMessage)
    ensures dealer.Some? && cart == [] ==> r == Rejected(EmptyCartMessage)
    ensures r == Submitted <==> dealer.Some? && cart != []
  {
    if dealer.None? then Rejected(NoDealerMessage)
    else if |cart| == 0 then Rejected(EmptyCartMessage)
    else Submitted
  }

  /** The negation of the button's `disabled` prop. */
  function ButtonEnabled(placing: bool, dealer: Option<Dealer>, cart: seq<Line>): bool {
    !(placing || dealer.None? || |cart| == 0)
  }

  /** The button is enabled exactly when no order is in flight and the handler's guards would pass. */
  lemma EnabledIffGuardsPass(placing: bool, dealer: Option<Dealer>, cart: seq<Line>)
    ensures ButtonEnabled(placing, dealer, cart) <==> !placing && CheckOrder(dealer, cart) == Submitted
  {
  }

  class PlaceOrderScreen {
    var searchQuery: string
    var selectedDealer: Option<Dealer>
    var showDealerDropdown: bool
    var cart: seq<Line>
    var isPlacingOrder: bool

    /**
     * What the handlers keep true of the cart: one line per product, and no line
     * at quantity 0 or below (such a request removes the line instead, and every
     * catalog product has stock, so clamping never reaches 0).
     */
    ghost predicate Valid()
      reads this
    {
      UniqueIds(cart) && PositiveQuantities(cart)
    }

    /** The screen opens with an empty query, no dealer, the dropdown closed and an empty cart. */
    constructor ()
      ensures Valid()
      ensures searchQuery == "" && selectedDealer == None && !showDealerDropdown
      ensures cart == [] && !isPlacingOrder
    {
      searchQuery := "";
      selectedDealer := None;
      showDealerDropdown := false;
      cart := [];
      isPlacingOrder := false;
    }

    /** The products listed under "Select Products". */
    function FilteredProducts(): seq<Product>
      reads this
    {
      Catalog.FilteredProducts(PRODUCTS, searchQuery)
    }

    /** The dealers listed in the dropdown; the same query drives both lists. */
    function FilteredDealers(): seq<Dealer>
      reads this
    {
      Catalog.FilteredDealers(DEALERS, searchQuery)
    }

    function CalculateTotal(): int
      reads this
    {
      Cart.CalculateTotal(cart)
    }

    method SetSearchQuery(query: string)
      modifies this`searchQuery
      ensures searchQuery == query
    {
      searchQuery := query;
    }

    method ToggleDealerDropdown()
      modifies this`showDealerDropdown
      ensures showDealerDropdown == !old(showDealerDropdown)
    {
      showDealerDropdown := !showDealerDropdown;
    }

    /** Picking a dealer also closes the dropdown and clears the shared search query. */
    method SelectDealer(dealer: Dealer)
      modifies this`selectedDealer, this`showDealerDropdown, this`searchQuery
      ensures selectedDealer == Some(dealer) && !showDealerDropdown && searchQuery == ""
    {
      selectedDealer := Some(dealer);
      showDealerDropdown := false;
      searchQuery := "";
    }

    method AddToCart(product: Product)
      requires Valid()
      modifies this`cart
      ensures Valid()
      ensures cart == Cart.AddToCart(old(cart), product)
    {
      var existing := FindFirst(cart, LineIdIs(product.id));
      if existing.Some? {
        cart := IncrementWhere(cart, product.id);
      } else {
        cart := cart + [Line(product, 1)];
      }
      AddToCartKeepsUnique(old(cart), product);
      AddToCartKeepsPositive(old(cart), product);
    }

    method RemoveFromCart(id: string)
      requires Valid()
      modifies this`cart
      ensures Valid()
      ensures cart == Cart.RemoveFromCart(old(cart), id)
    {
      RemoveKeepsUnique(cart, id);
      RemoveKeepsPositive(cart, id);
      cart := Filter(cart, LineIdIsNot(id));
    }

    /** The quantity editor; the catalog entry is looked up only for a positive request. */
    method UpdateQuantity(id: string, newQuantity: int)
      requires Valid()
      requires newQuantity <= 0 || InCatalog(PRODUCTS, id)
      modifies this`cart
      ensures Valid()
      ensures cart == Cart.UpdateQuantity(old(cart), id, newQuantity, PRODUCTS)
    {
      if newQuantity <= 0 {
        RemoveFromCart(id);
        return;
      }
      var product := LookUp(PRODUCTS, id);
      var quantity := newQuantity;
      if quantity > product.available {
        quantity := product.available;
      }
      ProductsWellFormed();
      UpdateQuantityKeepsUnique(cart, id, newQuantity, PRODUCTS);
      UpdateQuantityKeepsPositive(cart, id, newQuantity, PRODUCTS);
      assert quantity == Clamp(newQuantity, product.available);
      cart := SetQuantityWhere(cart, id, quantity);
    }

    /** The quantity text field: `parseInt(text) || 0`, then the quantity editor. */
    method OnQuantityTextChange(id: string, text: string)
      requires Valid()
      requires ParseQuantity(text) <= 0 || InCatalog(PRODUCTS, id)
      modifies this`cart
      ensures Valid()
      ensures cart == Cart.UpdateQuantity(old(cart), id, ParseQuantity(text), PRODUCTS)
    {
      var newQuantity := ParseQuantity(text);
      UpdateQuantity(id, newQuantity);
    }

    /**
     * "Place Order": rejected, with the alert's message, when no dealer is selected
     * (whatever the cart holds) or the cart is empty, leaving every field as it was;
     * otherwise marks an order as being placed.
     */
    method HandlePlaceOrder() returns (outcome: Outcome)
      modifies this`isPlacingOrder
      ensures outcome == CheckOrder(selectedDealer, cart)
      ensures outcome.Rejected? ==> isPlacingOrder == old(isPlacingOrder)
      ensures outcome == Submitted ==> isPlacingOrder
    {
      if selectedDealer.None? {
        return Rejected(NoDealerMessage);
      }
      if |cart| == 0 {
        return Rejected(EmptyCartMessage);
      }
      isPlacingOrder := true;
      outcome := Submitted;
    }

    function PlaceOrderEnabled(): bool
      reads this
    {
      ButtonEnabled(isPlacingOrder, selectedDealer, cart)
    }
  }

  /** A session as a caller sees it: both guards, then a successful submission. */
  method PlaceOrderSession(dealer: Dealer)
  {
    var screen := new PlaceOrderScreen();
    var outcome := screen.HandlePlaceOrder();
    assert outcome == Rejected(NoDealerMessage) && !screen.isPlacingOrder;
    screen.SelectDealer(dealer);
    outcome := screen.HandlePlaceOrder();
    assert outcome == Rejected(EmptyCartMessage) && !screen.isPlacingOrder;
    screen.AddToCart(PRODUCTS[0]);
    AddToCartNew([], PRODUCTS[0]);
    assert screen.cart == [Line(PRODUCTS[0], 1)];
    assert screen.PlaceOrderEnabled();
    outcome := screen.HandlePlaceOrder();
    assert outcome == Submitted && screen.isPlacingOrder && !screen.PlaceOrderEnabled();
  }
}
