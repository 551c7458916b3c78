/** The plugin's AJAX endpoints and the initial state it hands to the
    browser: parameter validation and response shaping around the cart
    decision procedure, and the per-product quantity map. */
module Plugin {
  import opened Common
  import opened Decimal
  import opened Php
  import opened Store
  import opened CartFunctions
  import ProductsWidget

  /** The JSON body of `aura_cps_update_product_quantity`. */
  datatype Response =
    | QuantityUpdated(quantity: int, action: Action)   // success: { quantity, action, cart_total, message }
    | UpdateRejected(failure: Failure)                 // error: the cart function's message
    | MissingParameters                                // error: "Missing required parameters"

  /** A response together with the cart the request leaves behind. */
  datatype Reply = Reply(response: Response, cart: Cart)

  /** The request parameters are the POST fields, by name. */
  type Post = map<string, string>

  /** `ajax_update_product_quantity`: both `product_id` and `quantity`
      must be present; they are read with `intval` and handed to the cart
      update, whose outcome is echoed with the requested quantity on
      success and as its message on failure. */
  function AjaxUpdateProductQuantity(shop: Shop, cart: Cart, post: Post): (r: Reply)
    requires KeysUnique(cart)
    ensures "product_id" !in post || "quantity" !in post ==> r == Reply(MissingParameters, cart)
    ensures "product_id" in post && "quantity" in post ==>
      var p, q := StrToInt(post["product_id"]), StrToInt(post["quantity"]);
      var u := UpdateCartProduct(shop, cart, p, q);
      && r.cart == u.cart
      && (r.response.QuantityUpdated? <==> u.outcome.Succeeded?)
      && (r.response.QuantityUpdated? ==> r.response.quantity == q && r.response.action == u.outcome.action)
      && (r.response.UpdateRejected? ==> r.response.failure == u.outcome.failure)
    ensures r.response.MissingParameters? ==> r.cart == cart
  {
    if "product_id" !in post || "quantity" !in post then Reply(MissingParameters, cart)
    else
      var p, q := StrToInt(post["product_id"]), StrToInt(post["quantity"]);
      var u := UpdateCartProduct(shop, cart, p, q);
      match u.outcome
      case Succeeded(action) => Reply(QuantityUpdated(q, action), u.cart)
      case Failed(failure) => Reply(UpdateRejected(failure), u.cart)
  }

  /** The POST body the widget scripts send: both numbers written out in
      decimal, as jQuery serialises them. */
  function ClientPost(p: ProductId, q: int): Post {
    map["product_id" := IntString(p), "quantity" := IntString(q)]
  }

  /** What a widget asks for is what the cart is asked to do: the numbers
      survive the trip through the form fields and `intval`, and a
      successful reply echoes the quantity that was sent. */
  lemma ClientRequestRoundTrip(shop: Shop, cart: Cart, p: ProductId, q: int)
    requires KeysUnique(cart)
    requires MinInt <= p <= MaxInt && MinInt <= q <= MaxInt
    ensures var r := AjaxUpdateProductQuantity(shop, cart, ClientPost(p, q));
      var u := UpdateCartProduct(shop, cart, p, q);
      && r.cart == u.cart
      && (r.response.QuantityUpdated? <==> u.outcome.Succeeded?)
      && (r.response.QuantityUpdated? ==> r.response.quantity == q)
  {
    var post := ClientPost(p, q);
    assert post["product_id"] == IntString(p) && post["quantity"] == IntString(q);
    IntValOfIntString(p);
    IntValOfIntString(q);
  }

  /** A quantity beyond the 64-bit range does not survive the trip: the
      cart is asked for the nearer end of the range instead. */
  lemma ClientRequestSaturates(shop: Shop, cart: Cart, p: ProductId, q: int)
    requires KeysUnique(cart)
    requires MinInt <= p <= MaxInt && (MaxInt < q < DoubleOverflow || 0 - DoubleOverflow < q < MinInt)
    ensures var r := AjaxUpdateProductQuantity(shop, cart, ClientPost(p, q));
      var u := UpdateCartProduct(shop, cart, p, if q > 0 then MaxInt else MinInt);
      && r.cart == u.cart
      && (r.response.QuantityUpdated? ==> r.response.quantity != q)
  {
    var post := ClientPost(p, q);
    assert post["product_id"] == IntString(p) && post["quantity"] == IntString(q);
    IntValOfIntString(p);
    IntStringSaturates(q);
  }

  /** `ajax_get_cart_quantities`: the quantities the browser fetches when
      it holds none, product id => summed quantity. */
  method AjaxGetCartQuantities(shop: Shop, cart: Cart) returns (quantities: map<ProductId, int>)
    ensures shop.cartAvailable ==> IsQuantityMap(quantities, cart)
    ensures !shop.cartAvailable ==> quantities == map[]
  {
    quantities := GetAllCartQuantities(shop, cart);
  }

  /** The `cartQuantities` that `enqueue_scripts` hands to the page, as
      the products script finds it: always present (an empty PHP array
      still arrives as a truthy `[]`), holding the same per-product sums,
      so the script starts from it and never fetches. */
  method InitialCartQuantities(shop: Shop, cart: Cart) returns (data: ProductsWidget.Recorded)
    ensures data.Some?
    ensures shop.cartAvailable ==> IsQuantityMap(data.value, cart)
    ensures !shop.cartAvailable ==> data.value == map[]
  {
    var quantities := GetAllCartQuantities(shop, cart);
    data := Some(quantities);
  }

  /** There is only one quantity map per cart, so the page's initial data,
      the fetch endpoint and `aura_cps_get_all_cart_quantities` agree. */
  lemma QuantityMapUnique(m1: map<ProductId, int>, m2: map<ProductId, int>, cart: Cart)
    requires IsQuantityMap(m1, cart) && IsQuantityMap(m2, cart)
    ensures m1 == m2
  {
  }

  /** In a well-formed cart every product in the quantity map has a
      positive sum: a product absent from the map has no line at all. */
  lemma QuantityMapPositive(m: map<ProductId, int>, cart: Cart, p: ProductId)
    requires IsQuantityMap(m, cart) && QuantitiesPositive(cart)
    ensures p in m <==> QuantityOf(cart, p) > 0
    ensures p in m ==> m[p] > 0
    ensures p !in m ==> QuantityOf(cart, p) == 0
  {
    QuantityOfPositive(cart, p);
  }
}
