/** The server-side cart decision procedure: finding a product's line,
    summing its quantity, the remove/update/add decision for a requested
    absolute quantity, the per-product aggregation, and removing a whole
    category from the cart. */
module CartFunctions {
  import opened Common
  import opened Store

  /** The action a successful update reports. */
  datatype Action = Removed | Updated | Added

  /** Why an update was refused; each corresponds to one message the
      server sends back. */
  datatype Failure =
    | CartUnavailable    // "Cart is not available"
    | ProductNotFound    // "Product not found"
    | NotPurchasable     // "Product is not available for purchase"
    | NotEnoughStock     // "Not enough stock. Only %s available."
    | CouldNotAdd        // "Could not add product to cart"
    | InvalidOperation   // "Invalid operation"

  datatype Outcome = Succeeded(action: Action) | Failed(failure: Failure)

  /** The outcome of an update together with the cart it leaves behind. */
  datatype Update = Update(outcome: Outcome, cart: Cart)

  /** The request concerns an existing, purchasable product and a cart is
      there to change: every check before the cart is consulted passed. */
  predicate Ready(shop: Shop, p: ProductId) {
    shop.cartAvailable && p in shop.catalog && shop.catalog[p].purchasable
  }

  /** `aura_cps_find_product_in_cart`: the key of the first line holding
      `p`, or nothing when there is no such line or no cart. */
  function FindProductInCart(shop: Shop, cart: Cart, p: ProductId): (r: Option<Key>)
    ensures !shop.cartAvailable ==> r.None?
    ensures shop.cartAvailable ==> (r.Some? <==> p in ProductIds(cart))
    ensures r.Some? ==>
      exists i :: 0 <= i < |cart| && cart[i].productId == p && cart[i].key == r.value
        && forall j :: 0 <= j < i ==> cart[j].productId != p
  {
    if !shop.cartAvailable then None
    else
      match FirstLine(cart, p)
      case None => None
      case Some(i) => Some(cart[i].key)
  }

  /** `aura_cps_get_product_quantity_in_cart`: the quantities of all of
      `p`'s lines added up, 0 without a cart. */
  method GetProductQuantityInCart(shop: Shop, cart: Cart, p: ProductId) returns (total: int)
    ensures total == if shop.cartAvailable then QuantityOf(cart, p) else 0
  {
    total := 0;
    if !shop.cartAvailable {
      return;
    }
    var i := 0;
    while i < |cart|
      invariant 0 <= i <= |cart|
      invariant total == QuantityOf(cart[..i], p)
    {
      assert cart[..i + 1][..i] == cart[..i];
      if cart[i].productId == p {
        total := total + cart[i].quantity;
      }
      i := i + 1;
    }
    assert cart[..|cart|] == cart;
  }

  /** `aura_cps_update_cart_product(p, q)`: the cart checks in the order
      the server makes them, then
      - q = 0 with a line: remove that line ("removed");
      - q != 0 with a line: stock check, then `set_quantity`, which for
        q < 0 removes the line ("updated");
      - q > 0 without a line: stock check, then `add_to_cart` ("added");
      - otherwise: "Invalid operation".
      Cart keys are the keys of an associative array, hence distinct. */
  function UpdateCartProduct(shop: Shop, cart: Cart, p: ProductId, q: int): (u: Update)
    requires KeysUnique(cart)
    ensures u.outcome.Failed? ==> u.cart == cart
    ensures u.outcome == Failed(CartUnavailable) <==> !shop.cartAvailable
    ensures u.outcome == Failed(ProductNotFound) <==> shop.cartAvailable && p !in shop.catalog
    ensures u.outcome == Failed(NotPurchasable)
      <==> shop.cartAvailable && p in shop.catalog && !shop.catalog[p].purchasable
    ensures u.outcome == Succeeded(Removed) <==> Ready(shop, p) && p in ProductIds(cart) && q == 0
    ensures u.outcome == Succeeded(Updated)
      <==> Ready(shop, p) && p in ProductIds(cart) && q != 0 && shop.enoughStock(p, q)
    ensures u.outcome == Succeeded(Added)
      <==> Ready(shop, p) && p !in ProductIds(cart) && q > 0 && shop.enoughStock(p, q) && shop.addAccepted
    ensures u.outcome == Failed(NotEnoughStock)
      <==> Ready(shop, p) && !shop.enoughStock(p, q)
           && (if p in ProductIds(cart) then q != 0 else q > 0)
    ensures u.outcome == Failed(CouldNotAdd)
      <==> Ready(shop, p) && p !in ProductIds(cart) && q > 0 && shop.enoughStock(p, q) && !shop.addAccepted
    ensures u.outcome == Failed(InvalidOperation) <==> Ready(shop, p) && p !in ProductIds(cart) && q <= 0
  {
    if !shop.cartAvailable then Update(Failed(CartUnavailable), cart)
    else if p !in shop.catalog then Update(Failed(ProductNotFound), cart)
    else if !shop.catalog[p].purchasable then Update(Failed(NotPurchasable), cart)
    else
      match FindProductInCart(shop, cart, p)
      case Some(k) =>
        if q == 0 then Update(Succeeded(Removed), RemoveKey(cart, k))
        else if !shop.enoughStock(p, q) then Update(Failed(NotEnoughStock), cart)
        else Update(Succeeded(Updated), SetQuantity(cart, k, q))
      case None =>
        if q > 0 then
          if !shop.enoughStock(p, q) then Update(Failed(NotEnoughStock), cart)
          else if !shop.addAccepted then Update(Failed(CouldNotAdd), cart)
          else Update(Succeeded(Added), cart + [Line(NewKey(cart), p, q)])
        else Update(Failed(InvalidOperation), cart)
  }

  /** What a successful update does to the cart, stated positionally: with
      `i` the first line of `p`, removal drops exactly line `i`, an update
      to q > 0 overwrites exactly line `i`'s quantity, an update to q < 0
      drops exactly line `i`, and an addition appends one line for `p`
      under a key no other line uses. */
  lemma UpdateCartProductEffect(shop: Shop, cart: Cart, p: ProductId, q: int)
    requires KeysUnique(cart)
    ensures var u := UpdateCartProduct(shop, cart, p, q);
      && (u.outcome.Succeeded? && u.outcome.action != Added ==>
            var i := FirstLine(cart, p).value;
            u.cart == if q > 0 then cart[i := cart[i].(quantity := q)] else cart[..i] + cart[i + 1..])
      && (u.outcome == Succeeded(Added) ==>
            && u.cart[..|cart|] == cart && |u.cart| == |cart| + 1
            && u.cart[|cart|].productId == p && u.cart[|cart|].quantity == q
            && forall j :: 0 <= j < |cart| ==> cart[j].key != u.cart[|cart|].key)
  {
    var u := UpdateCartProduct(shop, cart, p, q);
    if u.outcome.Succeeded? && u.outcome.action != Added {
      var i := FirstLine(cart, p).value;
      if q > 0 {
        SetQuantityAt(cart, i, q);
      } else {
        RemoveKeyAt(cart, i);
      }
    }
  }

  /** A well-formed cart (distinct keys, positive quantities) stays well
      formed, and a cart with one line per product keeps that shape. */
  lemma UpdateCartProductPreserves(shop: Shop, cart: Cart, p: ProductId, q: int)
    requires KeysUnique(cart)
    ensures var u := UpdateCartProduct(shop, cart, p, q);
      && KeysUnique(u.cart)
      && (QuantitiesPositive(cart) ==> QuantitiesPositive(u.cart))
      && (OneLinePerProduct(cart) ==> OneLinePerProduct(u.cart))
  {
    var u := UpdateCartProduct(shop, cart, p, q);
    if u.outcome == Succeeded(Added) {
      AddedKeepsShape(shop, cart, p, q);
    } else if u.outcome.Succeeded? {
      InPlaceKeepsShape(shop, cart, p, q);
    }
  }

  /** The shape after removing or updating the product's first line. */
  lemma InPlaceKeepsShape(shop: Shop, cart: Cart, p: ProductId, q: int)
    requires KeysUnique(cart)
    requires UpdateCartProduct(shop, cart, p, q).outcome in {Succeeded(Removed), Succeeded(Updated)}
    ensures var after := UpdateCartProduct(shop, cart, p, q).cart;
      && KeysUnique(after)
      && (QuantitiesPositive(cart) ==> QuantitiesPositive(after))
      && (OneLinePerProduct(cart) ==> OneLinePerProduct(after))
  {
    UpdateCartProductEffect(shop, cart, p, q);
    var i := FirstLine(cart, p).value;
    if q > 0 {
      ShapeReplace(cart, i, q);
    } else {
      ShapeWithout(cart, i);
    }
  }

  /** The shape after appending a line for a product not yet in the cart. */
  lemma AddedKeepsShape(shop: Shop, cart: Cart, p: ProductId, q: int)
    requires KeysUnique(cart)
    requires UpdateCartProduct(shop, cart, p, q).outcome == Succeeded(Added)
    ensures var after := UpdateCartProduct(shop, cart, p, q).cart;
      && KeysUnique(after)
      && (QuantitiesPositive(cart) ==> QuantitiesPositive(after))
      && (OneLinePerProduct(cart) ==> OneLinePerProduct(after))
  {
    var after := UpdateCartProduct(shop, cart, p, q).cart;
    UpdateCartProductEffect(shop, cart, p, q);
    assert after == cart + [after[|cart|]];
    ShapeAppend(cart, after[|cart|]);
  }

  /** Whatever the outcome, an update for `p` leaves every other
      product's summed quantity as it was. */
  lemma UpdateCartProductOthers(shop: Shop, cart: Cart, p: ProductId, q: int, other: ProductId)
    requires KeysUnique(cart)
    requires other != p
    ensures QuantityOf(UpdateCartProduct(shop, cart, p, q).cart, other) == QuantityOf(cart, other)
  {
    var u := UpdateCartProduct(shop, cart, p, q);
    UpdateCartProductEffect(shop, cart, p, q);
    if u.outcome.Succeeded? && u.outcome.action != Added {
      var i := FirstLine(cart, p).value;
      if q > 0 {
        QuantityOfReplace(cart, i, q, other);
      } else {
        QuantityOfWithout(cart, i, other);
      }
    } else if u.outcome == Succeeded(Added) {
      assert u.cart == cart + [u.cart[|cart|]];
      QuantityOfAppend(cart, u.cart[|cart|], other);
    }
  }

  /** After a successful update of a cart holding each product at most
      once, the product's summed quantity is the requested one, or 0 when
      the request was 0 or negative. */
  lemma UpdateCartProductQuantity(shop: Shop, cart: Cart, p: ProductId, q: int)
    requires KeysUnique(cart) && OneLinePerProduct(cart)
    requires UpdateCartProduct(shop, cart, p, q).outcome.Succeeded?
    ensures QuantityOf(UpdateCartProduct(shop, cart, p, q).cart, p) == if q > 0 then q else 0
  {
    var u := UpdateCartProduct(shop, cart, p, q);
    UpdateCartProductEffect(shop, cart, p, q);
    if u.outcome.action != Added {
      var i := FirstLine(cart, p).value;
      QuantityOfSingleLine(cart, p, i);
      if q > 0 {
        QuantityOfReplace(cart, i, q, p);
      } else {
        QuantityOfWithout(cart, i, p);
      }
    } else {
      assert u.cart == cart + [u.cart[|cart|]];
      QuantityOfAppend(cart, u.cart[|cart|], p);
      QuantityOfAbsent(cart, p);
    }
  }

  /** Repeating a successful request for a positive quantity is a no-op
      that reports "updated": the first call already left the product's
      first line holding exactly that quantity. */
  lemma UpdateCartProductIdempotent(shop: Shop, cart: Cart, p: ProductId, q: int)
    requires KeysUnique(cart)
    requires q > 0
    requires UpdateCartProduct(shop, cart, p, q).outcome.Succeeded?
    ensures var c1 := UpdateCartProduct(shop, cart, p, q).cart;
      KeysUnique(c1)
      && UpdateCartProduct(shop, c1, p, q) == Update(Succeeded(Updated), c1)
  {
    var u := UpdateCartProduct(shop, cart, p, q);
    UpdateCartProductEffect(shop, cart, p, q);
    UpdateCartProductPreserves(shop, cart, p, q);
    var c1 := u.cart;
    var i: nat;
    if u.outcome.action == Added {
      i := |cart|;
      assert FirstLine(cart, p).None?;
      forall j | 0 <= j < i ensures c1[j].productId != p {
        assert c1[j] == cart[j];
      }
    } else {
      i := FirstLine(cart, p).value;
      forall j | 0 <= j < i ensures c1[j].productId != p {
        assert c1[j] == cart[j];
      }
    }
    assert c1[i].productId == p && c1[i].quantity == q;
    assert FirstLine(c1, p) == Some(i);
    SetQuantityAt(c1, i, q);
    assert c1[i := c1[i].(quantity := q)] == c1;
  }

  /** Removal is not repeatable: once the product's only line is gone, a
      second request for quantity 0 finds no line and is refused as an
      invalid operation, with the cart left as it is. */
  lemma RemoveTwiceRefused(shop: Shop, cart: Cart, p: ProductId)
    requires KeysUnique(cart) && QuantitiesPositive(cart) && OneLinePerProduct(cart)
    requires UpdateCartProduct(shop, cart, p, 0).outcome.Succeeded?
    ensures var c1 := UpdateCartProduct(shop, cart, p, 0).cart;
      KeysUnique(c1)
      && UpdateCartProduct(shop, c1, p, 0) == Update(Failed(InvalidOperation), c1)
  {
    var c1 := UpdateCartProduct(shop, cart, p, 0).cart;
    UpdateCartProductPreserves(shop, cart, p, 0);
    UpdateCartProductQuantity(shop, cart, p, 0);
    QuantityOfPositive(c1, p);
  }

  /** The per-product sums of `cart`: defined exactly on the products
      that have a line, each mapped to its summed quantity. */
  predicate IsQuantityMap(m: map<ProductId, int>, cart: Cart) {
    m.Keys == ProductIds(cart) && forall x :: x in m ==> m[x] == QuantityOf(cart, x)
  }

  /** `aura_cps_get_all_cart_quantities`: product id => summed quantity,
      empty without a cart. */
  method GetAllCartQuantities(shop: Shop, cart: Cart) returns (m: map<ProductId, int>)
    ensures shop.cartAvailable ==> IsQuantityMap(m, cart)
    ensures !shop.cartAvailable ==> m == map[]
  {
    m := map[];
    if !shop.cartAvailable {
      return;
    }
    var i := 0;
    while i < |cart|
      invariant 0 <= i <= |cart|
      invariant IsQuantityMap(m, cart[..i])
    {
      var prefix, l := cart[..i + 1], cart[i];
      assert prefix[..i] == cart[..i] && prefix[i] == l;
      QuantityOfAppend(cart[..i], l, l.productId);
      assert prefix == cart[..i] + [l];
      forall x | x != l.productId ensures QuantityOf(prefix, x) == QuantityOf(cart[..i], x) {
        QuantityOfAppend(cart[..i], l, x);
      }
      assert ProductIds(prefix) == ProductIds(cart[..i]) + {l.productId} by {
        forall x | x in ProductIds(prefix) ensures x in ProductIds(cart[..i]) + {l.productId} {
          var k :| 0 <= k < |prefix| && prefix[k].productId == x;
          if k < i {
            assert cart[..i][k] == prefix[k];
          }
        }
        forall x | x in ProductIds(cart[..i]) ensures x in ProductIds(prefix) {
          var k :| 0 <= k < i && cart[..i][k].productId == x;
          assert prefix[k] == cart[..i][k];
        }
      }
      var previous := if l.productId in m then m[l.productId] else 0;
      if l.productId !in m {
        QuantityOfAbsent(cart[..i], l.productId);
      }
      m := m[l.productId := previous + l.quantity];
      i := i + 1;
    }
    assert cart[..|cart|] == cart;
  }

  /** The test "`has_term(category, 'product_cat', product)`" on a line. */
  function InCategory(hasTerm: (string, ProductId) -> bool, category: string): Line -> bool {
    (l: Line) => hasTerm(category, l.productId)
  }

  /** Its negation: the lines a category clear keeps. */
  function OutsideCategory(hasTerm: (string, ProductId) -> bool, category: string): Line -> bool {
    (l: Line) => !hasTerm(category, l.productId)
  }

  /** `aura_cps_clear_category_from_cart(category)`: walks a snapshot of
      the cart and removes every line whose product is in the category,
      counting the removals. The result is the cart with exactly those
      lines filtered out, in order, and the count is how many they were.
      Category membership is the host's `has_term`, a parameter here. */
  method ClearCategoryFromCart(shop: Shop, cart: Cart, category: string, hasTerm: (string, ProductId) -> bool)
    returns (after: Cart, removed: nat)
    requires KeysUnique(cart)
    ensures !shop.cartAvailable ==> after == cart && removed == 0
    ensures shop.cartAvailable ==>
      after == Filter(cart, OutsideCategory(hasTerm, category))
      && removed == |Filter(cart, InCategory(hasTerm, category))|
  {
    if !shop.cartAvailable {
      return cart, 0;
    }
    after, removed := RemoveCategoryLines(cart, category, hasTerm);
    FilterComplement(cart, OutsideCategory(hasTerm, category), InCategory(hasTerm, category));
  }

  /** The loop of the category clear: each line of the snapshot in the
      category is removed from the live cart by its key. The live cart
      ends up filtered, and the lines removed and kept add up to the
      snapshot. */
  method RemoveCategoryLines(cart: Cart, category: string, hasTerm: (string, ProductId) -> bool)
    returns (after: Cart, removed: nat)
    requires KeysUnique(cart)
    ensures after == Filter(cart, OutsideCategory(hasTerm, category))
    ensures removed + |after| == |cart|
  {
    after, removed := cart, 0;
    var keep := OutsideCategory(hasTerm, category);
    var i := 0;
    while i < |cart|
      invariant 0 <= i <= |cart|
      invariant after == Filter(cart[..i], keep) + cart[i..]
      invariant removed + |after| == |cart|
    {
      var l := cart[i];
      ClearStep(cart, i, hasTerm, category);
      if hasTerm(category, l.productId) {
        after := RemoveKey(after, l.key);
        removed := removed + 1;
      }
      i := i + 1;
    }
    assert cart[..|cart|] == cart;
  }

  /** One step of the category clear, for the live cart and the count. */
  lemma ClearStep(cart: Cart, i: nat, hasTerm: (string, ProductId) -> bool, category: string)
    requires KeysUnique(cart) && i < |cart|
    ensures var keep, l := OutsideCategory(hasTerm, category), cart[i];
      && (if hasTerm(category, l.productId)
          then RemoveKey(Filter(cart[..i], keep) + cart[i..], l.key)
          else Filter(cart[..i], keep) + cart[i..])
         == Filter(cart[..i + 1], keep) + cart[i + 1..]
      && |Filter(cart[..i + 1], keep)| == |Filter(cart[..i], keep)| + (if hasTerm(category, l.productId) then 0 else 1)
  {
    var keep, l := OutsideCategory(hasTerm, category), cart[i];
    LiveStep(cart, i, keep);
    assert cart[..i + 1] == cart[..i] + [l];
    FilterSnoc(cart[..i], l, keep);
  }

  /** One step of the category clear: with the cart filtered up to
      position `i`, keeping line `i` leaves the live cart as it is, and
      removing its key drops exactly that line, because no line kept so
      far and no later line shares its key. Either way the live cart is
      then filtered up to position `i + 1`. */
  lemma LiveStep(cart: Cart, i: nat, keep: Line -> bool)
    requires KeysUnique(cart) && i < |cart|
    ensures keep(cart[i]) ==>
      Filter(cart[..i], keep) + cart[i..] == Filter(cart[..i + 1], keep) + cart[i + 1..]
    ensures !keep(cart[i]) ==>
      RemoveKey(Filter(cart[..i], keep) + cart[i..], cart[i].key) == Filter(cart[..i + 1], keep) + cart[i + 1..]
  {
    if keep(cart[i]) {
      LiveKeep(cart, i, keep);
    } else {
      LiveDrop(cart, i, keep);
    }
  }

  lemma LiveKeep(cart: Cart, i: nat, keep: Line -> bool)
    requires i < |cart| && keep(cart[i])
    ensures Filter(cart[..i], keep) + cart[i..] == Filter(cart[..i + 1], keep) + cart[i + 1..]
  {
    var l, kept, rest := cart[i], Filter(cart[..i], keep), cart[i + 1..];
    assert cart[..i + 1] == cart[..i] + [l];
    FilterSnoc(cart[..i], l, keep);
    assert cart[i..] == [l] + rest;
    assert kept + ([l] + rest) == (kept + [l]) + rest;
  }

  lemma LiveDrop(cart: Cart, i: nat, keep: Line -> bool)
    requires KeysUnique(cart) && i < |cart| && !keep(cart[i])
    ensures RemoveKey(Filter(cart[..i], keep) + cart[i..], cart[i].key) == Filter(cart[..i + 1], keep) + cart[i + 1..]
  {
    var l, kept, rest := cart[i], Filter(cart[..i], keep), cart[i + 1..];
    assert cart[..i + 1] == cart[..i] + [l];
    FilterSnoc(cart[..i], l, keep);
    assert cart[i..] == [l] + rest;
    KeyNotElsewhere(cart, i, keep);
    FilterDropsOne(kept, l, rest, OtherKey(l.key));
    calc {
      RemoveKey(kept + cart[i..], l.key);
      Filter(kept + cart[i..], OtherKey(l.key));
      { assert kept + cart[i..] == kept + [l] + rest; }
      Filter(kept + [l] + rest, OtherKey(l.key));
      kept + rest;
      { assert Filter(cart[..i + 1], keep) == kept + [] == kept; }
      Filter(cart[..i + 1], keep) + rest;
    }
  }

  /** Line `i`'s key is used by no line kept before it and by no later line. */
  lemma KeyNotElsewhere(cart: Cart, i: nat, keep: Line -> bool)
    requires KeysUnique(cart) && i < |cart|
    ensures var kept := Filter(cart[..i], keep);
      forall j :: 0 <= j < |kept| ==> OtherKey(cart[i].key)(kept[j])
    ensures var rest := cart[i + 1..];
      forall j :: 0 <= j < |rest| ==> OtherKey(cart[i].key)(rest[j])
  {
    var kept, rest := Filter(cart[..i], keep), cart[i + 1..];
    forall j | 0 <= j < |kept| ensures OtherKey(cart[i].key)(kept[j]) {
      assert kept[j] in cart[..i];
    }
    forall j | 0 <= j < |rest| ensures OtherKey(cart[i].key)(rest[j]) {
      assert rest[j] == cart[i + 1 + j];
    }
  }
}
