/** The WooCommerce side of the plugin, reduced to what the plugin reads
    and changes: cart lines, product records, and the per-product sums the
    plugin computes over a cart. */
module Store {
  import opened Common

  type ProductId = int

  /** A cart item key. WooCommerce derives keys by hashing the item; the
      model only needs them to be distinct, so they are numbers. */
  type Key = nat

  /** One cart item: its key, the product it holds, and how many. */
  datatype Line = Line(key: Key, productId: ProductId, quantity: int)

  /** The cart's items in insertion order (PHP iterates them that way). */
  type Cart = seq<Line>

  datatype ProductKind = Simple | Variable | Grouped | External
  datatype PostStatus = Publish | Draft | Pending | Private

  /** The parts of a product record the plugin consults. */
  datatype Product = Product(kind: ProductKind, status: PostStatus, purchasable: bool)

  /** `wc_get_product`: the products that exist, by id. */
  type Catalog = map<ProductId, Product>

  /** The host environment of one request: whether a cart object exists
      at all, the catalogue, the stock check `has_enough_stock(q)` (left
      uninterpreted), and whether `add_to_cart` accepts the new item (its
      own validation hooks are not part of this model). */
  datatype Shop = Shop(
    cartAvailable: bool,
    catalog: Catalog,
    enoughStock: (ProductId, int) -> bool,
    addAccepted: bool)

  /** Cart keys are the keys of an associative array: never repeated. */
  predicate KeysUnique(cart: Cart) {
    forall i, j :: 0 <= i < j < |cart| ==> cart[i].key != cart[j].key
  }

  /** WooCommerce never keeps an item with a non-positive quantity. */
  predicate QuantitiesPositive(cart: Cart) {
    forall i :: 0 <= i < |cart| ==> cart[i].quantity > 0
  }

  predicate WellFormed(cart: Cart) {
    KeysUnique(cart) && QuantitiesPositive(cart)
  }

  /** No product has two lines, which is what the plugin's own updates
      keep when they are the only writers. */
  predicate OneLinePerProduct(cart: Cart) {
    forall i, j :: 0 <= i < j < |cart| ==> cart[i].productId != cart[j].productId
  }

  /** The products that have at least one line. */
  function ProductIds(cart: Cart): set<ProductId> {
    set i | 0 <= i < |cart| :: cart[i].productId
  }

  /** The index of the first line holding product `p`, if any. */
  function FirstLine(cart: Cart, p: ProductId): (r: Option<nat>)
    ensures r.Some? ==> r.value < |cart| && cart[r.value].productId == p
    ensures r.Some? ==> forall j :: 0 <= j < r.value ==> cart[j].productId != p
    ensures r.None? <==> forall j :: 0 <= j < |cart| ==> cart[j].productId != p
    decreases |cart|
  {
    if |cart| == 0 then None
    else if cart[0].productId == p then Some(0)
    else
      match FirstLine(cart[1..], p)
      case None => None
      case Some(i) => Some(i + 1)
  }

  /** The quantity of `p` summed over all its lines (0 without lines):
      the reference definition every aggregation in the plugin is
      compared with. */
  function QuantityOf(cart: Cart, p: ProductId): int
    decreases |cart|
  {
    if |cart| == 0 then 0
    else
      var last := cart[|cart| - 1];
      QuantityOf(cart[..|cart| - 1], p) + (if last.productId == p then last.quantity else 0)
  }

  /** The per-product sum is additive over a split of the cart. */
  lemma {:induction false} QuantityOfConcat(a: Cart, b: Cart, p: ProductId)
    ensures QuantityOf(a + b, p) == QuantityOf(a, p) + QuantityOf(b, p)
    decreases |b|
  {
    if |b| == 0 {
      assert a + b == a;
    } else {
      assert (a + b)[..|a + b| - 1] == a + b[..|b| - 1];
      QuantityOfConcat(a, b[..|b| - 1], p);
    }
  }

  /** A product without lines has quantity 0. */
  lemma {:induction false} QuantityOfAbsent(cart: Cart, p: ProductId)
    requires forall j :: 0 <= j < |cart| ==> cart[j].productId != p
    ensures QuantityOf(cart, p) == 0
    decreases |cart|
  {
    if |cart| > 0 {
      QuantityOfAbsent(cart[..|cart| - 1], p);
    }
  }

  /** With one line per product, a product's quantity is that of its line. */
  lemma QuantityOfSingleLine(cart: Cart, p: ProductId, i: nat)
    requires OneLinePerProduct(cart)
    requires i < |cart| && cart[i].productId == p
    ensures QuantityOf(cart, p) == cart[i].quantity
  {
    assert cart == cart[..i] + [cart[i]] + cart[i + 1..];
    QuantityOfConcat(cart[..i] + [cart[i]], cart[i + 1..], p);
    QuantityOfConcat(cart[..i], [cart[i]], p);
    QuantityOfAbsent(cart[..i], p);
    QuantityOfAbsent(cart[i + 1..], p);
    assert QuantityOf([cart[i]], p) == cart[i].quantity by {
      assert [cart[i]][..0] == [];
    }
  }

  /** The largest key in use, 0 for an empty cart. */
  function MaxKey(cart: Cart): (m: Key)
    ensures forall i :: 0 <= i < |cart| ==> cart[i].key <= m
    decreases |cart|
  {
    if |cart| == 0 then 0
    else
      var rest := MaxKey(cart[1..]);
      if cart[0].key > rest then cart[0].key else rest
  }

  /** The key `add_to_cart` gives a new item: one not used by any line. */
  function NewKey(cart: Cart): (k: Key)
    ensures forall i :: 0 <= i < |cart| ==> cart[i].key != k
  {
    MaxKey(cart) + 1
  }

  /** `remove_cart_item(key)`: the cart without the item stored under `k`. */
  function RemoveKey(cart: Cart, k: Key): Cart {
    Filter(cart, OtherKey(k))
  }

  /** The test "not stored under `k`". */
  function OtherKey(k: Key): Line -> bool {
    (l: Line) => l.key != k
  }

  /** `set_quantity(key, q)`: WooCommerce removes the item when `q <= 0`
      and otherwise overwrites its quantity. */
  function SetQuantity(cart: Cart, k: Key, q: int): Cart {
    if q <= 0 then RemoveKey(cart, k)
    else
      seq(|cart|, i requires 0 <= i < |cart| =>
        if cart[i].key == k then cart[i].(quantity := q) else cart[i])
  }

  /** With distinct keys, removing a key removes exactly the line at its
      position and keeps every other line in order. */
  lemma RemoveKeyAt(cart: Cart, i: nat)
    requires KeysUnique(cart)
    requires i < |cart|
    ensures RemoveKey(cart, cart[i].key) == cart[..i] + cart[i + 1..]
  {
    var keep := OtherKey(cart[i].key);
    var a, b := cart[..i], cart[i + 1..];
    assert cart == a + [cart[i]] + b;
    forall j | 0 <= j < |a| ensures keep(a[j]) {
      assert a[j] == cart[j];
    }
    forall j | 0 <= j < |b| ensures keep(b[j]) {
      assert b[j] == cart[i + 1 + j];
    }
    FilterDropsOne(a, cart[i], b, keep);
  }

  /** With distinct keys, setting a positive quantity under a line's key
      overwrites that line's quantity and nothing else. */
  lemma SetQuantityAt(cart: Cart, i: nat, q: int)
    requires KeysUnique(cart)
    requires i < |cart| && q > 0
    ensures SetQuantity(cart, cart[i].key, q) == cart[i := cart[i].(quantity := q)]
  {
  }

  /** Dropping one line keeps the keys distinct. */
  lemma KeysUniqueWithout(cart: Cart, i: nat)
    requires KeysUnique(cart) && i < |cart|
    ensures KeysUnique(cart[..i] + cart[i + 1..])
  {
    var r := cart[..i] + cart[i + 1..];
    forall a, b | 0 <= a < b < |r| ensures r[a].key != r[b].key {
      var a', b' := if a < i then a else a + 1, if b < i then b else b + 1;
      assert r[a] == cart[a'] && r[b] == cart[b'];
    }
  }

  /** Dropping one line keeps every product at most once. */
  lemma OneLinePerProductWithout(cart: Cart, i: nat)
    requires OneLinePerProduct(cart) && i < |cart|
    ensures OneLinePerProduct(cart[..i] + cart[i + 1..])
  {
    var r := cart[..i] + cart[i + 1..];
    forall a, b | 0 <= a < b < |r| ensures r[a].productId != r[b].productId {
      var a', b' := if a < i then a else a + 1, if b < i then b else b + 1;
      assert r[a] == cart[a'] && r[b] == cart[b'];
    }
  }

  /** Dropping the line at `i` lowers the quantity of its product by that
      line's quantity and leaves every other product's quantity alone. */
  lemma QuantityOfWithout(cart: Cart, i: nat, p: ProductId)
    requires i < |cart|
    ensures QuantityOf(cart[..i] + cart[i + 1..], p)
      == QuantityOf(cart, p) - (if cart[i].productId == p then cart[i].quantity else 0)
  {
    assert cart == cart[..i] + [cart[i]] + cart[i + 1..];
    QuantityOfConcat(cart[..i] + [cart[i]], cart[i + 1..], p);
    QuantityOfConcat(cart[..i], [cart[i]], p);
    QuantityOfConcat(cart[..i], cart[i + 1..], p);
    assert [cart[i]][..0] == [];
  }

  /** Overwriting the quantity of the line at `i` moves its product's sum
      by the difference and leaves every other product's sum alone. */
  lemma QuantityOfReplace(cart: Cart, i: nat, q: int, p: ProductId)
    requires i < |cart|
    ensures QuantityOf(cart[i := cart[i].(quantity := q)], p)
      == QuantityOf(cart, p) + (if cart[i].productId == p then q - cart[i].quantity else 0)
  {
    var c := cart[i := cart[i].(quantity := q)];
    assert c == cart[..i] + [c[i]] + cart[i + 1..];
    assert cart == cart[..i] + [cart[i]] + cart[i + 1..];
    QuantityOfConcat(cart[..i] + [c[i]], cart[i + 1..], p);
    QuantityOfConcat(cart[..i], [c[i]], p);
    QuantityOfConcat(cart[..i] + [cart[i]], cart[i + 1..], p);
    QuantityOfConcat(cart[..i], [cart[i]], p);
    assert [c[i]][..0] == [] && [cart[i]][..0] == [];
  }

  /** Appending a line adds its quantity to its own product only. */
  lemma QuantityOfAppend(cart: Cart, l: Line, p: ProductId)
    ensures QuantityOf(cart + [l], p) == QuantityOf(cart, p) + (if l.productId == p then l.quantity else 0)
  {
    assert (cart + [l])[..|cart|] == cart;
  }

  /** In a cart whose lines all hold positive quantities, a product has a
      positive sum exactly when it has a line. */
  lemma {:induction false} QuantityOfPositive(cart: Cart, p: ProductId)
    requires QuantitiesPositive(cart)
    ensures QuantityOf(cart, p) >= 0
    ensures QuantityOf(cart, p) > 0 <==> p in ProductIds(cart)
    decreases |cart|
  {
    if |cart| > 0 {
      var init := cart[..|cart| - 1];
      QuantityOfPositive(init, p);
      assert ProductIds(cart) == ProductIds(init) + {cart[|cart| - 1].productId} by {
        forall x | x in ProductIds(cart) ensures x in ProductIds(init) + {cart[|cart| - 1].productId} {
          var k :| 0 <= k < |cart| && cart[k].productId == x;
          if k < |cart| - 1 {
            assert init[k] == cart[k];
          }
        }
        forall x | x in ProductIds(init) ensures x in ProductIds(cart) {
          var k :| 0 <= k < |init| && init[k].productId == x;
          assert cart[k] == init[k];
        }
      }
    }
  }

  /** Dropping one line keeps distinct keys, positive quantities and one
      line per product, whichever of them held. */
  lemma ShapeWithout(cart: Cart, i: nat)
    requires i < |cart|
    ensures KeysUnique(cart) ==> KeysUnique(cart[..i] + cart[i + 1..])
    ensures QuantitiesPositive(cart) ==> QuantitiesPositive(cart[..i] + cart[i + 1..])
    ensures OneLinePerProduct(cart) ==> OneLinePerProduct(cart[..i] + cart[i + 1..])
  {
    var r := cart[..i] + cart[i + 1..];
    forall a | 0 <= a < |r| ensures r[a] == cart[if a < i then a else a + 1] {
    }
  }

  /** Overwriting one line's quantity with a positive one keeps the shape. */
  lemma ShapeReplace(cart: Cart, i: nat, q: int)
    requires i < |cart| && q > 0
    ensures KeysUnique(cart) ==> KeysUnique(cart[i := cart[i].(quantity := q)])
    ensures QuantitiesPositive(cart) ==> QuantitiesPositive(cart[i := cart[i].(quantity := q)])
    ensures OneLinePerProduct(cart) ==> OneLinePerProduct(cart[i := cart[i].(quantity := q)])
  {
  }

  /** Appending a line under a fresh key keeps the keys distinct; with a
      positive quantity and a product not yet in the cart it keeps the
      rest of the shape too. */
  lemma ShapeAppend(cart: Cart, l: Line)
    requires forall j :: 0 <= j < |cart| ==> cart[j].key != l.key
    ensures KeysUnique(cart) ==> KeysUnique(cart + [l])
    ensures QuantitiesPositive(cart) && l.quantity > 0 ==> QuantitiesPositive(cart + [l])
    ensures OneLinePerProduct(cart) && l.productId !in ProductIds(cart) ==> OneLinePerProduct(cart + [l])
  {
    var r := cart + [l];
    forall a | 0 <= a < |r| ensures r[a] == if a < |cart| then cart[a] else l {
    }
    if l.productId !in ProductIds(cart) {
      forall j | 0 <= j < |cart| ensures cart[j].productId != l.productId {
        assert cart[j].productId in ProductIds(cart);
      }
    }
  }
}
