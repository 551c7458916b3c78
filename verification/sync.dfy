/** The page and the cart stay in step. The products script keeps its own
    copy of the cart quantities and updates the display before the server
    answers; these lemmas follow one click through the AJAX endpoint and
    back, and show that afterwards the display, the page's record and the
    cart agree again, whether the server accepted the change or refused it. */
module Sync {
  import opened Common
  import opened Store
  import opened CartFunctions
  import opened ProductsWidget
  import Php
  import Plugin

  /** The page's record holds the cart's quantity for every product (0
      standing for a product without lines). */
  ghost predicate RecordMatches(m: map<ProductId, int>, cart: Cart) {
    forall x :: QuantityIn(m, x) == QuantityOf(cart, x)
  }

  /** The carts the plugin's own updates produce. */
  predicate CartShape(cart: Cart) {
    KeysUnique(cart) && QuantitiesPositive(cart) && OneLinePerProduct(cart)
  }

  /** A card with a consistent total that shows its product's quantity in
      the cart, next to a record that matches the cart. */
  ghost predicate Synced(c: Card, m: map<ProductId, int>, cart: Cart) {
    RecordMatches(m, cart) && Consistent(c) && c.shown == QuantityOf(cart, c.productId)
  }

  /** The quantity map the server computes, handed to the page, matches
      the cart. */
  lemma QuantityMapMatches(m: map<ProductId, int>, cart: Cart)
    requires IsQuantityMap(m, cart) && QuantitiesPositive(cart)
    ensures RecordMatches(m, cart)
  {
    forall x
      ensures QuantityIn(m, x) == QuantityOf(cart, x)
    {
      QuantityOfPositive(cart, x);
    }
  }

  /** After the server applies quantity `q` to product `p`, recording `q`
      for `p` keeps the record matching the cart. */
  lemma RecordAfterSuccess(shop: Shop, cart: Cart, m: map<ProductId, int>, p: ProductId, q: int)
    requires CartShape(cart) && RecordMatches(m, cart) && q >= 0
    requires UpdateCartProduct(shop, cart, p, q).outcome.Succeeded?
    ensures RecordMatches(m[p := q], UpdateCartProduct(shop, cart, p, q).cart)
  {
    var after := UpdateCartProduct(shop, cart, p, q).cart;
    UpdateCartProductQuantity(shop, cart, p, q);
    forall x
      ensures QuantityIn(m[p := q], x) == QuantityOf(after, x)
    {
      if x != p {
        UpdateCartProductOthers(shop, cart, p, q, x);
      }
    }
  }

  /** One plus click, or one minus click on a positive quantity, sent
      through `ajax_update_product_quantity` (or lost in transport when
      `delivered` is false) and answered: the cart keeps its shape, and
      the card, the record and the cart are in step again. On success the
      card shows the quantity one step further; on refusal it shows the
      quantity it had before the click. */
  lemma ClickStaysSynced(shop: Shop, cart: Cart, m: map<ProductId, int>, c: Card, plus: bool, delivered: bool)
    requires CartShape(cart) && Synced(c, m, cart)
    requires plus || c.shown > 0
    requires Php.MinInt <= c.productId <= Php.MaxInt && c.shown < Php.MaxInt
    ensures var sent := if plus then PlusClick(c) else (MinusClick(c).0, MinusClick(c).1.value);
      var reply := Plugin.AjaxUpdateProductQuantity(shop, cart, Plugin.ClientPost(sent.1.productId, sent.1.quantity));
      var ok := delivered && reply.response.QuantityUpdated?;
      var server := if delivered then reply.cart else cart;
      var answered := UpdateResponse(sent.0, Some(m), sent.1, ok);
      && CartShape(server)
      && answered.1.Some?
      && Synced(answered.0, answered.1.value, server)
      && (ok ==> answered.0.shown == (if plus then c.shown + 1 else c.shown - 1))
      && (!ok ==> answered.0.shown == c.shown && server == cart)
  {
    var sent := if plus then PlusClick(c) else (MinusClick(c).0, MinusClick(c).1.value);
    var p, q := sent.1.productId, sent.1.quantity;
    assert p == c.productId && q == (if plus then c.shown + 1 else c.shown - 1);
    QuantityOfPositive(cart, p);
    Plugin.ClientRequestRoundTrip(shop, cart, p, q);
    UpdateCartProductPreserves(shop, cart, p, q);
    var u := UpdateCartProduct(shop, cart, p, q);
    if delivered && u.outcome.Succeeded? {
      RecordAfterSuccess(shop, cart, m, p, q);
      UpdateCartProductQuantity(shop, cart, p, q);
    }
  }

  /** The checkbox variant: a box checked exactly when the product is in
      the cart stays so through a click and its answer; an accepted click
      flips it, a refused one restores it. */
  lemma CheckboxStaysSynced(shop: Shop, cart: Cart, m: map<ProductId, int>, p: ProductId, checked: bool, delivered: bool)
    requires CartShape(cart) && RecordMatches(m, cart)
    requires checked <==> QuantityOf(cart, p) > 0
    requires Php.MinInt <= p <= Php.MaxInt
    ensures var click := CheckboxClick(checked, p);
      var reply := Plugin.AjaxUpdateProductQuantity(shop, cart, Plugin.ClientPost(p, click.1.quantity));
      var ok := delivered && reply.response.QuantityUpdated?;
      var server := if delivered then reply.cart else cart;
      var answered := CheckboxResponse(click.0, Some(m), click.1, ok);
      && CartShape(server)
      && answered.1.Some?
      && RecordMatches(answered.1.value, server)
      && (answered.0 <==> QuantityOf(server, p) > 0)
      && (answered.0 <==> (if ok then !checked else checked))
  {
    var click := CheckboxClick(checked, p);
    var q := click.1.quantity;
    Plugin.ClientRequestRoundTrip(shop, cart, p, q);
    UpdateCartProductPreserves(shop, cart, p, q);
    var u := UpdateCartProduct(shop, cart, p, q);
    if delivered && u.outcome.Succeeded? {
      RecordAfterSuccess(shop, cart, m, p, q);
      UpdateCartProductQuantity(shop, cart, p, q);
    }
  }

  /** Cards loaded from the quantity map the server computed show, each,
      its product's quantity in the cart, whether the map came with the
      page or from the fetch endpoint. */
  lemma LoadedCardsShowCart(cart: Cart, cards: seq<Card>, m: map<ProductId, int>, fromPage: bool)
    requires QuantitiesPositive(cart) && IsQuantityMap(m, cart)
    ensures var loaded := if fromPage then LoadInitialQuantities(cards, Some(m), None)
                          else LoadInitialQuantities(cards, None, Some(m));
      && loaded.1 == Some(m)
      && forall i :: 0 <= i < |cards| ==> Synced(loaded.0[i], m, cart)
  {
    QuantityMapMatches(m, cart);
  }

  /** An accepted click also triggers `wc_fragment_refresh`; the
      `wc_fragments_refreshed` event that follows reruns the load pass from
      the page's record over every product card on the page. After an
      accepted click that pass leaves every card in step with the cart
      (a rental card loses its days: see `Layouts.LoadPassDropsDays`). */
  lemma RefreshAfterAcceptedClick(shop: Shop, cart: Cart, m: map<ProductId, int>, c: Card, plus: bool, cards: seq<Card>)
    requires CartShape(cart) && Synced(c, m, cart)
    requires plus || c.shown > 0
    requires Php.MinInt <= c.productId <= Php.MaxInt && c.shown < Php.MaxInt
    ensures var sent := if plus then PlusClick(c) else (MinusClick(c).0, MinusClick(c).1.value);
      var reply := Plugin.AjaxUpdateProductQuantity(shop, cart, Plugin.ClientPost(sent.1.productId, sent.1.quantity));
      var ok := reply.response.QuantityUpdated?;
      var answered := UpdateResponse(sent.0, Some(m), sent.1, ok);
      var refreshed := LoadInitialQuantities(cards, answered.1, None);
      ok ==>
        && refreshed.1 == answered.1
        && refreshed.1.Some?
        && forall i :: 0 <= i < |cards| ==> Synced(refreshed.0[i], refreshed.1.value, reply.cart)
  {
    ClickStaysSynced(shop, cart, m, c, plus, true);
  }

  /** The error callback cannot tell a refused update from an answer lost
      after the server applied it. In the second case the card falls back
      to the quantity it had before the click while the cart holds the
      new one, and the record no longer matches the cart. */
  lemma LostAnswerDesyncs(shop: Shop, cart: Cart, m: map<ProductId, int>, c: Card, plus: bool)
    requires CartShape(cart) && Synced(c, m, cart)
    requires plus || c.shown > 0
    requires Php.MinInt <= c.productId <= Php.MaxInt && c.shown < Php.MaxInt
    requires UpdateCartProduct(shop, cart, c.productId, if plus then c.shown + 1 else c.shown - 1).outcome.Succeeded?
    ensures var sent := if plus then PlusClick(c) else (MinusClick(c).0, MinusClick(c).1.value);
      var reply := Plugin.AjaxUpdateProductQuantity(shop, cart, Plugin.ClientPost(sent.1.productId, sent.1.quantity));
      var lost := UpdateResponse(sent.0, Some(m), sent.1, false);
      && reply.response.QuantityUpdated?
      && lost.0.shown == c.shown
      && QuantityOf(reply.cart, c.productId) == sent.1.quantity
      && lost.0.shown != QuantityOf(reply.cart, c.productId)
      && !RecordMatches(lost.1.value, reply.cart)
  {
    var sent := if plus then PlusClick(c) else (MinusClick(c).0, MinusClick(c).1.value);
    var p, q := sent.1.productId, sent.1.quantity;
    assert p == c.productId && q == (if plus then c.shown + 1 else c.shown - 1);
    QuantityOfPositive(cart, p);
    Plugin.ClientRequestRoundTrip(shop, cart, p, q);
    UpdateCartProductQuantity(shop, cart, p, q);
    var reply := Plugin.AjaxUpdateProductQuantity(shop, cart, Plugin.ClientPost(p, q));
    assert QuantityIn(m, p) != QuantityOf(reply.cart, p);
  }

  /** The same for the checkbox: an answer lost after the server applied
      the change flips the box back, so it disagrees with the cart. */
  lemma CheckboxLostAnswerDesyncs(shop: Shop, cart: Cart, m: map<ProductId, int>, p: ProductId, checked: bool)
    requires CartShape(cart) && RecordMatches(m, cart)
    requires checked <==> QuantityOf(cart, p) > 0
    requires Php.MinInt <= p <= Php.MaxInt
    requires UpdateCartProduct(shop, cart, p, CheckboxClick(checked, p).1.quantity).outcome.Succeeded?
    ensures var click := CheckboxClick(checked, p);
      var reply := Plugin.AjaxUpdateProductQuantity(shop, cart, Plugin.ClientPost(p, click.1.quantity));
      var lost := CheckboxResponse(click.0, Some(m), click.1, false);
      && reply.response.QuantityUpdated?
      && lost.0 == checked
      && (lost.0 <==> QuantityOf(reply.cart, p) == 0)
  {
    var click := CheckboxClick(checked, p);
    var q := click.1.quantity;
    Plugin.ClientRequestRoundTrip(shop, cart, p, q);
    UpdateCartProductQuantity(shop, cart, p, q);
  }
}
