/** The browser side of the simple layouts (`products-widget.js`): grid
    arithmetic (auto column count, visible items, which cards show, the
    show-more control), and the state of one product card under the
    plus/minus buttons, the checkbox, the server's answer and the initial
    load of cart quantities. Prices and totals are integer cents. */
module ProductsWidget {
  import opened Common
  import opened Js
  import opened Store

  const DefaultCardWidth: int := 350
  const DefaultGap: int := 20
  const DefaultRows: int := 2
  const DefaultColumns: int := 2

  /** `Math.floor(a / b)` for integers, `b != 0`. */
  function FloorDiv(a: int, b: int): (r: int)
    requires b != 0
    ensures b > 0 ==> r * b <= a < (r + 1) * b
    ensures b < 0 ==> r * b >= a > (r + 1) * b
  {
    if b > 0 then a / b else (-a) / (-b)
  }

  /** `n` cards of width `w` with a gap `g` between neighbours fit in a
      container `width` wide. */
  predicate Fits(n: int, w: int, g: int, width: int) {
    n * w + (n - 1) * g <= width
  }

  /** `calculateAllColumns` for one auto-mode grid:
      `max(1, floor((width + gap) / (cardWidth + gap)))`, with the card
      width and gap read by `parseInt(..) || default`. `None` stands for a
      non-finite quotient (Infinity or NaN, when the divisor is 0), which
      the script writes into the attribute and `parseInt` later reads as
      NaN. With a positive divisor the count is the largest number of
      cards that fit, and at least 1; a negative divisor (a negative card
      width attribute) still gives a finite count of at least 1. */
  function AutoColumns(cardWidthAttr: Option<int>, containerWidth: int, gapAttr: Option<int>): (r: Option<int>)
    ensures r.Some? ==> r.value >= 1
    ensures var w, g := OrDefault(cardWidthAttr, DefaultCardWidth), OrDefault(gapAttr, DefaultGap);
      w + g > 0 ==>
        && r.Some?
        && (r.value == 1 || Fits(r.value, w, g, containerWidth))
        && !Fits(r.value + 1, w, g, containerWidth)
    ensures var w, g := OrDefault(cardWidthAttr, DefaultCardWidth), OrDefault(gapAttr, DefaultGap);
      w + g == 0 ==> (r.None? <==> containerWidth + g >= 0)
    ensures var w, g := OrDefault(cardWidthAttr, DefaultCardWidth), OrDefault(gapAttr, DefaultGap);
      w + g < 0 ==> r.Some?
  {
    var w, g := OrDefault(cardWidthAttr, DefaultCardWidth), OrDefault(gapAttr, DefaultGap);
    var num, den := containerWidth + g, w + g;
    if den == 0 then
      // +Infinity and NaN stay non-finite through Math.max; -Infinity gives 1.
      if num < 0 then Some(1) else None
    else
      var k := FloorDiv(num, den);
      FloorFits(k, w, g, containerWidth);
      Some(if k < 1 then 1 else k)
  }

  /** The floor of the quotient counts the cards that fit. */
  lemma FloorFits(k: int, w: int, g: int, width: int)
    requires w + g > 0 ==> k * (w + g) <= width + g < (k + 1) * (w + g)
    ensures w + g > 0 ==> (k < 1 || Fits(k, w, g, width)) && !Fits(if k < 1 then 2 else k + 1, w, g, width)
  {
    if w + g > 0 {
      FitsScaled(k, w, g, width);
      FitsScaled(k + 1, w, g, width);
      if k < 1 {
        FitsScaled(2, w, g, width);
        assert (k + 1) * (w + g) <= w + g;
      }
    }
  }

  lemma FitsScaled(n: int, w: int, g: int, width: int)
    ensures Fits(n, w, g, width) <==> n * (w + g) <= width + g
  {
  }

  /** The attributes of one `.aura-products-grid` the script reads, each
      through `parseInt` (`None` is NaN), and whether it is expanded. */
  datatype Grid = Grid(
    autoMode: bool,                 // data-columns-mode === 'auto'
    rowsAttr: Option<int>,          // data-rows-visible
    calculatedAttr: Option<int>,    // data-calculated-columns
    countAttr: Option<int>,         // data-columns-count
    cardCount: nat,
    expanded: bool)

  /** The column count `updateAllVisibleRows` uses. */
  function Columns(g: Grid): int {
    if g.autoMode then OrDefault(g.calculatedAttr, DefaultColumns) else OrDefault(g.countAttr, DefaultColumns)
  }

  /** `visibleItems = rowsVisible * columns`. */
  function VisibleItems(g: Grid): int {
    OrDefault(g.rowsAttr, DefaultRows) * Columns(g)
  }

  /** Card `i` is displayed when it is among the first `visibleItems` or
      the grid is expanded. */
  predicate CardShown(g: Grid, i: nat) {
    i < VisibleItems(g) || g.expanded
  }

  /** The show-more control is displayed when there are more cards than
      visible items. */
  predicate ShowMoreShown(g: Grid) {
    g.cardCount > VisibleItems(g)
  }

  /** Both attributes read back as the numbers written, so neither
      default applies: the visible items are their product, and in auto
      mode the columns are the computed ones. */
  lemma VisibleItemsOf(g: Grid, rows: int, columns: int)
    requires rows != 0 && columns != 0
    requires g.rowsAttr == Some(rows)
    requires if g.autoMode then g.calculatedAttr == Some(columns) else g.countAttr == Some(columns)
    ensures VisibleItems(g) == rows * columns
  {
  }

  /** The show-more control appears exactly when some card is hidden in
      the collapsed grid (a negative visible count with no cards at all is
      the one case where it shows with nothing to reveal). */
  lemma ShowMoreIffHidden(g: Grid)
    requires VisibleItems(g) >= 0 || g.cardCount > 0
    ensures ShowMoreShown(g) <==> exists i: nat :: i < g.cardCount && !CardShown(g.(expanded := false), i)
  {
    var c := g.(expanded := false);
    assert VisibleItems(c) == VisibleItems(g);
    if ShowMoreShown(g) {
      var i: nat := if VisibleItems(g) >= 0 then VisibleItems(g) else 0;
      assert !CardShown(c, i);
    }
  }

  /** What the page shows of one grid: its attributes and `expanded`
      class, and each card's inline display as the last
      `updateAllVisibleRows` pass left it (`.show()` or `.hide()`). */
  datatype GridView = GridView(grid: Grid, displayed: seq<bool>)

  /** One `updateAllVisibleRows` pass over a grid (run at start-up and by
      the debounced resize handler): card `i` is shown when it is among
      the first `visibleItems` or the grid is expanded. */
  function VisibleRowsPass(g: Grid): (d: seq<bool>)
    ensures |d| == g.cardCount
    ensures forall i :: 0 <= i < |d| ==> d[i] == CardShown(g, i)
  {
    seq(g.cardCount, i requires 0 <= i < g.cardCount => CardShown(g, i))
  }

  /** `handleShowMore`: toggle the `expanded` class. The cards' inline
      display is left as it was. */
  function ShowMore(v: GridView): GridView {
    v.(grid := v.grid.(expanded := !v.grid.expanded))
  }

  /** Two toggles restore the page. A toggle changes the class and no
      card's display; the next pass then shows every card of an expanded
      grid, and exactly the first `visibleItems` of a collapsed one. */
  lemma ShowMoreToggles(v: GridView)
    ensures ShowMore(ShowMore(v)) == v
    ensures ShowMore(v).grid.expanded != v.grid.expanded
    ensures ShowMore(v).displayed == v.displayed
    ensures var d := VisibleRowsPass(ShowMore(v).grid);
      ShowMore(v).grid.expanded ==> forall i :: 0 <= i < |d| ==> d[i]
    ensures var d := VisibleRowsPass(ShowMore(v).grid);
      !ShowMore(v).grid.expanded ==> forall i :: 0 <= i < |d| ==> (d[i] <==> i < VisibleItems(v.grid))
  {
  }

  /** Expanding a grid the start-up pass collapsed reveals nothing by
      itself: a card the pass hid keeps its inline `display: none` until
      the next pass (any stylesheet rule for `.expanded` aside). */
  lemma ExpandKeepsCardsHidden(g: Grid)
    requires !g.expanded && 0 <= VisibleItems(g) < g.cardCount
    ensures var after := ShowMore(GridView(g, VisibleRowsPass(g)));
      && after.grid.expanded
      && !after.displayed[VisibleItems(g)]
      && VisibleRowsPass(after.grid)[VisibleItems(g)]
  {
  }

  /** One product card: its id, unit price, displayed quantity and total,
      and the `aria-checked` state of its checkbox when it has one. */
  datatype Card = Card(productId: ProductId, priceCents: int, shown: int, totalCents: int, checkbox: Option<bool>)

  /** The displayed total is the displayed quantity times the price. */
  predicate Consistent(c: Card) {
    c.totalCents == c.priceCents * c.shown
  }

  /** `updateProductUI`: display quantity `q` and the matching total. */
  function ShowQuantity(c: Card, q: int): (r: Card)
    ensures r.shown == q && Consistent(r)
    ensures r.productId == c.productId && r.priceCents == c.priceCents && r.checkbox == c.checkbox
  {
    c.(shown := q, totalCents := c.priceCents * q)
  }

  /** The request a card sends: the product and its new absolute quantity. */
  datatype Request = Request(productId: ProductId, quantity: int)

  /** `handlePlusClick`: display one more and ask the cart for it. */
  function PlusClick(c: Card): (r: (Card, Request))
    ensures r.0 == ShowQuantity(c, c.shown + 1)
    ensures r.1 == Request(c.productId, r.0.shown)
  {
    var q := c.shown + 1;
    (ShowQuantity(c, q), Request(c.productId, q))
  }

  /** `handleMinusClick`: at 0 (or below) nothing happens and nothing is
      sent; otherwise display one less and ask the cart for it. */
  function MinusClick(c: Card): (r: (Card, Option<Request>))
    ensures c.shown <= 0 <==> r.1.None?
    ensures c.shown <= 0 ==> r.0 == c
    ensures c.shown > 0 ==> r.0 == ShowQuantity(c, c.shown - 1) && r.1 == Some(Request(c.productId, c.shown - 1))
  {
    if c.shown <= 0 then (c, None)
    else
      var q := c.shown - 1;
      (ShowQuantity(c, q), Some(Request(c.productId, q)))
  }

  /** The buttons never take a card below 0, and minus undoes plus. */
  lemma ClicksStayNonNegative(c: Card)
    requires c.shown >= 0
    ensures PlusClick(c).0.shown >= 1 && MinusClick(c).0.shown >= 0
    ensures MinusClick(PlusClick(c).0).0.shown == c.shown
    ensures MinusClick(PlusClick(c).0).1 == Some(Request(c.productId, c.shown))
  {
  }

  /** `auraCpsData.cartQuantities`: the quantities the page believes the
      cart holds; `None` when the object is undefined. */
  type Recorded = Option<map<ProductId, int>>

  /** `m[p] || 0`: a product's recorded quantity, 0 when it has none. */
  function QuantityIn(m: map<ProductId, int>, p: ProductId): int {
    if p in m then m[p] else 0
  }

  /** What `revertProductUI` falls back to: the recorded quantity, or 0. */
  function RecordedQuantity(rec: Recorded, p: ProductId): int {
    match rec
    case Some(m) => QuantityIn(m, p)
    case None => 0
  }

  /** A success records the requested quantity when there is a record. */
  function Record(rec: Recorded, p: ProductId, q: int): (r: Recorded)
    ensures r.Some? <==> rec.Some?
    ensures r.Some? ==> RecordedQuantity(r, p) == q
    ensures forall x :: x != p ==> RecordedQuantity(r, x) == RecordedQuantity(rec, x)
  {
    match rec
    case Some(m) => Some(m[p := q])
    case None => None
  }

  /** The answer to an `updateCart` request (`ok` is a success reply;
      failure replies and transport errors are handled alike): success
      records the requested quantity and keeps the display; anything else
      reverts the display to the recorded quantity. */
  function UpdateResponse(c: Card, rec: Recorded, req: Request, ok: bool): (r: (Card, Recorded))
    ensures ok ==> r == (c, Record(rec, req.productId, req.quantity))
    ensures !ok ==> r.1 == rec && r.0 == ShowQuantity(c, RecordedQuantity(rec, req.productId))
  {
    if ok then (c, Record(rec, req.productId, req.quantity))
    else (ShowQuantity(c, RecordedQuantity(rec, req.productId)), rec)
  }

  /** After a click and its answer the card shows what the record holds
      for it: on success the request's quantity is recorded and shown, on
      failure the display falls back to the record. */
  lemma ClickThenAnswer(c: Card, rec: Recorded, plus: bool, ok: bool)
    requires rec.Some?
    requires plus || c.shown > 0
    ensures var sent := if plus then PlusClick(c) else (MinusClick(c).0, MinusClick(c).1.value);
      var r := UpdateResponse(sent.0, rec, sent.1, ok);
      && r.0.shown == RecordedQuantity(r.1, c.productId)
      && Consistent(r.0)
      && (ok ==> r.0.shown == (if plus then c.shown + 1 else c.shown - 1))
      && (!ok ==> r.0.shown == RecordedQuantity(rec, c.productId) && r.1 == rec)
  {
  }

  /** `handleCheckboxClick`: flip `aria-checked` and ask for quantity 0
      when it was checked, 1 when it was not. */
  function CheckboxClick(checked: bool, p: ProductId): (r: (bool, Request))
    ensures r.0 == !checked
    ensures r.1.productId == p && (r.1.quantity == 0 <==> checked) && (r.1.quantity == 1 <==> !checked)
  {
    (!checked, Request(p, if checked then 0 else 1))
  }

  /** The answer to an `updateCheckboxCart` request: success records the
      quantity; failure or error flips `aria-checked` back. */
  function CheckboxResponse(checked: bool, rec: Recorded, req: Request, ok: bool): (r: (bool, Recorded))
    ensures ok ==> r == (checked, Record(rec, req.productId, req.quantity))
    ensures !ok ==> r == (!checked, rec)
  {
    if ok then (checked, Record(rec, req.productId, req.quantity)) else (!checked, rec)
  }

  /** A refused checkbox click restores the original state; an accepted
      one leaves the box checked exactly when a positive quantity was
      recorded for the product. */
  lemma CheckboxRoundTrip(checked: bool, rec: Recorded, p: ProductId, ok: bool)
    requires rec.Some?
    ensures var click := CheckboxClick(checked, p);
      var r := CheckboxResponse(click.0, rec, click.1, ok);
      && (!ok ==> r == (checked, rec))
      && (ok ==> r.0 == !checked && (r.0 <==> RecordedQuantity(r.1, p) > 0))
  {
  }

  /** How `loadInitialQuantities` sets one card from a quantity map: the
      quantity (0 when absent), its total, and the checkbox checked
      exactly when the quantity is positive. */
  function LoadCard(c: Card, m: map<ProductId, int>): (r: Card)
    ensures Consistent(r) && r.shown == QuantityIn(m, c.productId)
    ensures r.productId == c.productId && r.priceCents == c.priceCents
    ensures r.checkbox.Some? <==> c.checkbox.Some?
    ensures r.checkbox.Some? ==> (r.checkbox.value <==> r.shown > 0)
  {
    var q := QuantityIn(m, c.productId);
    ShowQuantity(c, q).(checkbox := if c.checkbox.Some? then Some(q > 0) else None)
  }

  /** `loadInitialQuantities`: with a record, every card is set from it;
      without one the quantities are fetched (`fetched` is the reply's
      map, `None` when the request failed), recorded, and every card is
      set from them; a failed fetch changes nothing. */
  function LoadInitialQuantities(cards: seq<Card>, rec: Recorded, fetched: Option<map<ProductId, int>>)
    : (r: (seq<Card>, Recorded))
    ensures rec.Some? ==> r.1 == rec
    ensures rec.None? ==> r.1 == fetched
    ensures |r.0| == |cards|
    ensures r.1.None? ==> r.0 == cards
    ensures r.1.Some? ==> forall i :: 0 <= i < |cards| ==> r.0[i] == LoadCard(cards[i], r.1.value)
  {
    var source := if rec.Some? then rec else fetched;
    match source
    case None => (cards, rec)
    case Some(m) => (seq(|cards|, i requires 0 <= i < |cards| => LoadCard(cards[i], m)), source)
  }

  /** After loading, every card shows what the record holds for it, with
      a consistent total. */
  lemma LoadedCardsMatchRecord(cards: seq<Card>, rec: Recorded, fetched: Option<map<ProductId, int>>)
    requires rec.Some? || fetched.Some?
    ensures var r := LoadInitialQuantities(cards, rec, fetched);
      forall i :: 0 <= i < |cards| ==>
        r.0[i].shown == RecordedQuantity(r.1, cards[i].productId) && Consistent(r.0[i])
  {
  }
}
