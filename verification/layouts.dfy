/** The preambles of the three server-rendered layouts (`layout-card.php`,
    `layout-form.php`, `layout-equipment.php`): how the widget settings
    resolve into columns, card width and rows, which cards start hidden,
    when the show-more control is rendered, and each card's initial state.
    The `data-*` attributes they write are what the browser scripts read,
    so this module also states where server and browser agree. */
module Layouts {
  import opened Common
  import opened Decimal
  import opened Php
  import opened Js
  import opened Store
  import CartFunctions
  import ProductsWidget
  import EquipmentClient

  /** The widget settings the preambles read, as PHP values. */
  datatype Settings = Settings(
    columnsMode: Raw,          // columns_mode
    columnsCount: Raw,         // columns_count
    columnsCountTablet: Raw,   // columns_count_tablet
    columnsCountMobile: Raw,   // columns_count_mobile
    autoColumnsCount: Raw,     // auto_columns_count
    cardWidthSize: Raw,        // card_width['size']
    rowsVisible: Raw,          // rows_visible
    rowsVisibleTablet: Raw,    // rows_visible_tablet
    rowsVisibleMobile: Raw)    // rows_visible_mobile

  /** The desktop grid a layout resolves and writes into `data-*`. */
  datatype Resolved = Resolved(mode: Raw, columns: int, cardWidth: int, rows: int)

  /** The tablet and mobile columns and rows of the equipment layout. */
  datatype Responsive = Responsive(columnsTablet: int, columnsMobile: int, rowsTablet: int, rowsMobile: int)

  const AutoMode: Raw := Str("auto")
  const FixedMode: Raw := Str("fixed")
  const DefaultCardWidth: int := 350

  /** An empty `columns_mode` means auto. */
  function Mode(s: Settings): (m: Raw)
    ensures !Empty(m)
    ensures Empty(s.columnsMode) ==> m == AutoMode
    ensures !Empty(s.columnsMode) ==> m == s.columnsMode
  {
    if Empty(s.columnsMode) then AutoMode else s.columnsMode
  }

  /** A positive `auto_columns_count` in auto mode fixes the columns and
      switches the cards to flex distribution (card width 0). */
  predicate AutoCount(s: Settings) {
    !Empty(s.autoColumnsCount) && IntVal(s.autoColumnsCount) > 0
  }

  /** `layout-card.php`: fixed mode takes a non-empty column count, auto
      mode a non-empty card width; everything else keeps the defaults of
      2 columns, width 350 and 2 rows. */
  function CardGrid(s: Settings): (r: Resolved)
    ensures r.mode == Mode(s)
    ensures r.columns == (if Mode(s) == FixedMode && !Empty(s.columnsCount) then IntVal(s.columnsCount) else 2)
    ensures r.cardWidth == (if Mode(s) == AutoMode && !Empty(s.cardWidthSize) then IntVal(s.cardWidthSize) else DefaultCardWidth)
    ensures r.rows == IntOr(s.rowsVisible, 2)
    ensures r.mode != FixedMode ==> r.columns == 2
  {
    var mode := Mode(s);
    if mode == FixedMode && !Empty(s.columnsCount) then
      Resolved(mode, IntVal(s.columnsCount), DefaultCardWidth, IntOr(s.rowsVisible, 2))
    else if mode == AutoMode && !Empty(s.cardWidthSize) then
      Resolved(mode, 2, IntVal(s.cardWidthSize), IntOr(s.rowsVisible, 2))
    else
      Resolved(mode, 2, DefaultCardWidth, IntOr(s.rowsVisible, 2))
  }

  /** The auto branch shared by the form and equipment layouts: a positive
      automatic count wins; otherwise a non-empty card width is used and
      the columns stay at 2. */
  function AutoGrid(s: Settings): (r: Resolved)
    ensures r.mode == AutoMode && r.rows == IntOr(s.rowsVisible, 2)
    ensures AutoCount(s) ==> r.columns == IntVal(s.autoColumnsCount) && r.columns > 0 && r.cardWidth == 0
    ensures !AutoCount(s) ==> r.columns == 2
    ensures !AutoCount(s) && !Empty(s.cardWidthSize) ==> r.cardWidth == IntVal(s.cardWidthSize)
    ensures !AutoCount(s) && Empty(s.cardWidthSize) ==> r.cardWidth == DefaultCardWidth
  {
    if AutoCount(s) then Resolved(AutoMode, IntVal(s.autoColumnsCount), 0, IntOr(s.rowsVisible, 2))
    // a configured width of 0 also means flex distribution, again with 2 columns
    else if !Empty(s.cardWidthSize) then Resolved(AutoMode, 2, IntVal(s.cardWidthSize), IntOr(s.rowsVisible, 2))
    else Resolved(AutoMode, 2, DefaultCardWidth, IntOr(s.rowsVisible, 2))
  }

  /** `layout-form.php`: like the card layout, but auto mode honours a
      positive `auto_columns_count`. */
  function FormGrid(s: Settings): (r: Resolved)
    ensures r.mode == Mode(s) && r.rows == IntOr(s.rowsVisible, 2)
    ensures Mode(s) == FixedMode ==> r.columns == IntOr(s.columnsCount, 2) && r.cardWidth == DefaultCardWidth
    ensures Mode(s) == AutoMode ==> r == AutoGrid(s)
    ensures Mode(s) != FixedMode && Mode(s) != AutoMode ==> r.columns == 2 && r.cardWidth == DefaultCardWidth
  {
    var mode := Mode(s);
    if mode == FixedMode && !Empty(s.columnsCount) then
      Resolved(mode, IntVal(s.columnsCount), DefaultCardWidth, IntOr(s.rowsVisible, 2))
    else if mode == AutoMode then AutoGrid(s)
    else Resolved(mode, 2, DefaultCardWidth, IntOr(s.rowsVisible, 2))
  }

  /** `layout-equipment.php`, desktop: fixed mode reads the column count
      with a default of 2, auto mode as in the form layout. */
  function EquipmentGrid(s: Settings): (r: Resolved)
    ensures r.mode == Mode(s) && r.rows == IntOr(s.rowsVisible, 2)
    ensures Mode(s) == FixedMode ==> r.columns == IntOr(s.columnsCount, 2) && r.cardWidth == DefaultCardWidth
    ensures Mode(s) == AutoMode ==> r == AutoGrid(s)
  {
    var mode := Mode(s);
    if mode == FixedMode then Resolved(mode, IntOr(s.columnsCount, 2), DefaultCardWidth, IntOr(s.rowsVisible, 2))
    else if mode == AutoMode then AutoGrid(s)
    else Resolved(mode, 2, DefaultCardWidth, IntOr(s.rowsVisible, 2))
  }

  /** `layout-equipment.php`, tablet and mobile: in fixed mode the counts
      come from the settings with defaults 2 and 1; in any other mode they
      keep those defaults. Rows default to 2 and 3 in every mode. */
  function EquipmentResponsive(s: Settings): (r: Responsive)
    ensures Mode(s) == FixedMode ==> r.columnsTablet == IntOr(s.columnsCountTablet, 2) && r.columnsMobile == IntOr(s.columnsCountMobile, 1)
    ensures Mode(s) != FixedMode ==> r.columnsTablet == 2 && r.columnsMobile == 1
    ensures r.rowsTablet == IntOr(s.rowsVisibleTablet, 2) && r.rowsMobile == IntOr(s.rowsVisibleMobile, 3)
  {
    var fixed := Mode(s) == FixedMode;
    Responsive(
      if fixed then IntOr(s.columnsCountTablet, 2) else 2,
      if fixed then IntOr(s.columnsCountMobile, 1) else 1,
      IntOr(s.rowsVisibleTablet, 2),
      IntOr(s.rowsVisibleMobile, 3))
  }

  /** The equipment and form layouts resolve the desktop grid identically,
      and the card layout agrees with both unless auto mode has a positive
      automatic count. */
  lemma LayoutsAgree(s: Settings)
    ensures EquipmentGrid(s) == FormGrid(s)
    ensures !(Mode(s) == AutoMode && AutoCount(s)) ==> CardGrid(s) == FormGrid(s)
    ensures Mode(s) == AutoMode && AutoCount(s) ==> CardGrid(s).columns == 2 && FormGrid(s).cardWidth == 0
  {
  }

  /** With no settings at all every layout uses auto mode, 2 columns,
      cards 350 wide and 2 visible rows (the equipment tablet and mobile
      grids 2 x 2 and 1 x 3). */
  lemma Defaults()
    ensures var none := Settings(Missing, Missing, Missing, Missing, Missing, Missing, Missing, Missing, Missing);
      && CardGrid(none) == Resolved(AutoMode, 2, DefaultCardWidth, 2)
      && FormGrid(none) == Resolved(AutoMode, 2, DefaultCardWidth, 2)
      && EquipmentGrid(none) == Resolved(AutoMode, 2, DefaultCardWidth, 2)
      && EquipmentResponsive(none) == Responsive(2, 1, 2, 3)
  {
  }

  /** `visible_items = rows_visible * columns_count`. */
  function VisibleItems(r: Resolved): int {
    r.rows * r.columns
  }

  /** The card at `index` gets the `hidden-item` class. */
  predicate Hidden(index: nat, visible: int) {
    index >= visible
  }

  /** The show-more control is rendered when there are more products than
      visible items. */
  predicate ShowMoreRendered(count: nat, visible: int) {
    count > visible
  }

  /** The show-more control is rendered exactly when at least one card
      starts hidden (the one exception: no products and a negative visible
      count). */
  lemma HiddenCards(count: nat, visible: int)
    requires visible >= 0 || count > 0
    ensures ShowMoreRendered(count, visible) <==> exists i: nat :: i < count && Hidden(i, visible)
  {
    if ShowMoreRendered(count, visible) {
      var last: nat := count - 1;
      assert Hidden(last, visible);
    }
  }

  /** A number the server writes into an attribute is what `parseInt`
      reads back. */
  lemma AttributeReadsBack(n: int)
    ensures ParseInt(IntString(n)) == Some(n)
  {
    var x := IntString(n);
    assert "" + x + "" == x;
    ParseIntOfIntString("", n, "");
  }

  /** The grid the products script sees once the page is loaded: the
      attributes the layout wrote, read back by `parseInt`, and in auto
      mode the column count the script computed itself. */
  function BrowserGrid(r: Resolved, count: nat, calculated: Option<int>): ProductsWidget.Grid {
    ProductsWidget.Grid(
      r.mode == AutoMode,
      ParseInt(IntString(r.rows)),
      calculated,
      ParseInt(IntString(r.columns)),
      count,
      false)
  }

  /** Server and browser agree on the first view: when the rows and
      columns are non-zero (a zero is replaced by the script's default of
      2) and, in auto mode, the script's computed columns equal the
      server's, the script shows exactly the cards the layout left
      visible, and the show-more control exactly when the layout rendered
      it. With a positive automatic count the computed columns need not
      match (see `AutoCountIgnored`). */
  lemma BrowserAgrees(r: Resolved, count: nat, calculated: Option<int>)
    requires r.rows != 0 && r.columns != 0
    requires r.mode == AutoMode ==> calculated == Some(r.columns)
    ensures var g := BrowserGrid(r, count, calculated);
      && ProductsWidget.VisibleItems(g) == VisibleItems(r)
      && (forall i: nat :: ProductsWidget.CardShown(g, i) <==> !Hidden(i, VisibleItems(r)))
      && (ProductsWidget.ShowMoreShown(g) <==> ShowMoreRendered(count, VisibleItems(r)))
  {
    AttributeReadsBack(r.rows);
    AttributeReadsBack(r.columns);
    ProductsWidget.VisibleItemsOf(BrowserGrid(r, count, calculated), r.rows, r.columns);
  }

  /** A non-empty rows setting that `intval` reads as 0 ("abc", "0.5")
      hides every card of the card layout on the server, while the script
      reads the 0 back, falls back to 2 rows and shows the first card;
      only a negative fixed column count makes the two agree again. The
      script's own column count in auto mode is the one `AutoColumns`
      leaves in the attribute: absent or at least 1. */
  lemma ZeroRowsDisagree(s: Settings, count: nat, calculated: Option<int>)
    requires count > 0
    requires !Empty(s.rowsVisible) && IntVal(s.rowsVisible) == 0
    requires calculated.None? || calculated.value >= 1
    ensures var r := CardGrid(s);
      var g := BrowserGrid(r, count, calculated);
      && VisibleItems(r) == 0
      && Hidden(0, VisibleItems(r))
      && ProductsWidget.VisibleItems(g) == 2 * ProductsWidget.Columns(g)
      && (r.mode == AutoMode || r.columns >= 0 <==> ProductsWidget.CardShown(g, 0))
  {
    var r := CardGrid(s);
    AttributeReadsBack(r.rows);
    AttributeReadsBack(r.columns);
  }

  /** A positive automatic column count is lost on the way to the script.
      The form and equipment layouts then write `data-card-width="0"`,
      which the script reads as `parseInt(..) || 350`, so it computes its
      columns from 350-pixel cards. At the container width where exactly
      one card more than configured fits, it uses that many columns. */
  lemma AutoCountIgnored(s: Settings)
    requires Mode(s) == AutoMode && AutoCount(s)
    ensures var r := FormGrid(s);
      var width := (r.columns + 1) * (DefaultCardWidth + ProductsWidget.DefaultGap) - ProductsWidget.DefaultGap;
      && EquipmentGrid(s) == r
      && r.columns == IntVal(s.autoColumnsCount) >= 1
      && r.cardWidth == 0
      && ProductsWidget.AutoColumns(ParseInt(IntString(r.cardWidth)), width, None) == Some(r.columns + 1)
  {
    var r := FormGrid(s);
    AttributeReadsBack(0);
    var n := r.columns;
    var width := (n + 1) * (DefaultCardWidth + ProductsWidget.DefaultGap) - ProductsWidget.DefaultGap;
    assert width + ProductsWidget.DefaultGap == (n + 1) * 370;
    var k := ProductsWidget.FloorDiv(width + ProductsWidget.DefaultGap, 370);
    assert k * 370 <= (n + 1) * 370 < (k + 1) * 370;
    assert k == n + 1;
  }

  // ----- Initial card state -----

  /** `$cart_quantities[$id]` when set, else 0. */
  function InitialQuantity(quantities: map<ProductId, int>, p: ProductId): (q: int)
    ensures p in quantities ==> q == quantities[p]
    ensures p !in quantities ==> q == 0
  {
    if p in quantities then quantities[p] else 0
  }

  /** A card of the card layout as rendered: quantity and total. */
  datatype CardView = CardView(quantity: int, totalCents: int)

  /** `layout-card.php`: the initial quantity from the aggregated cart
      quantities and the total `quantity * price`. */
  function RenderCard(quantities: map<ProductId, int>, p: ProductId, priceCents: int): (v: CardView)
    ensures v.quantity == InitialQuantity(quantities, p)
    ensures v.totalCents == v.quantity * priceCents
  {
    var q := InitialQuantity(quantities, p);
    CardView(q, q * priceCents)
  }

  /** The card the server renders from the cart's quantity map shows the
      product's summed quantity in the cart, and it is the card the
      products script produces when it loads the same map. */
  lemma RenderedCardIsLoaded(shop: Shop, cart: Cart, quantities: map<ProductId, int>, c: ProductsWidget.Card)
    requires CartFunctions.IsQuantityMap(quantities, cart) && QuantitiesPositive(cart)
    ensures RenderCard(quantities, c.productId, c.priceCents).quantity == QuantityOf(cart, c.productId)
    ensures var loaded := ProductsWidget.LoadCard(c, quantities);
      var v := RenderCard(quantities, c.productId, c.priceCents);
      loaded.shown == v.quantity && loaded.totalCents == v.totalCents
  {
    QuantityOfPositive(cart, c.productId);
  }

  /** What the equipment layout finds for a product in the cart data:
      each field may be unset. */
  datatype RentalEntry = RentalEntry(quantity: Option<int>, rentalStart: Option<string>, rentalEnd: Option<string>)

  /** PHP truthiness of a string: "" and "0" are false. */
  predicate Truthy(s: string) {
    s != "" && s != "0"
  }

  /** An equipment card as rendered. */
  datatype EquipmentView = EquipmentView(
    quantity: int,
    days: int,
    totalCents: int,
    dateValue: string,     // the value attribute of the date input; "" when absent
    confirmChecked: bool)  // aria-checked of the confirm control

  /** Whether the stored dates reach the `DateTime` constructors: PHP
      parses them only when both are truthy. */
  predicate BothDates(data: map<ProductId, RentalEntry>, p: ProductId) {
    p in data && Truthy(data[p].rentalStart.GetOr("")) && Truthy(data[p].rentalEnd.GetOr(""))
  }

  /** `layout-equipment.php`, per product: unset fields read as 0 and "";
      with both dates set each is parsed with `dayOf` (`new DateTime`),
      and an unparsable one throws, so no card is rendered (None); the
      days are the day difference plus one, else 1; the total is quantity
      x price x days; the date input holds "start to end" when both dates
      are set; the confirm control is checked exactly at a positive
      quantity. */
  function RenderEquipment(data: map<ProductId, RentalEntry>, p: ProductId, priceCents: int, dayOf: string -> Option<int>): (r: Option<EquipmentView>)
    ensures r.None? <==> BothDates(data, p) && (dayOf(data[p].rentalStart.GetOr("")).None? || dayOf(data[p].rentalEnd.GetOr("")).None?)
    ensures r.Some? && p !in data ==> r.value.quantity == 0 && r.value.days == 1 && r.value.dateValue == ""
    ensures r.Some? && p in data ==> r.value.quantity == data[p].quantity.GetOr(0)
    ensures r.Some? ==> r.value.days >= 1
    ensures r.Some? ==> r.value.totalCents == r.value.quantity * priceCents * r.value.days
    ensures r.Some? ==> (r.value.confirmChecked <==> r.value.quantity > 0)
    ensures r.Some? && p in data ==>
      var start, end := data[p].rentalStart.GetOr(""), data[p].rentalEnd.GetOr("");
      && (BothDates(data, p) ==>
            r.value.days == EquipmentClient.RentalDays(dayOf(start).value, dayOf(end).value) && r.value.dateValue == start + " to " + end)
      && (!BothDates(data, p) ==> r.value.days == 1 && r.value.dateValue == "")
  {
    var e := if p in data then data[p] else RentalEntry(None, None, None);
    var q := e.quantity.GetOr(0);
    var start, end := e.rentalStart.GetOr(""), e.rentalEnd.GetOr("");
    if BothDates(data, p) && (dayOf(start).None? || dayOf(end).None?) then None
    else
      var both := BothDates(data, p);
      var diff := if both then (if dayOf(end).value >= dayOf(start).value then dayOf(end).value - dayOf(start).value else dayOf(start).value - dayOf(end).value) else 0;
      var days := diff + 1;
      Some(EquipmentView(q, days, q * priceCents * days, if both then start + " to " + end else "", q > 0))
  }

  /** The rental card the equipment script starts from: the rendered
      quantity, days attribute, total and date input, with the input
      state set once on load. */
  function InitialRentalCard(v: EquipmentView, p: ProductId, priceCents: int, totalText: string): EquipmentClient.RentalCard {
    EquipmentClient.DateInputState(EquipmentClient.RentalCard(
      p, priceCents, v.quantity, ParseInt(IntString(v.days)), totalText, false, false, v.dateValue))
  }

  /** A rendered view, read back by the equipment script, gives the same
      total and enables the date input exactly when confirm is checked. */
  lemma InitialCardReadsBack(v: EquipmentView, p: ProductId, priceCents: int, totalText: string)
    requires v.days >= 1 && v.totalCents == v.quantity * priceCents * v.days
    requires v.confirmChecked <==> v.quantity > 0
    ensures var c := InitialRentalCard(v, p, priceCents, totalText);
      && EquipmentClient.TotalCents(c) == v.totalCents
      && (c.dateInputEnabled <==> v.confirmChecked)
  {
    AttributeReadsBack(v.days);
  }

  /** The script continues from what the server rendered: it reads back
      the days, so recomputing the total gives the server's total; the
      date input is enabled exactly when the confirm control is checked;
      and when the stored dates hold no white space, plus sends exactly
      the stored dates. A render that threw leaves no card to continue
      from. */
  lemma RentalCardContinues(data: map<ProductId, RentalEntry>, p: ProductId, priceCents: int, dayOf: string -> Option<int>, totalText: string)
    ensures var r := RenderEquipment(data, p, priceCents, dayOf);
      r.Some? ==>
      var c := InitialRentalCard(r.value, p, priceCents, totalText);
      && EquipmentClient.TotalCents(c) == r.value.totalCents
      && (c.dateInputEnabled <==> r.value.confirmChecked)
    ensures var r := RenderEquipment(data, p, priceCents, dayOf);
      r.Some? && BothDates(data, p)
      && EquipmentClient.Unspaced(data[p].rentalStart.GetOr("")) && EquipmentClient.Unspaced(data[p].rentalEnd.GetOr(""))
      ==> EquipmentClient.PlusClick(InitialRentalCard(r.value, p, priceCents, totalText))
          == Some(EquipmentClient.Increase(p, data[p].rentalStart.GetOr(""), data[p].rentalEnd.GetOr("")))
  {
    var r := RenderEquipment(data, p, priceCents, dayOf);
    if r.Some? {
      var v := r.value;
      InitialCardReadsBack(v, p, priceCents, totalText);
      var c := InitialRentalCard(v, p, priceCents, totalText);
      if BothDates(data, p)
        && EquipmentClient.Unspaced(data[p].rentalStart.GetOr("")) && EquipmentClient.Unspaced(data[p].rentalEnd.GetOr(""))
      {
        EquipmentClient.PlusSendsRenderedRange(c, data[p].rentalStart.GetOr(""), data[p].rentalEnd.GetOr(""));
      }
    }
  }

  /** A rendered rental card as the products script sees it: it is an
      `.aura-product-card` with a price attribute, a quantity display and
      a total, and it has no `.aura-checkbox-btn`. */
  function ProductCardOf(v: EquipmentView, p: ProductId, priceCents: int): ProductsWidget.Card {
    ProductsWidget.Card(p, priceCents, v.quantity, v.totalCents, None)
  }

  /** The products script's load pass runs over rental cards too and
      rewrites their total as quantity times price, without the days: even
      when the cart holds the rendered quantity, the rendered total
      survives exactly when the days make no difference. */
  lemma LoadPassDropsDays(data: map<ProductId, RentalEntry>, p: ProductId, priceCents: int, dayOf: string -> Option<int>, m: map<ProductId, int>)
    requires var r := RenderEquipment(data, p, priceCents, dayOf);
      r.Some? ==> ProductsWidget.QuantityIn(m, p) == r.value.quantity
    ensures var r := RenderEquipment(data, p, priceCents, dayOf);
      r.Some? ==>
      var loaded := ProductsWidget.LoadCard(ProductCardOf(r.value, p, priceCents), m);
      && loaded.shown == r.value.quantity
      && (loaded.totalCents == r.value.totalCents <==> r.value.quantity * priceCents == 0 || r.value.days == 1)
  {
    var r := RenderEquipment(data, p, priceCents, dayOf);
    if r.Some? {
      var v := r.value;
      var k := v.quantity * priceCents;
      assert v.totalCents == k * v.days;
      assert ProductsWidget.LoadCard(ProductCardOf(v, p, priceCents), m).totalCents == k;
      assert k * v.days - k == k * (v.days - 1);
      if k != 0 && v.days != 1 {
        assert k * (v.days - 1) != 0;
      }
    }
  }

  /** Both scripts answer the plus and minus buttons of a rental card. At
      a positive quantity with no complete range the rental handler sends
      nothing, while the products handler still shows one more, prices it
      without the days and asks the cart for it; a minus click is sent by
      both, as a decrease and as the quantity one lower. */
  lemma RentalClickHandledTwice(c: EquipmentClient.RentalCard, totalCents: int)
    requires c.shown > 0
    ensures var card := ProductsWidget.Card(c.productId, c.priceCents, c.shown, totalCents, None);
      var plus := ProductsWidget.PlusClick(card);
      && (!EquipmentClient.HasRange(c.dateValue) ==> EquipmentClient.PlusClick(c).None?)
      && plus.1 == ProductsWidget.Request(c.productId, c.shown + 1)
      && plus.0.shown == c.shown + 1 && plus.0.totalCents == c.priceCents * (c.shown + 1)
    ensures var card := ProductsWidget.Card(c.productId, c.priceCents, c.shown, totalCents, None);
      && EquipmentClient.MinusClick(c) == EquipmentClient.Decrease(c.productId)
      && ProductsWidget.MinusClick(card).1 == Some(ProductsWidget.Request(c.productId, c.shown - 1))
  {
  }

  /** A card of the form layout as rendered. */
  datatype FormView = FormView(confirmedClass: bool, textareaDisabled: bool, ariaChecked: bool, checkboxDisabled: bool)

  /** The session's `aura_arrival_confirmed` flag, false when there is no
      session or no flag. */
  function SessionConfirmed(session: Option<map<string, bool>>): (b: bool)
    ensures session.None? ==> !b
    ensures session.Some? ==> (b <==> "aura_arrival_confirmed" in session.value && session.value["aura_arrival_confirmed"])
  {
    match session
    case None => false
    case Some(m) => if "aura_arrival_confirmed" in m then m["aura_arrival_confirmed"] else false
  }

  /** `layout-form.php`: the confirmed flag alone decides the card's
      `confirmed` class, the disabled textarea and `aria-checked`; the
      checkbox itself is always rendered disabled. */
  function RenderForm(session: Option<map<string, bool>>): (v: FormView)
    ensures v.confirmedClass == v.textareaDisabled == v.ariaChecked == SessionConfirmed(session)
    ensures v.checkboxDisabled
  {
    var confirmed := SessionConfirmed(session);
    FormView(confirmed, confirmed, confirmed, true)
  }
}
