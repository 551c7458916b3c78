/** The browser side of the equipment-rental layout (`layout-equipment.js`):
    the rental card's quantity, rental days, total text, and the enabled
    state of its minus button and date input, under date changes, the
    plus/minus buttons and the server's answers. Dates are day numbers,
    prices and totals integer cents. */
module EquipmentClient {
  import opened Common
  import opened Js
  import opened Store

  /** One rental card as the script sees it: the displayed quantity, the
      `data-rental-days` attribute read by `parseInt` (`None` is NaN),
      the text of the total (a number then the currency marker), the
      disabled state of the minus button, the enabled state of the date
      input, and the value of the date input. */
  datatype RentalCard = RentalCard(
    productId: ProductId,
    priceCents: int,
    shown: int,
    daysAttr: Option<int>,
    totalText: string,
    minusDisabled: bool,
    dateInputEnabled: bool,
    dateValue: string)

  /** The requests the rental card sends. */
  datatype EquipmentRequest =
    | Increase(productId: ProductId, start: string, end: string)
    | Decrease(productId: ProductId)
    | UpdateDates(productId: ProductId, start: string, endIfAny: Option<string>)

  /** The separator the date picker puts between the two dates. */
  const RangeSeparator: string := " to "

  /** `updateDateInputState`: the minus button is disabled exactly at
      quantity 0 and the date input enabled exactly above 0. */
  function DateInputState(c: RentalCard): (r: RentalCard)
    ensures r.minusDisabled <==> c.shown == 0
    ensures r.dateInputEnabled <==> c.shown > 0
    ensures r.(minusDisabled := c.minusDisabled, dateInputEnabled := c.dateInputEnabled) == c
  {
    c.(minusDisabled := c.shown == 0, dateInputEnabled := c.shown > 0)
  }

  function Min(a: int, b: int): int { if a <= b then a else b }
  function Max(a: int, b: int): int { if a <= b then b else a }

  /** The rental days between two selected dates, both counted: the
      number of day numbers from the earlier to the later one. */
  function RentalDays(start: int, end: int): (d: int)
    ensures d >= 1
    ensures Min(start, end) + d - 1 == Max(start, end)
  {
    (if end >= start then end - start else start - end) + 1
  }

  /** Selecting the same range in either order gives the same count, and
      a single day counts as one. */
  lemma RentalDaysSymmetric(start: int, end: int)
    ensures RentalDays(start, end) == RentalDays(end, start)
    ensures RentalDays(start, end) == 1 <==> start == end
  {
  }

  /** The total `updateTotal` computes: quantity x price x days, the
      days attribute falling back to 1 when it is NaN or 0. */
  function TotalCents(c: RentalCard): int {
    c.shown * c.priceCents * OrDefault(c.daysAttr, 1)
  }

  /** `updateTotal`: rewrite the total text from the current quantity,
      price and days, keeping the currency marker found at its end. */
  function UpdateTotal(c: RentalCard): (r: RentalCard)
    ensures r.(totalText := c.totalText) == c
    ensures r.totalText == RenderTotal(TotalCents(c), TrailingCurrency(c.totalText))
  {
    c.(totalText := RenderTotal(TotalCents(c), TrailingCurrency(c.totalText)))
  }

  /** Rewriting the total keeps the currency marker, so doing it again
      changes nothing. */
  lemma UpdateTotalKeepsCurrency(c: RentalCard)
    ensures TrailingCurrency(UpdateTotal(c).totalText) == TrailingCurrency(c.totalText)
    ensures UpdateTotal(UpdateTotal(c)) == UpdateTotal(c)
  {
    CurrencyAfterSpace(FormatCents(TotalCents(c)), TrailingCurrency(c.totalText));
  }

  /** `handleDateChange`: anything but two selected dates is ignored.
      Otherwise the days attribute is set, the total and the input state
      recomputed, and the new dates are sent only when the quantity is
      positive, as the two halves of the date string split on " to "
      (the second absent when there is none). */
  function DateChange(c: RentalCard, selected: seq<int>, dateStr: string): (r: (RentalCard, Option<EquipmentRequest>))
    ensures |selected| != 2 ==> r == (c, None)
    ensures |selected| == 2 ==>
      var days := RentalDays(selected[0], selected[1]);
      && r.0 == DateInputState(UpdateTotal(c.(daysAttr := Some(days))))
      && (r.1.Some? <==> c.shown > 0)
      && (r.1.Some? ==>
            var parts := Split(dateStr, RangeSeparator);
            r.1.value == UpdateDates(c.productId, parts[0], if |parts| > 1 then Some(parts[1]) else None))
  {
    if |selected| != 2 then (c, None)
    else
      var days := RentalDays(selected[0], selected[1]);
      var card := DateInputState(UpdateTotal(c.(daysAttr := Some(days))));
      if card.shown > 0 then
        var parts := Split(dateStr, RangeSeparator);
        (card, Some(UpdateDates(c.productId, parts[0], if |parts| > 1 then Some(parts[1]) else None)))
      else (card, None)
  }

  /** After a date change the total counts exactly the selected days. */
  lemma DateChangeTotal(c: RentalCard, start: int, end: int, dateStr: string)
    ensures DateChange(c, [start, end], dateStr).0.daysAttr == Some(RentalDays(start, end))
    ensures TotalCents(DateChange(c, [start, end], dateStr).0) == c.shown * c.priceCents * RentalDays(start, end)
  {
    var selected := [start, end];
    var u := UpdateTotal(c.(daysAttr := Some(RentalDays(start, end))));
    assert selected[0] == start && selected[1] == end;
    assert DateChange(c, selected, dateStr).0 == DateInputState(u);
    assert u.shown == c.shown && u.priceCents == c.priceCents && u.daysAttr == Some(RentalDays(start, end));
  }

  /** The date input holds a complete range. */
  predicate HasRange(dateStr: string) {
    dateStr != "" && Includes(dateStr, RangeSeparator)
  }

  /** The plus handler: with a positive quantity but no complete range
      nothing is sent (the picker is opened instead); otherwise an
      increase is sent with the trimmed halves of the range, or two empty
      strings when there is no range. */
  function PlusClick(c: RentalCard): (r: Option<EquipmentRequest>)
    ensures r.None? <==> c.shown > 0 && !HasRange(c.dateValue)
    ensures r.Some? ==> r.value.Increase? && r.value.productId == c.productId
    ensures r.Some? && !HasRange(c.dateValue) ==> r.value.start == "" && r.value.end == ""
    ensures r.Some? && HasRange(c.dateValue) ==>
      var parts := Split(c.dateValue, RangeSeparator);
      r.value.start == Trim(parts[0]) && r.value.end == Trim(parts[1])
  {
    if c.shown > 0 && !HasRange(c.dateValue) then None
    else if HasRange(c.dateValue) then
      var parts := Split(c.dateValue, RangeSeparator);
      SplitAtLeastTwo(c.dateValue, RangeSeparator);
      Some(Increase(c.productId, Trim(parts[0]), Trim(parts[1])))
    else Some(Increase(c.productId, "", ""))
  }

  /** A string that contains the separator splits into at least two pieces. */
  lemma SplitAtLeastTwo(s: string, sep: string)
    requires |sep| > 0 && Includes(s, sep)
    ensures |Split(s, sep)| >= 2
  {
  }

  /** No white space anywhere in a date string. */
  predicate Unspaced(s: string) {
    forall i :: 0 <= i < |s| ==> !IsSpace(s[i])
  }

  /** A range rendered as "start to end" from two dates without white
      space is always complete, and plus sends exactly those two dates. */
  lemma PlusSendsRenderedRange(c: RentalCard, start: string, end: string)
    requires Unspaced(start) && Unspaced(end)
    requires c.dateValue == start + RangeSeparator + end
    ensures HasRange(c.dateValue)
    ensures PlusClick(c) == Some(Increase(c.productId, start, end))
  {
    NoBlank(start);
    NoBlank(end);
    SplitRange(start, end);
    TrimUntouched(start);
    TrimUntouched(end);
    var parts := Split(c.dateValue, RangeSeparator);
    assert parts == [start, end];
    assert HasRange(c.dateValue);
  }

  /** A string without white space has no blank in it. */
  lemma NoBlank(s: string)
    requires Unspaced(s)
    ensures ' ' !in s
  {
  }

  /** The minus handler sends a decrease whatever the quantity; at 0 the
      button is disabled, so the browser does not deliver the click. */
  function MinusClick(c: RentalCard): (r: EquipmentRequest)
    ensures r.Decrease? && r.productId == c.productId
  {
    Decrease(c.productId)
  }

  /** The answer to an increase or a decrease: success displays the
      quantity the server returns and recomputes total and input state;
      failure (a refusal or a transport error) only shows a notice. */
  function QuantityResponse(c: RentalCard, ok: bool, quantity: int): (r: RentalCard)
    ensures !ok ==> r == c
    ensures ok ==>
      && r.shown == quantity
      && (r.minusDisabled <==> quantity == 0)
      && (r.dateInputEnabled <==> quantity > 0)
      && TotalCents(r) == quantity * c.priceCents * OrDefault(c.daysAttr, 1)
      && TrailingCurrency(r.totalText) == TrailingCurrency(c.totalText)
  {
    if ok then
      var shown := c.(shown := quantity);
      UpdateTotalKeepsCurrency(shown);
      DateInputState(UpdateTotal(shown))
    else c
  }

  /** The answer to a date update: success recomputes the total. */
  function DatesResponse(c: RentalCard, ok: bool): (r: RentalCard)
    ensures !ok ==> r == c
    ensures ok ==> r.totalText == RenderTotal(TotalCents(c), TrailingCurrency(c.totalText))
  {
    if ok then UpdateTotal(c) else c
  }

  /** A card whose total text was already rendered for its state is left
      exactly as it was by a successful date update. */
  lemma DatesResponseStable(c: RentalCard)
    ensures DatesResponse(UpdateTotal(c), true) == UpdateTotal(c)
  {
    UpdateTotalKeepsCurrency(c);
  }
}
