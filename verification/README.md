# Aura Custom Product Style — a Dafny model of the cart synchronisation and card state

Aura Custom Product Style is a WordPress/WooCommerce plugin. It shows
villa-related products (equipment for rent, extras) in Elementor widgets.
Each product card lets a visitor change the product's quantity in the
WooCommerce cart without leaving the page. This project models the logic
behind those widgets and proves properties of it:

- **The server's cart decision procedure** (`includes/cart-functions.php`).
  A request `(product, quantity)` removes, updates or adds a cart line, or
  fails for one of six reasons. Also modelled: per-product aggregation of
  quantities, and the category clear.
- **The AJAX entry points** (`aura-custom-product-style.php`). They validate
  parameters, read them with `intval`, and shape the JSON response. They
  also compute the quantity map handed to the page.
- **The product-list selection** (`includes/helpers.php`): category filter,
  comma-separated specific ids, AND/OR combination, maximum, and
  verification against the catalogue.
- **The browser state of the simple layouts** (`assets/js/products-widget.js`).
  This covers the column arithmetic, visible and hidden cards, show-more,
  plus/minus/checkbox clicks with their optimistic update and
  record-or-revert on the answer, and loading the initial quantities.
- **The browser state of the rental layout** (`assets/js/layout-equipment.js`).
  This covers rental days, the total with its currency marker, the
  enabling of minus and date input, and request gating on the date range.
- **The three layout preambles** (`includes/elementor/layouts/layout-*.php`).
  These resolve settings into columns, card width, rows and visible items,
  and render each card's initial state.

Conventions:

- The cart is a sequence of `Line(key, productId, quantity)`; the catalogue
  is a map of product records.
- WooCommerce's `has_enough_stock`, `has_term` and the acceptance by
  `add_to_cart` are parameters the model leaves uninterpreted.
- Money is integer cents and dates are integer day numbers.
- A DOM attribute read with `parseInt` is an `Option<int>`, with `None` for
  NaN.
- PHP settings are `Raw` values (missing, string or number), read with
  `empty()` and `intval()`. `intval` of a string is PHP 7.4's, the version
  the plugin requires, on a 64-bit build: the leading number with its
  fraction and exponent, truncated toward zero and saturated to the 64-bit
  range, and 0 when it is too large for a double.

Files and modules:

| file | module | contents |
|---|---|---|
| common.dfy | `Common`, `Decimal` | `Option`, order-keeping `Filter`, `Dedup` (`array_unique`), decimal digit strings |
| php.dfy | `Php` | `empty`, `intval`, `trim`, `explode`/`implode` |
| js.dfy | `Js` | `parseInt(..) \|\| d`, `trim`, `split`/`includes`, `toFixed(2)`, the currency regex |
| store.dfy | `Store` | cart lines, products, summed quantities, removal and `set_quantity` by key |
| cart_functions.dfy | `CartFunctions` | the five cart functions |
| plugin.dfy | `Plugin` | the AJAX handlers and the page's initial quantity map |
| helpers.dfy | `Helpers` | the product-list selection |
| products_widget.dfy | `ProductsWidget` | the simple layouts' script |
| equipment_client.dfy | `EquipmentClient` | the rental layout's script |
| layouts.dfy | `Layouts` | the three PHP layout preambles, and where they agree with the scripts |
| sync.dfy | `Sync` | page, record and cart stay in step across a click and its answer |

Two behaviours of the cart update differ from what a reader may expect:

- **Quantity 0 for a product with no cart line is refused.** The request
  falls through every branch to the last one and fails with "Invalid
  operation" (`includes/cart-functions.php:198-201`); it is not a no-op.
- **Repeating a request is stable only for positive quantities.** A second
  request for q > 0 reports "updated" and leaves the cart as the first one
  left it (`CartFunctions.UpdateCartProductIdempotent`). A second request
  for 0 is refused (`CartFunctions.RemoveTwiceRefused`).

## Model

| member | source | states |
|---|---|---|
| CartFunctions.FindProductInCart | includes/cart-functions.php:22-36 | Without a cart, nothing is found. With a cart, a key is found exactly when some line holds the product, and it is the key of the first such line. |
| CartFunctions.GetProductQuantityInCart | includes/cart-functions.php:46-61 | The loop returns the quantities of all the product's lines summed (0 without lines), and 0 without a cart. |
| CartFunctions.UpdateCartProduct | includes/cart-functions.php:72-202 | The outcome, in both directions, for each of the nine results. Cart unavailable, product not found, not purchasable. Removed: a line exists and q = 0. Updated: a line exists, q ≠ 0, enough stock. Added: no line, q > 0, stock and add accepted. Not enough stock, could not add. Invalid operation: no line and q ≤ 0. Every failure leaves the cart unchanged. |
| CartFunctions.UpdateCartProductEffect | includes/cart-functions.php:104-188 | Removal drops exactly the product's first line. An update overwrites exactly that line's quantity; with q < 0, `set_quantity` drops it. An addition appends one line for the product with quantity q, under a key no other line uses. |
| CartFunctions.UpdateCartProductPreserves | includes/cart-functions.php:72-202 | Keys stay distinct. Positive quantities and one line per product are preserved by every outcome. |
| CartFunctions.UpdateCartProductOthers | includes/cart-functions.php:104-188 | Whatever the outcome, every other product's summed quantity is unchanged. |
| CartFunctions.UpdateCartProductQuantity | includes/cart-functions.php:104-188 | With one line per product, after any success the product's summed quantity is q for q > 0 and 0 otherwise. |
| CartFunctions.UpdateCartProductIdempotent | includes/cart-functions.php:124-146 | Repeating a successful request for q > 0 returns "updated" and leaves the cart as the first request left it. |
| CartFunctions.RemoveTwiceRefused | includes/cart-functions.php:104-201 | After a successful removal, a second request for 0 finds no line and is refused as "Invalid operation", with the cart unchanged. |
| CartFunctions.GetAllCartQuantities | includes/cart-functions.php:211-229 | The map's keys are exactly the products with lines, each mapped to its summed quantity. Without a cart the map is empty. |
| CartFunctions.ClearCategoryFromCart | includes/cart-functions.php:240-262 | Removes exactly the lines whose product has the category, keeping the others in order. The count is the number of removed lines. Without a cart nothing changes and the count is 0. |
| Plugin.AjaxUpdateProductQuantity | aura-custom-product-style.php:184-216 | A request missing either parameter is rejected before the cart is touched. Otherwise both values are read with PHP 7.4 `intval` (a 64-bit integer) and passed to the cart update. Success echoes the requested quantity and the reported action; failure carries the cart function's reason. |
| Plugin.ClientRequestRoundTrip | aura-custom-product-style.php:195-210 | For an id and a quantity in the 64-bit range, the decimal fields a browser sends reach the cart update as the same integers, and a success echoes the quantity sent. |
| Plugin.ClientRequestSaturates | aura-custom-product-style.php:195-210 | A quantity beyond the 64-bit range (but below the double overflow) reaches the cart update as the nearer end of the range, so a success does not echo the quantity sent. |
| Plugin.AjaxGetCartQuantities | aura-custom-product-style.php:221-239 | The quantities returned are the cart's quantity map: every product with lines, mapped to its summed quantity. |
| Plugin.InitialCartQuantities | aura-custom-product-style.php:131-141 | The page always receives a `cartQuantities` record, and it is the same quantity map the endpoint returns (empty without a cart). |
| Plugin.QuantityMapUnique | aura-custom-product-style.php:131-141 | Two maps that both sum the same cart are equal, so the page data and the endpoint agree. |
| Plugin.QuantityMapPositive | includes/cart-functions.php:218-226 | In a cart with positive quantities, a product is in the map exactly when its summed quantity is positive. An absent product has quantity 0. |
| Php.StrToInt | aura-custom-product-style.php:195-196 | `intval` of any string is a 64-bit integer, and a string that does not start with a number after white space reads as 0. |
| Php.Cap | aura-custom-product-style.php:195-196 | A 64-bit value is kept, and a value beyond the range becomes the nearer end of it. |
| Php.NumericOfIntString | aura-custom-product-style.php:195-196 | A decimal integer is read as its sign and magnitude, with no fraction and no exponent. |
| Php.IntStringSaturates | aura-custom-product-style.php:195-196 | `intval` of a decimal integer is the integer saturated to the 64-bit range, and 0 once its magnitude reaches 2^1024 − 2^970, where a double becomes infinite. |
| Php.IntValOfIntString | aura-custom-product-style.php:195-196 | `intval` of the decimal spelling of a 64-bit n is n. |
| Php.IntValSaturates | aura-custom-product-style.php:195-196 | "9223372036854775808" reads as 9223372036854775807, and one below the least 64-bit integer reads as the least. |
| Php.ExponentString | aura-custom-product-style.php:195-196 | "m e k" reads as m times ten to the k, saturated, or 0 beyond the doubles. |
| Php.ThousandInExponentForm | aura-custom-product-style.php:195-196 | "1e3" reads as 1000, not 1. |
| Php.FractionTruncated | aura-custom-product-style.php:195-196 | "m.digits" reads as m for a 64-bit m: the fraction is dropped. |
| Php.ExplodeJoin | includes/helpers.php:145 | `explode(',')` of comma-joined, comma-free pieces gives back the pieces. |
| Js.ParseIntOfIntString | assets/js/products-widget.js:132-140 | `parseInt` of a decimal number, after white space and before a non-digit, is that number. |
| Js.TrailingCurrency | assets/js/layout-equipment.js:315 | The match of `/[^\d.,\s]+$/`: a suffix of the text with no digit, separator or white space, preceded by one of those or by nothing. |
| Js.CurrencyAfterSpace | assets/js/layout-equipment.js:315-316 | A marker written after a space is what the regex reads back. |
| Js.SplitRange | assets/js/layout-equipment.js:185-187 | "a to b" with blank-free halves splits on " to " into exactly a and b. |
| Helpers.RelatedIds | includes/helpers.php:68-113 | No villa gives nothing. Otherwise an id is listed exactly when it is related and, with a filter, has one of the categories. |
| Helpers.GetRelatedEquipment | includes/helpers.php:69-112 | The nested loop that stops at the first matching category returns each matching related id, in order, once per occurrence. |
| Helpers.ParseSpecificIds | includes/helpers.php:145-146 | An id survives exactly when it is non-zero and some piece of the comma-split text reads as it after `trim` and `intval`. |
| Helpers.SpecificIdsRoundTrip | includes/helpers.php:145-146 | Non-zero 64-bit ids written as a comma-separated list parse back to the same ids in the same order. |
| Helpers.Combine | includes/helpers.php:152-158 | AND keeps exactly the related ids that are also specific, in related order and as often as they occur among the related ids. OR lists each id that is related or specific exactly once. |
| Helpers.OrKeepsRelatedFirst | includes/helpers.php:155-157 | With OR logic, the related ids come first, each at its first occurrence, followed by the specific ids not among them, in their order. Related ids without repeats come first unchanged. |
| Helpers.AndCoveringKeepsAll | includes/helpers.php:152-154 | With AND logic, when every related id is specific, the related list is kept whole and in order. |
| Helpers.Truncate | includes/helpers.php:167-169 | Under a positive maximum, the result is the prefix of length min(max, count). Otherwise the list is untouched. |
| Helpers.Selection | includes/helpers.php:143-169 | Every selected id is related or specific; under AND it is both. Without specific ids the related list is only truncated. A positive maximum bounds the length. |
| Helpers.PlainSelection | includes/helpers.php:143-169 | Without specific ids and without a maximum, the selection is the related list itself. |
| Helpers.KeepListable | includes/helpers.php:172-178 | The verification loop keeps, in order, exactly the ids whose product exists, is simple and is published. |
| Helpers.GetProducts | includes/helpers.php:124-178 | No villa or no related ids give nothing. Otherwise the result is the selection cut down to listable ids, and every listed id is listable. |
| Helpers.GetProduct | includes/helpers.php:203-215 | A product is returned exactly when WooCommerce is active and the product exists and is simple. |
| Helpers.ListedIdsLoad | includes/helpers.php:172-178 | Every listed id loads through `aura_cps_get_product` as a published product. |
| ProductsWidget.AutoColumns | assets/js/products-widget.js:110-125 | With positive width plus gap, the count is the largest number of cards that fit, but at least 1: it is 1 or fits, and one more does not fit. When width plus gap is 0, the quotient is non-finite exactly when container width plus gap is at least 0, and the count is 1 otherwise. When it is negative, the count is still finite and at least 1. Missing or zero attributes default to 350 and 20. |
| ProductsWidget.FloorDiv | assets/js/products-widget.js:117 | `Math.floor` of a quotient: the integer r with r·b ≤ a < (r+1)·b for b > 0. |
| ProductsWidget.VisibleItemsOf | assets/js/products-widget.js:130-143 | When both attributes read back as non-zero numbers, the visible items are rows × columns. The columns are the computed ones in auto mode and the configured ones otherwise. |
| ProductsWidget.ShowMoreIffHidden | assets/js/products-widget.js:148-165 | The show-more control is shown exactly when some card is hidden in the collapsed grid. |
| ProductsWidget.VisibleRowsPass | assets/js/products-widget.js:130-166 | One visible-rows pass displays card i exactly when it is among the first `visibleItems` or the grid is expanded. |
| ProductsWidget.ShowMoreToggles | assets/js/products-widget.js:370-400 | Show-more flips only the `expanded` class, and two toggles restore the page. No card's inline display changes; the next visible-rows pass shows every card of an expanded grid and exactly the first `visibleItems` of a collapsed one. |
| ProductsWidget.ExpandKeepsCardsHidden | assets/js/products-widget.js:148-156 | After expanding a grid the start-up pass collapsed, the first card it hid is still hidden, although the next pass would show it. |
| ProductsWidget.ShowQuantity | assets/js/products-widget.js:300-315 | The displayed quantity becomes q and the total becomes price × q. |
| ProductsWidget.PlusClick | assets/js/products-widget.js:199-214 | The display moves up by exactly 1 and that new absolute quantity is sent. |
| ProductsWidget.MinusClick | assets/js/products-widget.js:216-236 | At quantity ≤ 0, nothing changes and nothing is sent. Otherwise the display moves down by exactly 1 and that quantity is sent. |
| ProductsWidget.ClicksStayNonNegative | assets/js/products-widget.js:199-236 | From a non-negative display, clicks keep it non-negative, and minus undoes plus, including the request it sends. |
| ProductsWidget.Record | assets/js/products-widget.js:339-342 | Recording sets the product's quantity when a record exists and touches no other product. |
| ProductsWidget.UpdateResponse | assets/js/products-widget.js:332-366 | Success records the requested quantity and keeps the display. Failure or error reverts the display to the recorded quantity (0 if none) and keeps the record. |
| ProductsWidget.ClickThenAnswer | assets/js/products-widget.js:199-366 | After a click and its answer, the card shows what the record holds. That is one step further on success and the previous recorded value on failure. |
| ProductsWidget.CheckboxClick | assets/js/products-widget.js:238-252 | The box flips; quantity 0 is sent if it was checked and 1 if it was not. |
| ProductsWidget.CheckboxResponse | assets/js/products-widget.js:254-296 | Success records the quantity. Failure or error flips the box back. |
| ProductsWidget.CheckboxRoundTrip | assets/js/products-widget.js:238-296 | A refused click restores the original state exactly. An accepted one leaves the box checked exactly when a positive quantity is recorded. |
| ProductsWidget.LoadCard | assets/js/products-widget.js:410-422 | The card shows the recorded quantity (0 if absent) with total price × quantity, and a checkbox is checked exactly at a positive quantity. |
| ProductsWidget.LoadInitialQuantities | assets/js/products-widget.js:405-458 | An existing record is used as is. Otherwise the fetched map becomes the record. Every card is set from the record, and a failed fetch changes nothing. |
| ProductsWidget.LoadedCardsMatchRecord | assets/js/products-widget.js:405-458 | After loading, every card shows its recorded quantity with a consistent total. |
| EquipmentClient.DateInputState | assets/js/layout-equipment.js:98-119 | The minus button is disabled exactly at quantity 0 and the date input enabled exactly above 0. Nothing else changes. |
| EquipmentClient.RentalDays | assets/js/layout-equipment.js:134-135 | At least 1, and the earlier day plus the count minus 1 is the later day: both ends are counted. |
| EquipmentClient.RentalDaysSymmetric | assets/js/layout-equipment.js:134-135 | The count does not depend on the order of the dates, and it is 1 exactly for a single day. |
| EquipmentClient.UpdateTotal | assets/js/layout-equipment.js:306-317 | Only the total text changes. It becomes quantity × price × days (days defaulting to 1), then a space and the old currency marker. |
| EquipmentClient.UpdateTotalKeepsCurrency | assets/js/layout-equipment.js:315-316 | The currency marker survives the rewrite, so rewriting twice is the same as once. |
| EquipmentClient.DateChange | assets/js/layout-equipment.js:125-153 | Anything but two dates is ignored. Otherwise days, total and input state are recomputed. The new dates are sent exactly when the quantity is positive, as the halves of the split on " to ". |
| EquipmentClient.DateChangeTotal | assets/js/layout-equipment.js:134-141 | After a date change the total counts exactly the selected days. |
| EquipmentClient.PlusClick | assets/js/layout-equipment.js:161-192 | Nothing is sent exactly when the quantity is positive and no complete " to " range is present. Otherwise an increase is sent with the trimmed halves of the range, or two empty strings. |
| EquipmentClient.PlusSendsRenderedRange | assets/js/layout-equipment.js:169-191 | For a range "start to end" of blank-free dates, plus sends exactly start and end. |
| EquipmentClient.MinusClick | assets/js/layout-equipment.js:196-202 | Minus always sends a decrease for its product. |
| EquipmentClient.QuantityResponse | assets/js/layout-equipment.js:220-272 | Success shows the server's quantity, recomputes the total and keeps the marker, and sets the input state from the new quantity. Failure leaves the card unchanged. |
| EquipmentClient.DatesResponse | assets/js/layout-equipment.js:289-293 | Success recomputes the total. Failure changes nothing. |
| EquipmentClient.DatesResponseStable | assets/js/layout-equipment.js:289-317 | An already-rendered card is left exactly as it was by a successful date update. |
| Layouts.CardGrid | includes/elementor/layouts/layout-card.php:19-29 | Fixed mode with a non-empty count uses it; otherwise 2 columns. Auto mode with a non-empty width uses it; otherwise 350. Rows default to 2. |
| Layouts.AutoGrid | includes/elementor/layouts/layout-form.php:28-41 | A positive automatic count sets the columns and width 0. Otherwise there are 2 columns, with the configured width if non-empty and 350 if not. |
| Layouts.FormGrid | includes/elementor/layouts/layout-form.php:21-43 | Fixed mode reads the count with a default of 2, auto mode resolves as above, and rows default to 2. |
| Layouts.EquipmentGrid | includes/elementor/layouts/layout-equipment.php:19-49 | Desktop: fixed mode reads the count with a default of 2, auto mode resolves as above, and rows default to 2. |
| Layouts.EquipmentResponsive | includes/elementor/layouts/layout-equipment.php:25-51 | Tablet and mobile columns come from the settings in fixed mode (defaults 2 and 1) and keep those defaults otherwise. Rows default to 2 and 3. |
| Layouts.LayoutsAgree | includes/elementor/layouts/layout-equipment.php:19-46 | The equipment and form layouts resolve the desktop grid identically. The card layout differs only in auto mode with a positive automatic count. |
| Layouts.Defaults | includes/elementor/layouts/layout-card.php:19-29 | With no settings, every layout is auto, 2 columns, 350 wide, 2 rows; the equipment tablet and mobile grids are 2×2 and 1×3. |
| Layouts.HiddenCards | includes/elementor/layouts/layout-card.php:50-136 | Show-more is rendered exactly when at least one card starts hidden, except with no products and a negative visible count. |
| Layouts.BrowserAgrees | includes/elementor/layouts/layout-card.php:37-50 | With non-zero rows and columns (and matching computed columns in auto mode), the script shows exactly the cards the server left visible. Its show-more matches the server's. With a positive automatic count the computed columns need not match (`Layouts.AutoCountIgnored`). |
| Layouts.ZeroRowsDisagree | includes/elementor/layouts/layout-card.php:19-41 | For any settings whose non-empty rows value `intval` reads as 0, the card layout resolves 0 visible items and hides every card. The script reads the 0 back, falls back to 2 rows, and shows the first card exactly when the mode is auto or the column count is not negative. |
| Layouts.AutoCountIgnored | includes/elementor/layouts/layout-form.php:28-56 | With a positive automatic count, the form and equipment layouts resolve that many columns and write card width 0. The script reads the 0 as 350, and at the width where one card more fits it uses one column more than configured. |
| Layouts.RenderCard | includes/elementor/layouts/layout-card.php:49-121 | The initial quantity comes from the quantity map, and the total is quantity × price. |
| Layouts.RenderedCardIsLoaded | includes/elementor/layouts/layout-card.php:33-49 | From the cart's quantity map, the rendered card shows the product's summed quantity and equals the card the script loads. |
| Layouts.RenderEquipment | includes/elementor/layouts/layout-equipment.php:86-183 | No card is rendered exactly when both dates are truthy and one of them does not parse, since `new DateTime` throws. Otherwise unset data reads as 0 and "". With both dates set, the days are their distance plus one and the input holds "start to end"; otherwise 1 day and no value. The total is quantity × price × days, and confirm is checked exactly at a positive quantity. |
| Layouts.RentalCardContinues | includes/elementor/layouts/layout-equipment.php:92-154 | For a card that was rendered, the script recomputes the server's total from the rendered days, and enables the date input exactly when confirm is checked. With blank-free stored dates, plus sends exactly those dates. |
| Layouts.LoadPassDropsDays | assets/js/products-widget.js:405-422 | The products script's load pass also runs over a rental card that was rendered. With the cart holding the rendered quantity, it keeps that quantity but rewrites the total without the days, so the rendered total survives exactly when quantity × price is 0 or the rental is one day. |
| Layouts.RentalClickHandledTwice | assets/js/products-widget.js:55-66 | On a rental card with a positive quantity, the products script also handles plus and minus. Plus with no complete range is ignored by the rental handler, but the products handler shows one more, priced without days, and sends it. Minus is sent by both. |
| Layouts.RenderForm | includes/elementor/layouts/layout-form.php:65-104 | The confirmed class, the disabled textarea and `aria-checked` all equal the session flag; the checkbox is always disabled. |
| Sync.QuantityMapMatches | aura-custom-product-style.php:131-141 | The quantity map the server hands over gives every product its summed quantity in the cart, 0 for absent products. |
| Sync.RecordAfterSuccess | assets/js/products-widget.js:339-342 | Recording a quantity the server just applied keeps the page's record equal to the cart. |
| Sync.ClickStaysSynced | assets/js/products-widget.js:199-366 | For ids and quantities in the 64-bit range, a plus or minus click, sent through the endpoint (or lost) and answered, keeps the cart's shape. Display, record and cart agree afterwards: a step further on success, unchanged on refusal. |
| Sync.CheckboxStaysSynced | assets/js/products-widget.js:238-296 | A box checked exactly when the product is in the cart stays so through a click and its answer: flipped on success, restored on refusal. |
| Sync.RefreshAfterAcceptedClick | assets/js/products-widget.js:99-104 | After an accepted click, the load pass that the fragment refresh reruns from the page's record leaves every product card in step with the cart. |
| Sync.LostAnswerDesyncs | assets/js/products-widget.js:332-366 | If the server applies a click's update but its answer is lost, the error path shows the old quantity while the cart holds the new one, and the record no longer matches the cart. |
| Sync.CheckboxLostAnswerDesyncs | assets/js/products-widget.js:254-296 | If the server applies a checkbox update but its answer is lost, the box flips back and disagrees with the cart. |
| Sync.LoadedCardsShowCart | assets/js/products-widget.js:405-458 | Cards loaded from the server's quantity map, whether it came with the page or from the endpoint, each show their product's quantity in the cart, and the map becomes the page's record. |

## Left out

- Nonce checks, AJAX transport, `wp_send_json_*` exits, script enqueueing and
  all HTML output are not modelled. Only the values the markup carries are.
- `calculate_totals`, the `cart_total` field of the success response, and
  the translated message texts are left out. A failure is a reason, not a
  message. The stock count in "Only %s available" is left out.
- `remove_cart_item` and `set_quantity` on a key that was just found are
  modelled as succeeding. The "Could not remove/update product" branches
  are therefore not reachable in the model.
- `add_to_cart`'s own validation is a boolean input. When it rejects, the
  outcome is "Could not add product to cart".
- The villa lookup (`aura_cps_get_villa_id_from_cart`) and the
  relations-table query in `aura_cps_get_products` are SQL. The villa id
  and the related ids are inputs.
- Helpers.GetProducts: the final query `SELECT ID … WHERE ID IN (…) ORDER BY
  menu_order, post_title` is not modelled. It lists each id once, ordered by
  menu order and title. The model returns the verified ids in selection
  order, with any repeats the selection has.
- Helpers.RelatedIds: a scalar `product_category` setting is taken as a
  one-element list, and PHP's `empty()` on that string is not modelled.
- DOM measurement (`$grid.width()`, `equalizeCardHeights`), resize
  debouncing, `setTimeout`, animations, notifications and out-of-order
  responses are left out. Widths are inputs, and each answer is applied to
  the state its click produced.
- The flatpickr configuration and `Date` arithmetic are left out. The
  picker's selected dates are day numbers. Millisecond `ceil` rounding
  across daylight-saving changes is not modelled.
- Layouts.RenderEquipment: `new DateTime` is a partial parameter `dayOf`;
  which strings PHP's date parser accepts, and the day it gives, are not
  modelled. A rejected string throws, and the model then renders no card
  (None). The uncaught exception also stops the cards after it and the
  rest of the page, which this per-product model does not show.
- Floating point is not modelled. Prices and totals are integer cents, and
  `toFixed(2)` is rendered exactly. `number_format`'s thousands separators
  are not modelled.
- EquipmentClient.UpdateTotal: `updateTotal` writes the total with `.html()`,
  so the browser parses the re-appended currency marker as markup. The
  model treats it as plain text.
- ProductsWidget.UpdateResponse: on success the script also triggers
  WooCommerce's `wc_fragment_refresh`. The `wc_fragments_refreshed` event
  that follows (like `updated_cart_totals`) reruns `loadInitialQuantities`
  over every product card, rental cards included. This function stops
  before that. `Sync.RefreshAfterAcceptedClick` follows the rerun for
  product cards, and `Layouts.LoadPassDropsDays` shows that it resets a
  rental card's total to quantity × price, without the days. The fragment
  request itself is not modelled.
- ProductsWidget.ShowQuantity: the currency written by `updateProductUI` is
  not modelled, because only the numeric total is compared.
- JavaScript `parseInt` on hexadecimal ("0x…") input is not modelled; the
  attributes involved hold decimal numbers.
- `updateQuantityDisplay` in the rental script updates every card of the
  same product on the page. The model follows the one card that was
  clicked.
- Php.StrToInt: a string with a fraction or an exponent is read exactly. PHP
  first rounds it to the nearest double with `zend_strtod`. The two
  readings differ only when that rounding crosses an integer: beyond 2^53,
  just below an integer, or for exponents long enough for `zend_strtod` to
  clamp.
- Helpers.ParseSpecificIds: reads each piece with `Php.StrToInt`, so it has
  the same gap for fraction and exponent strings.
- Plugin.AjaxUpdateProductQuantity: reads both fields with `Php.StrToInt`,
  so it has the same gap for fraction and exponent strings.
- Sync.ClickStaysSynced: assumes the error callback fires only when the
  server did nothing. The callback also fires when the server applied the
  update and the answer was lost; `Sync.LostAnswerDesyncs` shows the page
  then disagrees with the cart. The lemma also assumes the plugin's own
  cart shape: distinct keys, positive quantities, one line per product.
  Lines that other code adds, such as a second line with rental data for
  the same product, break that shape and are not modelled.
- Sync.CheckboxStaysSynced: makes the same transport and cart-shape
  assumptions; `Sync.CheckboxLostAnswerDesyncs` shows the desync.
- ProductsWidget.ShowMoreToggles: follows the inline display that `.show()`
  and `.hide()` set. The stylesheet, which the script expects to reveal
  the expanded cards, is not part of this model. The button label and the
  scroll animation are left out.
- EquipmentClient.PlusClick: on a rental card the products script's
  plus handler also fires, because `.aura-btn-plus` is bound document-wide.
  The two handlers are modelled separately; `Layouts.RentalClickHandledTwice`
  states what each does. Which runs first depends on script enqueueing,
  which is not part of this model.
- EquipmentClient.MinusClick: on a rental card the products script's minus
  handler also fires and sends the quantity one lower, besides the
  decrease sent here.
- Layouts.RentalCardContinues: states the state the rental script starts
  from. The products script's load pass runs at start-up and again after
  every accepted click, through the fragment refresh. Each run rewrites the
  total without the days (`Layouts.LoadPassDropsDays`); this lemma does not
  follow those rewrites.
- EquipmentClient.MinusClick: the disabled minus button at quantity 0 is
  what stops the click in the browser. The model sends a decrease
  regardless, as the handler does.
- The equipment endpoints (`aura_cps_increase_equipment`,
  `aura_cps_decrease_equipment`, `aura_cps_update_equipment_dates`) and
  `aura_cps_get_all_cart_quantities_with_dates` are not part of this model.
  Their answers are inputs to the rental script's response handlers, and the
  cart data of the equipment layout is an input map.
- `aura_get_villa_booking_dates` and the grid's `data-start-date` /
  `data-end-date` only feed the date picker's defaults, and are left out.
- Elementor control registration, the arrival-form widget, the wine and
  checkbox layouts, and the layout interface documentation are not part of
  this model.
