# Cafe cart and checkout, modelled in Dafny

This project models the two pieces of a cafe storefront that have real rules.

- The **item customizer** turns a menu item `{id, name, basePrice}` and a selection into a cart line. The selection has a size (small, medium, large), two paid add-ons (extra shot, oat milk), two removals (no sugar, no foam), free-text notes and a quantity. The customizer computes the unit price, the line price, the display name, the normalised notes and the identity key of the line.
- The **cart page** computes the subtotal. Its checkout handler clears the messages, refuses an empty cart, builds the order request and interprets the order service's answer.

Money is in integer cents: the extra shot costs 80 and oat milk 50.

Files:

- `wrappers.dfy`: `Option`, standing for JavaScript's absent value.
- `text.dfy`: the three JavaScript string built-ins the key is made of. These are `trim` (with ECMAScript's whitespace and line-terminator code points), `filter(Boolean)` on strings and `join`.
- `customization.dfy`: pricing, the key, the display name, notes, the quantity clamp, and the `ItemCustomizer` class. The class holds the component's state cells and its "Add to Cart" handler.
- `cart.dfy`: subtotal, the order request, the checkout state machine as functions over a `PageState`, and the `CartPage` class. The class holds the page's state cells and the handler.

The handlers are modelled imperatively, as classes whose methods update fields. Each method's `ensures` ties its new state to a pure function. The properties are proved as lemmas about those functions.

The identity key is **not injective**, and the model proves that. Notes reading `no-foam` with the no-foam flag off give the same key as the flag on with no notes (`NotesCanMimicFlag`). Notes containing `|` can imitate other segments in the same way. What the model proves instead:

- Keying is deterministic.
- Two selections of one item with different sizes never share a key, whatever their flags and notes.
- With equal trimmed notes, two keys are equal exactly when the size and all four flags are equal.

The model follows the code as written, and the code:

- does not make the key collision-free;
- does not reject a negative base price;
- checks name and phone only through the HTML `required` attribute;
- never checks that a delivery address is non-empty;
- hides the cart store's merge policy, so the model assumes no dedup rule.

## Model

| member | source | states |
|---|---|---|
| `Text.Trim` | components/menu/ItemCustomizer.tsx:45 | the trimmed text neither starts nor ends with a whitespace or line-terminator code point |
| `Text.TrimIsMiddle` | components/menu/ItemCustomizer.tsx:45 | the input is a whitespace-only prefix, then the trimmed text, then a whitespace-only suffix |
| `Text.TrimIdempotent` | components/menu/ItemCustomizer.tsx:57 | trimming the stored notes again changes nothing |
| `Text.TrimEmptyIffBlank` | components/menu/ItemCustomizer.tsx:57 | a text trims to empty exactly when it is all whitespace |
| `Text.NonEmptyParts` | components/menu/ItemCustomizer.tsx:46 | `filter(Boolean)` leaves only non-empty parts and never more parts than it was given |
| `Text.NonEmptyPartsCounts` | components/menu/ItemCustomizer.tsx:46 | every non-empty part survives filtering as often as it occurred |
| `Text.NonEmptyPartsAppend` | components/menu/ItemCustomizer.tsx:38-46 | filtering keeps the order of the parts (it distributes over concatenation) |
| `Text.Join` | components/menu/ItemCustomizer.tsx:48 | the join is as long as all parts plus one separator between each neighbouring pair; empty for no parts |
| `Text.JoinCons` | components/menu/ItemCustomizer.tsx:48 | a join is its first part followed by every other part behind a separator |
| `Text.JoinFilteredShape` | components/menu/ItemCustomizer.tsx:38-48 | with a non-empty second part, the join of the filtered parts is the first part and a separator (nothing for an empty first part), the second part, then each later non-empty part behind a separator |
| `Customization.AddonPrice` | components/menu/ItemCustomizer.tsx:27-29 | the surcharge is between 0 and 130; it is 0 exactly when neither add-on is chosen, and 130 exactly when both are |
| `Customization.UnitPrice` | components/menu/ItemCustomizer.tsx:31 | the unit price lies between the base price and the base price plus 130 |
| `Customization.LinePrice` | components/menu/ItemCustomizer.tsx:32 | the unit price times the quantity; for a quantity of at least 1 it lies between base × quantity and (base + 130) × quantity |
| `Customization.UnitPriceTable` | components/menu/ItemCustomizer.tsx:27-31 | the unit price is base, base + 80, base + 50 or base + 130 for the four add-on combinations |
| `Customization.PriceIgnoresSizeRemovalsAndNotes` | components/menu/ItemCustomizer.tsx:27-32 | size, no-sugar, no-foam and notes never change the unit or line price |
| `Customization.KeyParts` | components/menu/ItemCustomizer.tsx:38-45 | the seven key parts before filtering: item id, size, the four option tokens (empty when off) in fixed order, trimmed notes |
| `Customization.Key` | components/menu/ItemCustomizer.tsx:38-48 | the non-empty key parts joined by the bar character; its segment-by-segment form is `KeyShape` |
| `Customization.KeyShape` | components/menu/ItemCustomizer.tsx:38-48 | the key is the id and a bar (nothing for an empty id), then the size, then a bar and the token of each enabled flag in the fixed order, then a bar and the trimmed notes when they are not empty |
| `Customization.KeyDeterministic` | components/menu/ItemCustomizer.tsx:38-48 | selections with the same size, flags and trimmed notes get the same key, whatever their raw notes and quantity |
| `Customization.SizeSeparatesKeys` | components/menu/ItemCustomizer.tsx:38-48 | selections of one item with different sizes never share a key |
| `Customization.FlagSegmentsInjective` | components/menu/ItemCustomizer.tsx:41-44 | the flag segments of the key determine all four flags |
| `Customization.KeySeparatesOptions` | components/menu/ItemCustomizer.tsx:38-48 | with equal trimmed notes, keys are equal if and only if the size and all four flags are equal |
| `Customization.NotesCanMimicFlag` | components/menu/ItemCustomizer.tsx:44-48 | notes trimming to `no-foam` with the flag off give the same key as the flag on with no notes, although the selections differ |
| `Customization.DisplayName` | components/menu/ItemCustomizer.tsx:53 | `"<name> (<size>)"`: the name, then ` (`, the size tag and `)`, with the length of those pieces |
| `Customization.DisplayNameSeparatesSizes` | components/menu/ItemCustomizer.tsx:53 | the display name starts with the item's name, and different sizes give different names |
| `Customization.NormalizedNotes` | components/menu/ItemCustomizer.tsx:57 | the line's notes are absent exactly when the notes are all whitespace, and otherwise are the non-empty trimmed notes |
| `Customization.CartLine` | components/menu/ItemCustomizer.tsx:34-58 | no line when the quantity is below 1. Otherwise the line has the key as id, the item's id and base price, the name `"<name> (<size>)"`, the selected quantity, the unit price × quantity as its price, and the normalised notes |
| `Customization.CartLineInvariant` | components/menu/ItemCustomizer.tsx:31-56 | every produced line has quantity ≥ 1 and price = unit price × quantity; the price lies between base × quantity and (base + 130) × quantity, and is not negative for a non-negative base |
| `Customization.ClampQuantity` | components/menu/ItemCustomizer.tsx:153 | the quantity is always ≥ 1; a whole number ≥ 1 is kept; zero, a negative number or not-a-number becomes 1 |
| `Customization.LatteExample` | components/menu/ItemCustomizer.tsx:27-48 | a latte at 450, medium, extra shot, quantity 2 costs 530 per unit and 1060 per line, with the key made of `latte`, `medium` and `extra-shot` joined by bars |
| `Customization.ItemCustomizer.constructor` | components/menu/ItemCustomizer.tsx:18-24 | the selection starts as medium, no options, no notes, quantity 1 |
| `Customization.ItemCustomizer.SetQuantity` | components/menu/ItemCustomizer.tsx:152-154 | the quantity cell becomes the clamped input, so it is at least 1 |
| `Customization.ItemCustomizer.AddToCart` | components/menu/ItemCustomizer.tsx:34-61 | the line handed to the store is the line for the current selection. After an add the quantity is reset to 1. With quantity below 1 nothing is added and the quantity is kept. No other cell changes |
| `Cart.Subtotal` | app/cart/page.tsx:12 | the subtotal is the sum of the line prices, and 0 for an empty cart |
| `Cart.Reduce` | app/cart/page.tsx:12 | the `reduce` as written: a left fold adding each line price to a running sum; `ReduceIsSum` gives its value |
| `Cart.ReduceIsSum` | app/cart/page.tsx:12 | the left fold from a running sum adds exactly the sum of the line prices |
| `Cart.SumAppend` | app/cart/page.tsx:12 | the subtotal of two carts in sequence is the sum of their subtotals |
| `Cart.SumNonNegative` | app/cart/page.tsx:12 | lines with non-negative prices give a non-negative subtotal |
| `Cart.SubtotalExample` | app/cart/page.tsx:12 | lines at 700 and 350 give 1050; the empty cart gives 0 |
| `Cart.WireItems` | app/cart/page.tsx:45-51 | one wire item per cart line, in order, with the line's item id, name, quantity and notes, and its line price as `price`; the key is dropped |
| `Cart.WireTotalIsSubtotal` | app/cart/page.tsx:45-51 | the prices sent to the order service add up to the subtotal on the page |
| `Cart.BuildRequest` | app/cart/page.tsx:38-52 | the request carries an address exactly for delivery, and then the form's address. It also carries the order type's value, the form's name, phone, email and notes as typed, and the wire items |
| `Cart.AddressIgnoredUnlessDelivery` | app/cart/page.tsx:43 | for pickup and dine-in, the address field's text has no effect on the request |
| `Cart.FailureMessage` | app/cart/page.tsx:59 | the error shown is the service's message when it is present and non-empty, else `Failed to place order`; it is never empty |
| `Cart.SubmitEnabled` | app/cart/page.tsx:174 | the negation of `disabled`: not loading and the cart is not empty |
| `Cart.Submit` | app/cart/page.tsx:14-53 | the order id is always cleared and the cart kept. An empty cart gets `Your cart is empty.`, no request and an unchanged `loading`. A non-empty cart gets no error, `loading` set and the request built from the form and cart |
| `Cart.Settle` | app/cart/page.tsx:55-64 | `loading` is cleared. Failure sets the error message and keeps the cart and order id. Success empties the cart and sets the order id to the response's id |
| `Cart.EmptyCartGuard` | app/cart/page.tsx:29-32 | with an empty cart only the two messages change and no request is sent |
| `Cart.SubmitDisablesButton` | app/cart/page.tsx:174 | right after a checkout starts the submit button is disabled, so at most one request is outstanding |
| `Cart.ButtonAfterResponse` | app/cart/page.tsx:174 | once a response with a parsed body arrives, the button is enabled exactly when the order failed, so a failure can be retried and a success cannot be resubmitted |
| `Cart.CheckoutOutcome` | app/cart/page.tsx:14-64 | once a response with a parsed body arrives, a checkout of a non-empty cart ends with `loading` off and exactly one of order id and error set. Success empties the cart, sets the order id to the response's id and leaves no error. Failure keeps the cart, sets the message and leaves no order id |
| `Cart.CartPage.constructor` | app/cart/page.tsx:7-10 | the page opens with the store's lines, not loading, with no order id and no error |
| `Cart.CartPage.HandleCheckout` | app/cart/page.tsx:14-53 | the handler up to the request leaves the state and request that `Submit` gives |
| `Cart.CartPage.OnResponse` | app/cart/page.tsx:55-64 | the rest of the handler leaves the state that `Settle` gives |

## Left out

- The cart store (`lib/cart-store`) is not part of this model, and its code is not visible. `addItem` and `removeItem` are the store's, so `AddToCart` returns the line it hands to `addItem`, and no merge or replace rule is assumed. `clear()` is modelled as emptying the page's list of lines.
- The transport is replaced by a `Response` value: `fetch`, JSON encoding, `res.json()` (including a body that fails to parse) and the `await`. `HandleCheckout` and `OnResponse` are the handler's two halves around the `await`. Nothing may happen between them in the model. In the page, a line could still be removed from the store while the request is in flight.
- A failed transport is not modelled. The handler has no `try`/`catch`: when `fetch` rejects (a network error) or `res.json()` fails (a body that is not JSON, which app/cart/page.tsx:55 reads before `res.ok` is tested, so an error page too), it throws after `setLoading(true)`. Then `loading` stays on, `error` and `orderId` stay empty and the submit button stays disabled, so the order cannot be retried without reloading the page. `CheckoutOutcome` and `ButtonAfterResponse` hold only once a response with a parsed body has arrived.
- Floating point and `toFixed(2)` are not modelled. Prices are integer cents, so `0.8` is 80 and `0.5` is 50.
- `ClampQuantity` models `Number(value)` only as not-a-number or a whole number. The source keeps a fractional value such as 2.5 and also accepts Infinity; neither is modelled. The string-to-number conversion itself is JavaScript's and is not modelled.
- The order type is modelled as the three values of its select, not as an arbitrary string.
- The name and phone fields are required only by the HTML `required` attribute, so there is no code to model. There is no check that a delivery address is filled in.
- The `onChange` handlers of the size buttons, checkboxes and notes box only assign a state cell. They are the public fields of `ItemCustomizer`.
- Not modelled: `alert`, `form.reset()`, all JSX rendering, and the static markup of app/page.tsx.
- components/menu/MenuItemCard.tsx is left out: it is display code, plus a `JSON.parse` whose result is only logged.
- types/components/menuItemCard/menuItemCard.ts is only a type declaration, and app/menu/[slug]/page.tsx is only a catalog lookup and layout.
