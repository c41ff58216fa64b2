# Jastip storefront — a Dafny model of its client-side core

The storefront is a single-page "jastip" (personal-shopper) shop. A seller
configures one or more *profiles* (shop name, description, WhatsApp number,
the CSV export link of a Google Sheet, colours, logo) through a four-step
setup wizard. The page reads the sheet's CSV into a product catalog with
category chips. Buyers fill a cart keyed by product name and check out into
an order record.

This project models the parts of `script.js` that carry logic:

- `js_text.dfy` (`JsText`): the JavaScript string built-ins the code relies
  on. These are `trim` (over the JavaScript white-space and line-terminator
  set), `split`/`join` on one character, `includes`, ASCII `toLowerCase`, and
  decimal digits.
- `money.dfy` (`Money`): `formatRp`, the rupiah formatter with `.` as the
  thousands separator.
- `sheet_url.dfy` (`SheetUrl`): `validateSheetUrl` and `extractSheetId`.
- `escape.dfy` (`Escape`): `escapeHtml` and its inverse, and `escapeJs`.
  It also includes a reader for single-quoted JavaScript literals, which
  shows what `escapeJs` does and does not protect.
- `catalog.dfy` (`Catalog`): the CSV-to-product chain inside
  `loadProducts`, the category list of `populateCategories`, and the
  category filter and card price of `renderProducts`.
- `cart.dfy` (`Cart`): the cart as a value.
  - `CartState` is the key order of `Object.values` plus the map from
    product name to line.
  - `WithAdded`, `WithRemoved` and `WithQtyChanged` are the specification
    functions; the quantity and amount totals are proved against them.
  - `Checkout` builds the order.
  - The class `ShoppingCart` holds the page's mutable cart and drawer. Its
    methods are proved against those functions.
- `profiles.dfy` (`Profiles`): the profile list and current id as a value.
  - `Save`, `Use`, `Delete` and `Reset` are the value operations.
  - Lemmas state save-then-current and id uniqueness.
  - The class `ProfileStore` holds the two page globals.
- `wizard.dfy` (`Wizard`): the step counter `currentStep` in `[1, 4]` and the
  button visibility of `showStep`.
- `wrappers.dfy` (`Wrappers`): `Option` and `Result`.

Two behaviours of the code are worth stating up front:

- `checkout(cart, profile)` (script.js:545-592) refuses only a missing or
  empty cart. The model's cart is always present, so only the empty one
  arises. There is no check for a missing profile or sheet link. Both make
  it throw a TypeError before any order is built: on `profile.sheet`, or
  inside `extractSheetId` on a null link. The model returns these as the
  errors `NoProfile` and `NoSheetLink`.
- A price or fee cell such as `abc` becomes NaN through `+(price || 0)`, not 0.
  The model keeps such a cell as `Uncoerced` and does not compute a number
  for it. A stock cell such as `abc` becomes 0 through
  `isNaN(stock) ? 0 : +stock`; the model keeps that cell `Uncoerced` as well.

## Model

| member | source | states |
|---|---|---|
| JsText.Trim | script.js:441 | the result has no leading or trailing JavaScript white space; it is empty exactly when the input is blank; a string that is already trimmed comes back unchanged |
| JsText.TrimCuts | script.js:441 | the result is the input's text after its leading white space, with only white space after it: together with `Trim`'s own contract, the input with a blank prefix and a blank suffix cut off |
| JsText.Split | script.js:437 | `split` on one character: at least one piece, no piece holds the separator, and joining the pieces with the separator gives back the input |
| JsText.SplitSnoc | script.js:434 | one more separator and piece at the end of a text add exactly one more piece at the end of its split |
| JsText.SplitJoin | script.js:437 | splitting a join of separator-free pieces gives those pieces back (split is the inverse of join) |
| JsText.ToLower | script.js:447 | same length; each upper-case ASCII letter becomes the lower-case letter at the same place in the alphabet; every other character is unchanged; no upper-case letter is left |
| JsText.LowerChar | script.js:447 | one character of `toLowerCase`: `A` to `Z` become `a` to `z` letter for letter; any other character is unchanged |
| JsText.Contains | script.js:223-224 | `includes` holds exactly when the pattern occurs at some position |
| JsText.DecimalDigits | script.js:38 | `toString()` of a natural number: canonical decimal digits (no leading zero) whose value is the number |
| JsText.DigitsOfValue | script.js:38 | the canonical digit string of a value is the only one: reading then writing gives back the digits |
| Money.GroupThousands | script.js:38 | inserting the separators loses no digit, and the groups are one to three digits followed by groups of exactly three |
| Money.FormatRp | script.js:36-39 | the text starts with "Rp"; NaN gives "Rp0"; for a natural number the groups are well formed, and deleting the dots gives its decimal digits, whose value is the number |
| SheetUrl.ValidateSheetUrl | script.js:220-229 | true exactly when the link is non-empty and contains both `/spreadsheets/d/` and `export?format=csv` |
| SheetUrl.FirstMatch | script.js:6 | the leftmost position where the marker is followed by a character other than `/`, or none when there is no such position |
| SheetUrl.RunToSlash | script.js:6 | the longest run of non-`/` characters starting at a position |
| SheetUrl.ExtractSheetId | script.js:5-8 | null exactly when the marker is never followed by a non-`/` character; otherwise a non-empty, `/`-free segment that immediately follows the leftmost such marker and runs up to the next `/` or the end |
| SheetUrl.ExtractFromExportLink | script.js:2-7 | for a link `…/spreadsheets/d/<id>/export?format=csv` with a `/`-free id, the extracted id is exactly `<id>` |
| SheetUrl.RunUnique | script.js:6 | the segment after a marker is determined uniquely by the link |
| Escape.ReplaceChar | script.js:518 | a global single-character `replace`: text without the character is unchanged, and every output character is either a kept input character or from the replacement |
| Escape.EscapeHtml | script.js:521-525 | the escaped text contains no `<` and no `>` |
| Escape.EscapeHtmlCons | script.js:521-525 | the three passes act one character at a time: the escaped text of `c` followed by `s` is the entity of `c` followed by the escaped `s` |
| Escape.UnescapeEscapeHtml | script.js:521-525 | decoding the three entities gives back the original text: the escaping loses nothing, including `&` that already looks like an entity |
| Escape.EscapeJs | script.js:517-519 | the escaped text contains no line feed |
| Escape.EscapeJsCons | script.js:517-519 | as written, `escapeJs` acts one character at a time and agrees with the corrected escaping on every character but the backslash |
| Escape.EscapeJsReadsBack | script.js:517-519 | as written, a name with no backslash and no carriage return reads back from the quoted literal as itself, every quote escaped and line feeds turned into spaces |
| Escape.EscapeJsBackslash | script.js:517-519 | as written, a name ending in a backslash yields a literal that does not close, and a name containing `\n` (backslash, n) reads back as a line feed |
| Escape.EscapeJsFixed | script.js:517-519 | the corrected escaping also contains no line feed |
| Escape.EscapeJsFixedReadsBack | script.js:517-519 | with the backslash escaped first, the quoted literal reads back as the name with line feeds turned into spaces, for every name without a carriage return |
| Catalog.TextCell | script.js:441-446 | a missing cell is `""`; a present one is its trimmed text, non-empty unless the cell is blank |
| Catalog.ToNumeric | script.js:443-448 | a missing or blank numeric cell is 0; a cell whose trimmed text is all digits is the whole number they spell; any other cell keeps its raw text |
| Catalog.PromoCell | script.js:447 | a missing cell is `""`; a present one is its trimmed text lower-cased, so the flag is trimmed and has no upper-case letter |
| Catalog.ParseRow | script.js:437-449 | every text field of a product is trimmed, the promo is lower case, and the name is the trimmed first comma-separated cell; `RowColumns` ties every other field to its column |
| Catalog.RowColumns | script.js:437-449 | each field of the product is the cell of its column after splitting on commas: trimmed text for name, shop, img and category, the lower-cased trimmed promo, the coerced price, fee and stock, and `""` or 0 past the end of the row |
| Catalog.ParseJoinedRow | script.js:437-449 | a row written from eight comma-free, already normalised cells parses back to exactly the product with those fields |
| Catalog.DataRows | script.js:434 | fewer rows than lines (the first line is always dropped); every row is trimmed and non-empty; a row is kept exactly when it is the trimmed, non-empty form of a line after the first |
| Catalog.NonEmptyConcat | script.js:434 | `filter(Boolean)` works piece by piece, so the kept rows keep their order and their repeats |
| Catalog.NonEmptyOne | script.js:434 | a single row is kept exactly when it is not empty |
| Catalog.MapRows | script.js:435-450 | `rows.map(f)`: the `k`-th result is `f` of the `k`-th row |
| Catalog.MapRowsConcat | script.js:435-450 | mapping two runs of rows gives their images one after the other |
| Catalog.ParseRows | script.js:435-450 | the `k`-th product is the parse of the `k`-th data row, and every product is normalised |
| Catalog.Named | script.js:451 | the kept products are exactly those with a non-empty name; there are no more of them than before |
| Catalog.NamedConcat | script.js:451 | `filter(p => p.name)` works piece by piece, so the kept products keep their order and their repeats |
| Catalog.NamedOne | script.js:451 | a single product is kept exactly when its name is not empty |
| Catalog.ParseCatalog | script.js:434-451 | no more products than data rows; every product has a non-empty name and normalised fields; a product is listed exactly when it has a name and is the parse of some data row |
| Catalog.ParseCatalogSnoc | script.js:434-451 | one more line at the end of the sheet adds at most one product, at the end of the catalog: that line's product when the line is not blank and the product has a name. With `HeaderOnly` this fixes the catalog's order and repeats line by line |
| Catalog.HeaderIgnored | script.js:434 | the content of the header line never changes the catalog |
| Catalog.HeaderOnly | script.js:434 | a sheet with no line break has no products |
| Catalog.FirstSeen | script.js:465 | `[...new Set(xs)]`: every element once, nothing else, in the order of first occurrence |
| Catalog.DedupThenFilter | script.js:465 | removing `""` after de-duplication equals de-duplicating with `""` already seen |
| Catalog.Categories | script.js:465 | the category chips never include the empty category; a category is listed exactly when some product has it; no category twice; chips in the order categories first appear |
| Catalog.ColumnMembers | script.js:465 | a category appears in `PRODUCTS.map(p => p.category)` exactly when some product has it |
| Catalog.Visible | script.js:489 | no category selected shows every product; otherwise exactly the products of that category |
| Catalog.VisibleConcat | script.js:489 | the category filter works piece by piece, so the grid keeps the catalog's order and repeats |
| Catalog.VisibleOne | script.js:489 | a single product is shown exactly when no category is chosen or it is in the chosen one |
| Cart.CardAddTotals | script.js:504-505 | a card's button adds the product at its unit price, price plus fee: the count rises by one, and the total by price plus fee for a new line or by the stored price of an existing one |
| Cart.TotalQty | script.js:136 | the summed quantity is at least the number of lines |
| Cart.Total | script.js:554 | the summed `price * qty` is never negative |
| Cart.WithAdded | script.js:120-122 | an absent name gets the line `{name, price, qty: 1}` at the end; a present one gets `qty + 1` with its stored price; every other key is untouched; the cart stays well formed |
| Cart.WithRemoved | script.js:191-192 | the name is gone, every other key is untouched, and the cart stays well formed |
| Cart.WithQtyChanged | script.js:182-185 | an absent name changes nothing; otherwise the quantity moves by `delta` and the line is deleted exactly when the result is 0 or less; other keys are untouched; every line keeps `qty > 0` |
| Cart.CountPositiveIffLines | script.js:136-138 | the count is positive exactly when the cart has a line; the total is never negative; an empty cart sums to 0 |
| Cart.AddTotals | script.js:120-122 | adding raises the count by exactly one and the total by the line's unit price, which is the stored price when the line existed |
| Cart.AddExistingTotals | script.js:120-122 | adding one unit to a present line raises the count by one and the total by that line's stored price |
| Cart.AddNewTotals | script.js:120-122 | appending a line for an absent name raises the count by its quantity and the total by its `price * qty` |
| Cart.MoreUnits | script.js:122 | moving a line's quantity by `delta` moves its amount by `price * delta` |
| Cart.RemoveTotals | script.js:191-192 | removing takes exactly that line's quantity and amount off the totals; an absent name changes neither |
| Cart.RemovePresentTotals | script.js:191-192 | deleting a listed line takes exactly its quantity and its `price * qty` off the totals |
| Cart.RemoveIdempotent | script.js:192 | removing a name twice is the same as removing it once |
| Cart.ChangeQtyTotals | script.js:182-185 | a change moves the count by `delta`, and the total by `price * delta`; when the quantity would reach 0 or less, the whole line's quantity and amount come off instead |
| Cart.QtyBumped | script.js:182-185 | storing the bumped line when its quantity stays positive is `WithQtyChanged` |
| Cart.QtyDropped | script.js:182-185 | deleting the line once its bumped quantity is 0 or less is `WithQtyChanged` |
| Cart.SumAmounts | script.js:156-165 | the total accumulated line by line equals the sum of `price * qty`, and it is never negative |
| Cart.View | script.js:151-180 | the drawer shows nothing exactly when the cart is empty; otherwise it lists the lines and the rupiah total |
| Cart.CartBadge | script.js:135-139 | the badge shows the summed quantity and is visible exactly when the cart has a line |
| Cart.Checkout | script.js:545-562 | an empty cart is refused first; a non-empty cart with no profile, or with a null sheet link, throws (`NoProfile`, `NoSheetLink`); an order is built exactly otherwise, and it carries every line, the sum of `price * qty`, the sheet id extracted from the profile's link, and the profile's name and WhatsApp number, null or not |
| Cart.ShoppingCart.constructor | script.js:21 | the page starts from the saved cart, whatever well-formed cart it is, with the drawer closed |
| Cart.ShoppingCart.RenderCart | script.js:151-180 | an empty cart closes the drawer and shows nothing; otherwise the drawer is left as it was and the view is `View` of the cart, whose total accumulated line by line is the sum of `price * qty` |
| Cart.ShoppingCart.AddToCart | script.js:120-126 | the new cart is `WithAdded` of the old one, and the drawer opens when asked to |
| Cart.ShoppingCart.ChangeQty | script.js:182-189 | the new cart is `WithQtyChanged` of the old one; the drawer closes once the cart is empty. The bumped line is stored only when it stays, which leaves the same cart as bumping it before the delete |
| Cart.ShoppingCart.RemoveItem | script.js:191-196 | the new cart is `WithRemoved` of the old one; the drawer closes once the cart is empty |
| Cart.ShoppingCart.ToggleCart | script.js:141-144 | the drawer flips, but an empty cart never stays open |
| Cart.ShoppingCart.MinimizeCart | script.js:530-533 | the drawer is closed and the cart is unchanged |
| Profiles.Find | script.js:109 | the index of the first profile with the id, or none exactly when no profile has it |
| Profiles.CurrentProfile | script.js:55-57 | null exactly when no profile has the current id; otherwise the first listed profile with that id, the one at the index `Find` gives |
| Profiles.Overwrite | script.js:268-273 | an overwritten profile keeps its id, and its logo changes only when new logo data is given |
| Profiles.Save | script.js:244-290 | rejected exactly when a trimmed field is empty (missing field) or the link is invalid, and then nothing changes. When the current id names a profile, that profile is overwritten in place, the list keeps its length and the other profiles are untouched. Otherwise exactly one profile with the fresh id is appended and becomes current |
| Profiles.SaveRejects | script.js:254-261 | an incomplete form fails with the missing-field error; a complete one with an invalid link fails with the sheet-link error |
| Profiles.SaveUpdates | script.js:264-275 | a valid form with a current profile overwrites exactly that profile in place and keeps the current id |
| Profiles.SaveAppends | script.js:277-290 | a valid form without a current profile appends a fresh profile and makes its id current |
| Profiles.Use | script.js:108-111 | an unknown id changes nothing; a known id becomes current; the list never changes |
| Profiles.Drop | script.js:308 | the kept profiles are exactly those with another id; a list without the id is unchanged |
| Profiles.Delete | script.js:300-310 | nothing changes without a current id or without confirmation; otherwise every profile with that id goes, no profile with it remains, and current becomes null |
| Profiles.Reset | script.js:317-322 | once confirmed, the list is empty and there is no current profile; unconfirmed, nothing changes |
| Profiles.FindSameIds | script.js:266 | overwriting fields other than the id never moves which profile a lookup finds |
| Profiles.SaveMakesCurrent | script.js:264-290 | after a successful save, the current profile holds the trimmed form values and the theme, and using its id again changes nothing |
| Profiles.FindAfterAppend | script.js:288-289 | an appended profile with a fresh id is found at the end of the list |
| Profiles.SaveKeepsIdsUnique | script.js:277-289 | saving never gives two profiles the same id |
| Profiles.DropKeepsIdsUnique | script.js:308 | deleting never gives two profiles the same id |
| Profiles.DropConcat | script.js:308 | deleting works piece by piece, so the remaining profiles keep their order |
| Profiles.DropUnique | script.js:308 | with unique ids, deleting the current profile removes exactly one profile when it exists and none otherwise |
| Profiles.ProfileStore.constructor | script.js:16-17 | the store starts from the saved list and current id |
| Profiles.ProfileStore.SaveProfile | script.js:244-298 | a rejected form reports its error and leaves the list and the current id unchanged; an accepted one leaves the state `Save` describes |
| Profiles.ProfileStore.UseProfile | script.js:108-115 | the new state is `Use` of the old one |
| Profiles.ProfileStore.DeleteCurrentProfile | script.js:300-315 | the new state is `Delete` of the old one |
| Profiles.ProfileStore.ResetProfiles | script.js:317-328 | the new state is `Reset` of the old one |
| Wizard.ControlsOn | script.js:336-344 | on every step exactly one of "next" and "save" is shown; "save" only on the last step, where "back" is also available; "back" on every step but the first |
| Wizard.SetupWizard.constructor | script.js:333-334 | the wizard starts on step 1 of 4 |
| Wizard.SetupWizard.NextStep | script.js:346-351 | the step grows by one unless already on the last step, and stays within 1 to 4 |
| Wizard.SetupWizard.PrevStep | script.js:353-358 | the step shrinks by one unless already on the first step, and stays within 1 to 4 |
| Wizard.SetupWizard.OpenSetupModal | script.js:362-366 | opening the setup dialog returns the wizard to step 1 |
| Wizard.Forward | script.js:346-351 | `n` presses of "next" reach `step + n`, capped at the last step |
| Wizard.Backward | script.js:353-358 | `n` presses of "back" reach `step - n`, floored at the first step |

## Left out

- DOM rendering is not modelled: markup, class toggles, styles, `applySetup`/`applyDefaultTheme`, `fillFormWithProfile` and `renderProfilesList`. The drawer is kept as one boolean; the cart view is the list of lines and the total text.
- `localStorage` and JSON (`saveCart`, `saveProfiles`, the storage writes of `setCurrentProfile`): only the in-memory state is modelled.
- `fetch` of the sheet: the catalog starts at the CSV text. The Firebase `push`, `window.open` with the `wa.me` link, and `encodeURIComponent` are foreign calls and are left out.
- The WhatsApp message of `checkout` (script.js:576-583) uses the locale-dependent `toLocaleString`, so it is not modelled. The order's `timestamp` is also left out.
- `uid()` (`Math.random`) becomes a `freshId` parameter that must be non-empty and not yet used. `Date.now`, `new Date().toISOString()` and the product `id: Math.random()` are left out.
- `FileReader` logo upload: the logo data is an optional string. The `alert` and `confirm` dialogs become a returned error and a `confirmed` argument.
- The module-level `const cart`/`profile` (script.js:535-541) and `runCheckout` (script.js:597-606) are not modelled. `checkout` takes the cart and the profile fields as arguments. `runCheckout` reads the `jastip_profile_*` keys, which nothing in the script writes, so its profile has a null sheet link. That is the `NoSheetLink` case of `Checkout`.
- script.js:535 declares `cart` a second time at the top level, after the `let cart` of script.js:21. A top-level `const` redeclaring a `let` of the same script is an early SyntaxError, so script.js as written does not load at all. The model treats the file as if the duplicate declaration were removed and takes the cart of script.js:21 as the page's cart.
- Catalog.ToNumeric: JavaScript numeric coercion is modelled only for blank and digit-only cells. Signs, fractions, exponents, hexadecimal and NaN text are kept raw as `Uncoerced`, and their numeric value is not computed. Catalog.UnitPrice is therefore defined only for whole cells.
- JsText.ToLower: lower-cases ASCII letters only, not the full Unicode mapping of `toLowerCase`.
- Money.FormatRp: covers NaN and natural numbers. Negative numbers, fractions and the exponent form of numbers of 1e21 and above are not modelled.
- Cart.ShoppingCart.AddToCart: `price` is a natural number. The NaN, fractional or negative price a malformed cell could produce is not modelled.
- Cart.Total, Cart.TotalQty, JsText.ValueOf: integers are exact. JavaScript numbers are doubles and round above 2^53, so a sum or a digit string beyond that is not modelled.
- Cart lines use insertion order for `Object.values`. JavaScript lists integer-like keys first; that ordering is not modelled, and neither are keys that collide with `Object.prototype` properties such as `constructor`.
- Cart.ShoppingCart.RenderCart and the `onclick` markup: the HTML-attribute layer around the `escapeJs` output, including a `"` inside a name, is not modelled. Only the JavaScript literal is modelled.
- Escape.EscapeJsFixedReadsBack: assumes names without a carriage return. Like `escapeJs`, the corrected escaping leaves `\r` in place, and `\r` still ends the literal.
- Profiles.Save: the shown error text and the calls that reload the page after saving (`applySetup`, `loadProducts`, closing the dialog) are left out.
- Wizard: `showStep` is modelled as the visibility of the three buttons; which step panel is displayed is not modelled.
- The `load` handler (script.js:610-626) and `filterCategory`'s chip highlighting are not modelled.

## Findings

| source | as written | input that shows it | evidently intended | confidence | as-written member | corrected member |
|---|---|---|---|---|---|---|
| script.js:517-519 | `escapeJs` escapes `'` and replaces line feeds, but leaves backslashes alone, and its output goes inside `'…'` in an `onclick` handler | the product name `a\`: the handler text `changeQty('a\', -1)` has its closing quote escaped, so the literal never closes. The name `\n` (backslash, n) reads back as a line feed, so the wrong cart key is used | escape the backslash first, so that every name reads back as itself with line feeds turned into spaces | not executed | Escape.EscapeJsBackslash | Escape.EscapeJsFixedReadsBack |
