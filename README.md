# OkiMart storefront core, modelled in Dafny

This project models the sequential logic of the OkiMart storefront client:

- the **cart store**: one global map from product id to a cart line, with the operations `add`, `remove`, `decrement`, `clear`, `itemCount` and `total`;
- the **auth store**: a user registry keyed by id plus the signed-in user, with `register`, `login`, `logout` and `updateProfile`, and the invariant that emails are distinct ignoring case;
- the **catalog service**: the constant product list, `normalize`, `searchProducts`, `getProductsByCategory` and `getProductById`;
- the **registration form**: the name and phone validators, the order of their errors, and the `extras` record handed to `register`;
- the **search page filter**: the query, category and maximum-price conditions, and the clamp on the price input;
- the **product section pagination**: the page size by window width, the page count, the clamped current page, the page slice, and the previous and next buttons;
- the **main layout**: the choice of the active bottom-navigation tab from the path.

Modules follow the source files: `Cart` (src/store/cart.ts), `Auth` (src/store/auth.ts), `Catalog` (src/services/data.ts), `RegisterForm` (src/pages/Register.tsx), `SearchPage` (src/pages/Search.tsx), `ProductSection` (src/components/ui/ProductSection.tsx) and `MainLayout` (src/layouts/MainLayout.tsx). `Types` holds the records of src/types/index.ts. `JsString` models the JavaScript string built-ins the code uses: `\d`, `\D`, `toLowerCase`, `trim`, `includes` and `startsWith`. `Collections` models `filter` and `findIndex`. `Wrappers` holds `Option` and `Result`.

The two stores are classes whose methods replace their fields, as the stores' `set` calls do. Each method states its whole new state and keeps the store's `Valid()` invariant. `itemCount` and `total` are folds over the map. They are ghost functions, with lemmas showing that the fold does not depend on the order in which `Object.values` visits the lines. Everything else is pure functions and lemmas. The page state of the product section is a small class.

Modelling decisions:

- Prices are integer cents, so sums and comparisons are exact. The search page compares `price / 100` with the maximum price, which is a `real` number of dollars.
- The random id of `register` is a parameter. No freshness is required: an id that is already taken overwrites that entry, as the JavaScript object spread would. The contract states that the registry grows by one when the id is fresh.
- `dob`, `address` and `phone` of a user are optional, because `register` copies them from an `extras` object that the form fills only with non-empty inputs.
- `toLowerCase` maps only the ASCII letters. `trim` removes exactly ECMAScript's white-space and line-terminator characters.
- The form reports an empty or blank name with the message "Name must not contain numbers", as the code does. The store's `register` does not reject an empty name; only the form does.
- The cart does not clamp quantities to stock, keeps one map for every user, and has no `setQuantity` or `getQuantity`. No checkout decrements stock or records orders. The model follows the code in all of this.

## Model

| member | source | states |
|---|---|---|
| `JsString.HasDigit` | src/store/auth.ts:27 | `/\d/.test(s)` is true iff some character of `s` is in `'0'..'9'` |
| `JsString.HasNonDigit` | src/store/auth.ts:30 | `/\D/.test(s)` is true iff some character of `s` is outside `'0'..'9'` |
| `JsString.IsDigitsOnly` | src/pages/Register.tsx:17 | `/^\d+$/` holds iff `s` is non-empty and every character is a digit |
| `JsString.LowerChar` | src/services/data.ts:165 | `toLowerCase` on a character leaves no ASCII capital: a capital becomes the small letter at the same alphabet position, and any other character is kept |
| `JsString.Lower` | src/services/data.ts:165 | `toLowerCase` keeps the length and changes only capitals; each capital becomes the small letter at the same alphabet position, so no ASCII capital is left |
| `JsString.Trim` | src/services/data.ts:165 | `trim` never lengthens the string |
| `JsString.TrimSpec` | src/services/data.ts:165 | the trimmed string is the infix of `s` left after removing white space at both ends: it is empty iff `s` is all white space, and otherwise starts and ends with a non-white-space character |
| `JsString.Contains` | src/services/data.ts:179 | `hay.includes(needle)` iff `needle` occurs at some position of `hay` (the empty needle always occurs) |
| `JsString.StartsWith` | src/layouts/MainLayout.tsx:16-17 | `startsWith(p)` holds iff `p` occurs at position 0, that is, iff `p` is no longer than the string and matches its first characters one by one |
| `JsString.TrimKeepsDigits` | src/pages/Register.tsx:16 | the trimmed string has a digit iff the string has one |
| `JsString.TrimLowerCommute` | src/pages/Search.tsx:22 | trimming then lower-casing equals lower-casing then trimming |
| `JsString.ContainsInJoin` | src/services/data.ts:172-179 | a needle found in one of three strings is found in the three joined with single spaces |
| `Collections.Filter` | src/services/data.ts:171 | `filter` returns a subsequence of its input, in order, holding an element iff it is in the input and satisfies the callback, each kept value exactly as often as in the input and each other value never; all of the input when every element is kept |
| `Collections.FindIndex` | src/services/data.ts:192 | the index returned is the first one whose element satisfies the predicate; `None` iff no element does |
| `Cart.SumOverPick` | src/store/cart.ts:52-53 | the fold may take any line first, so its value does not depend on the order of `Object.values` |
| `Cart.SumByRemove` | src/store/cart.ts:30-34 | deleting a key lowers the fold by exactly that line's contribution, and by 0 when the key is absent |
| `Cart.SumByUpdate` | src/store/cart.ts:19-27 | writing a line under a key replaces that key's old contribution (0 if absent) with the new line's |
| `Cart.CartStore.ItemCount` | src/store/cart.ts:52 | `itemCount` of an empty cart is 0, and it is at least the number of lines when all quantities are positive |
| `Cart.CartStore.Total` | src/store/cart.ts:53 | `total` of an empty cart is 0, and it is non-negative for positive quantities and non-negative snapshot prices |
| `Cart.CartStore.constructor` | src/store/cart.ts:18 | the store starts with no lines |
| `Cart.CartStore.Add` | src/store/cart.ts:19-29 | the line for `product.id` holds the passed product and the old quantity (0 if absent) plus `quantity`, default 1. No other key changes. `itemCount` rises by exactly `quantity`. `total` re-prices the whole line at the new snapshot. Positivity is kept when the new quantity is positive |
| `Cart.CartStore.Remove` | src/store/cart.ts:30-34 | the key is deleted and nothing else changes; removing an absent key is a no-op, so a second remove changes nothing; `itemCount` and `total` drop by that line |
| `Cart.CartStore.Decrement` | src/store/cart.ts:35-50 | no-op when the line is absent. Otherwise the line is deleted when `old - quantity <= 0` and holds exactly `old - quantity` otherwise. No other key changes. The line is never left with a quantity of 0 or less. `itemCount` and `total` drop accordingly |
| `Cart.CartStore.Clear` | src/store/cart.ts:51 | the map is empty, and `itemCount` and `total` are 0 |
| `Auth.RegisterCheck` | src/store/auth.ts:26-36 | `register` refuses a name with a digit first, then a present non-empty phone with a non-digit, then an email taken ignoring case; it accepts exactly when none of the three holds |
| `Auth.ProfileCheck` | src/store/auth.ts:65-70 | `updateProfile` accepts iff a provided name has no digit and a provided phone is all digits (an empty phone passes); a provided name with a digit gives the name error, and otherwise a provided phone with a non-digit gives the phone error |
| `Auth.Merge` | src/store/auth.ts:71-74 | the merged user keeps id, email and password. Each provided field replaces the user's, and each absent field keeps it. An empty update changes nothing |
| `Auth.RegisterKeepsEmailsDistinct` | src/store/auth.ts:33-46 | adding a user whose email is not taken, under any id, keeps all emails distinct ignoring case |
| `Auth.RewriteKeepsEmailsDistinct` | src/store/auth.ts:16 | rewriting a user with a record of the same email, as `updateProfile` does, keeps emails distinct |
| `Auth.CredentialsUnique` | src/store/auth.ts:50-52 | with distinct emails at most one user matches a login, so `find`'s visiting order cannot matter |
| `Auth.AuthStore.constructor` | src/store/auth.ts:24-25 | no user is signed in and the registry is empty |
| `Auth.AuthStore.Register` | src/store/auth.ts:26-48 | on a failed check the store is unchanged and the check's error is returned. Otherwise exactly the new user is written under `id` and becomes current, and every other user is unchanged. The registry grows by one when `id` is fresh. Emails stay distinct |
| `Auth.AuthStore.Login` | src/store/auth.ts:49-58 | succeeds iff some user has the email ignoring case and the exact password; that unique user becomes current; the registry never changes; on failure the current user is unchanged |
| `Auth.AuthStore.Logout` | src/store/auth.ts:59 | no user is current and the registry is unchanged, whatever the state before, so it is idempotent |
| `Auth.AuthStore.UpdateProfile` | src/store/auth.ts:60-80 | fails with "not authenticated" when nobody is signed in, and with the check's error for an invalid provided field, changing nothing. Otherwise the merged record, with the same id, replaces the user in the registry and as current user |
| `Catalog.Normalize` | src/services/data.ts:165 | `normalize(s)` equals lower-casing the trimmed `s`; it is never longer than `s`, holds no ASCII capital, and neither starts nor ends with white space |
| `Catalog.Haystack` | src/services/data.ts:172-178 | the joined haystack contains each of the product's normalised name, category name and description (empty when absent) |
| `Catalog.MatchesSearch` | src/services/data.ts:179 | a product matches iff the query occurs at some position of its joined haystack; the empty query matches every product |
| `Catalog.SearchProducts` | src/services/data.ts:167-181 | the result is a subsequence of the catalog in order. A blank normalised query returns the whole catalog. Otherwise a product is returned iff the normalised query occurs in its normalised name, category name and description joined with single spaces |
| `Catalog.HaystackHasFields` | src/services/data.ts:171-180 | a query found in the normalised name, category name or description is found in the joined haystack |
| `Catalog.SearchFindsByField` | src/services/data.ts:168-180 | completeness: every catalog product whose normalised name, category name or description contains the normalised query is returned |
| `Catalog.ProductsByCategory` | src/services/data.ts:183-189 | the result is a subsequence, in order, of `searchProducts(query)` for a non-empty query and of the catalog otherwise; it holds exactly the catalog products of the category that match the query |
| `Catalog.ProductById` | src/services/data.ts:191-193 | the result is the first catalog product with the id; `None` (for `undefined`) iff none has it |
| `SearchPage.MatchesQuery` | src/pages/Search.tsx:24-27 | a blank query matches every product; otherwise the product matches iff the query occurs at some position of its lower-cased name, category name or description, each searched on its own |
| `SearchPage.MatchesCategory` | src/pages/Search.tsx:28 | `'all'` matches every product, a product always matches its own category id, and a specific category matches only its own products |
| `SearchPage.MatchesPrice` | src/pages/Search.tsx:29 | no limit matches every product; a limit in dollars matches iff the price in cents is at most 100 times the limit, so a negative limit matches no product |
| `SearchPage.Filtered` | src/pages/Search.tsx:21-32 | the result is a subsequence of the products in order, holding a product iff the query, category and price conditions all hold, each such product exactly as often as in the input; with a blank query, category `'all'` and no price limit it is the whole list |
| `SearchPage.ClampMaxPrice` | src/pages/Search.tsx:56 | an empty input stays "no limit"; a number becomes itself when non-negative and 0 when negative |
| `SearchPage.PageQueryImpliesCatalogSearch` | src/pages/Search.tsx:22-27 | a catalog product with unpadded fields that the page's query condition accepts is also returned by `searchProducts` for that query |
| `RegisterForm.IsValidName` | src/pages/Register.tsx:16 | the name is valid iff it has a non-white-space character and no digit |
| `RegisterForm.IsValidPhone` | src/pages/Register.tsx:17 | the phone is valid iff every character is a digit (so the empty phone is valid) |
| `RegisterForm.BuildExtras` | src/pages/Register.tsx:29-32 | `extras` has `phone`, `dob` or `address` exactly when that input is non-empty, and then with that input's value |
| `RegisterForm.Submit` | src/pages/Register.tsx:19-34 | an invalid name is reported before an invalid phone, and neither reaches `register`. Otherwise `register` is called with the trimmed name, the email, the password and the built `extras`, and exactly in that case |
| `RegisterForm.SubmittedPassesStoreChecks` | src/pages/Register.tsx:34 | what the form passes to `register` always clears the store's name and phone checks, and the store refuses it iff the email is taken ignoring case |
| `RegisterForm.SubmitForm` | src/pages/Register.tsx:23-34 | form errors leave the store unchanged, the name error coming first. A valid form with a taken email fails with "email registered" and changes nothing. Registration succeeds iff the form is valid and the email is free, and then the trimmed name and built extras are written under `id` and signed in |
| `ProductSection.PageSize` | src/components/ui/ProductSection.tsx:20-37 | 10 from width 1280, 8 from 1024, 6 from 768, otherwise 4; 6 when there is no window |
| `ProductSection.TotalPages` | src/components/ui/ProductSection.tsx:39 | at least one page; for `n > 0` products, the least `t` with `n <= t * pageSize`, that is `ceil(n / pageSize)` |
| `ProductSection.Current` | src/components/ui/ProductSection.tsx:40 | the shown page is below `totalPages` and at most `page`, and equals `page` when that is in range and the last page otherwise |
| `ProductSection.Slice` | src/components/ui/ProductSection.tsx:43 | `slice` returns the in-range part of `[start, end)`; it is empty when `start` is past the end or `end` is not after `start` |
| `ProductSection.PagedProducts` | src/components/ui/ProductSection.tsx:41-44 | the page has at most `pageSize` products and is the run of products starting at `current * pageSize` |
| `ProductSection.PagesUpToPrefix` | src/components/ui/ProductSection.tsx:41-44 | the first `k` pages concatenated are the first `k * pageSize` products (or all of them) |
| `ProductSection.PagesCoverProducts` | src/components/ui/ProductSection.tsx:39-44 | pages `0 .. totalPages - 1` concatenated in order give back the product list |
| `ProductSection.CurrentPageNotEmpty` | src/components/ui/ProductSection.tsx:40-44 | with at least one product, the shown page is never empty |
| `ProductSection.ShowsControls` | src/components/ui/ProductSection.tsx:92 | the pagination controls are shown iff the products do not fit on one page |
| `ProductSection.PrevDisabled` | src/components/ui/ProductSection.tsx:97 | Previous is disabled iff the page state is 0 or all products fit on one page |
| `ProductSection.NextDisabled` | src/components/ui/ProductSection.tsx:108 | Next is disabled iff no product remains after the shown page |
| `ProductSection.Pager.constructor` | src/components/ui/ProductSection.tsx:27 | the page state starts at 0 |
| `ProductSection.Pager.GoPrev` | src/components/ui/ProductSection.tsx:46 | one page back, never below 0 |
| `ProductSection.Pager.GoNext` | src/components/ui/ProductSection.tsx:47 | one page on, never beyond `totalPages - 1`; a page already at or beyond the last becomes the last |
| `MainLayout.ActivePage` | src/layouts/MainLayout.tsx:13-19 | the tab is orders iff the path starts with `/orders`, profile iff it starts with `/profile` but not `/orders`, and home otherwise; the root test never intercepts a prefix |

## Left out

- Persistence: the `persist` middleware, `localStorage` and `partialize` (src/store/cart.ts:55-59, src/store/auth.ts:82-86) are browser I/O. Rehydrated state is assumed to satisfy the stores' invariants.
- Random ids: `generateId` (src/store/auth.ts:19) is replaced by the caller-supplied `id` of `Auth.AuthStore.Register`.
- Floating point: prices, totals and quantities are exact integers, so JavaScript's rounding of numbers such as 5.99 is not modelled. Fractional quantities, and `NaN` from a non-numeric price input, are left out too.
- `JsString.Lower`: maps only ASCII letters, unlike Unicode `toLowerCase`.
- `Auth.Merge`: treats an update field as either absent or a string. A property present with the value `undefined` would overwrite the field with `undefined`; this is not modelled.
- `Auth.AuthStore.Login`: `find` returns the first match in `Object.values` order. The model picks any match. Under the store's invariant the match is unique (`Auth.CredentialsUnique`), so the two agree on every reachable state, but not on rehydrated state that breaks the invariant.
- `SearchPage.PageQueryImpliesCatalogSearch`: proves only one direction. The converse fails, because `searchProducts` searches the fields joined with spaces and so matches queries that span two fields.
- `ProductSection.PageSize`: maps the absence of a window to the medium size, as the guard at src/components/ui/ProductSection.tsx:31 intends. Where `window` is not declared at all, the dependency list `[window?.innerWidth]` at line 37 throws a `ReferenceError` before that guard runs; the model does not capture this.
- `ProductSection.Pager.GoNext`: takes `totalPages` from the render that created the handler, as a parameter. The page state is a natural number, which it always is in the source.
- Product fields `image`, `emoji` and `quantity` (src/types/index.ts:5-10): presentation only, and the catalog entries have no `quantity`. The catalog constants `storeData`, `deliveryInfo` and `smartListTags` are display data.
- React wiring: memoisation, `navigate('/')` after registering, `setError`, reading the initial query from the URL, and rendering. This covers the cart sheet, product cards, modal, header, banners, navigation bar, `App.tsx`, the other pages and `src/utils/index.ts` (currency and count formatting, `cn`).
- Features the code does not have are not modelled: stock clamping, per-user carts, `setQuantity`/`getQuantity`, checkout, stock decrement and orders. `src/components/ui/CartSheet.tsx:6` imports a `checkout` that `src/services/data.ts` does not export, and `src/components/ui/ProductCard.tsx:21` reads a `getQuantity` that the cart store does not define.
