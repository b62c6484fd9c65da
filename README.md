# RATHOD-MART storefront core, modelled in Dafny

RATHOD-MART is a React storefront. This project models the logic behind five of its parts:

- **Cart engine** (`src/context/CartContext.jsx`):
  - cart lines keyed by `cartId`, with a guest mode backed by local storage;
  - a signed-in mode that talks to the server, with rollback on failure;
  - promocodes and the subtotal, discount and total computation.
- **Wishlist engine** (`src/context/WishlistContext.jsx`): toggle, remove, membership, and the guest/server merge on sign-in.
- **API helpers** (`src/data/api.js`):
  - the API base address with its trailing slashes stripped;
  - the query-string builder and the image URL helper;
  - the product normaliser, with its precedence chains and variant mapping;
  - the discount filter of the offers listing.
- **Product listing** (`src/pages/CategoryProducts.jsx`): the server sort mapping, the client-side filter and sort chain, the active filter count, and filter-chip removal.
- **Auth slice** (`src/store/authSlice.js`): the `{userInfo, isAuthenticated, status}` record and its reducers.

Modules:

| module | file | form |
|---|---|---|
| `JsValues` | `js_values.dfy` | JavaScript values and operators the core relies on (truthiness, `\|\|`, `??`, `typeof`, `filter`) |
| `Cart` | `cart_context.dfy` | specification functions and lemmas; class `CartStore` for the provider's state |
| `Wishlist` | `wishlist_context.dfy` | specification functions and lemmas; class `WishlistStore` |
| `Api` | `api.dfy` | functions, plus the method `BuildQuery` with the loops of `buildQuery` |
| `CategoryProducts` | `category_products.dfy` | functions, plus the methods `ApplyFilters` and `FilteredProducts` for the memo body that reassigns `list` |
| `Auth` | `auth_slice.dfy` | class `AuthSlice` whose methods are the reducers |

Modelling conventions:

- **Requests.** Every asynchronous operation is one atomic step. The server's answer is a parameter, `Reply<T> = Ok(data) | Fail`. Methods return the request they would send (`sent`, `mergeRequest`).
- **Local storage.** The entries `guestCartItems`, `guestWishlistItems` and `userInfo` are ordinary fields of the classes. The sync effects read them, so they are not ghost. The persist effects are folded into the methods that change the list.
- **Numbers.** JavaScript numbers are `real`. `Math.round(x)` is `floor(x + 1/2)`.
- **Identifiers.** `_id` is written `dbId`, because Dafny identifiers cannot start with an underscore.
- **Optional fields.** An optional string field is `Option<string>`, and its truthiness is `Present` (present and non-empty).

Behaviours a reader might expect that the code does not have:

- Adding to the cart has no stock ceiling.
- A guest `toggleWishlist` changes the local list; it does not ask the user to sign in.
- A signed-in wishlist toggle is not optimistic, and a failed one leaves the list as it was (no refetch).
- A failed cart merge on sign-in is only logged; nothing falls back to a fetch.
- A failed signed-in `clearCart` refetches the server cart.
- A failed signed-in `removeFromCart` puts the removed line back at the end of the list, not in its old place.
- `getCartTotal` is not stable below zero. A negative subtotal under an unmet minimum totals the subtotal itself, and once the promocode is detached it totals 0.
- `setCredentials(null)` leaves `isAuthenticated` true with a null `userInfo`. The methods state exactly when the consistency invariant holds afterwards.

## Model

| member | source | states |
|---|---|---|
| Cart.CartIdOf | src/context/CartContext.jsx:93-95 | the line key is the product id alone without a variant, and `productId_variantId` with one (absent ids render as "undefined") |
| Cart.CartIdDistinguishesLines | src/context/CartContext.jsx:93-95 | while product ids contain no underscore, equal `cartId`s mean the same product id, both with or both without a variant, and the same variant id |
| Cart.FirstIndex | src/context/CartContext.jsx:112 | `find` on `cartId` stops at the first line with that key |
| Cart.Bump | src/context/CartContext.jsx:114-118 | exactly the lines with the key get quantity + 1; the others and the length are unchanged |
| Cart.SetQuantity | src/context/CartContext.jsx:178-182 | exactly the lines with the key get the new quantity; the others and the length are unchanged |
| Cart.Without | src/context/CartContext.jsx:149 | no line with the key remains; every other line is kept; unique keys and well-formedness are preserved |
| Cart.NewLine | src/context/CartContext.jsx:120-138 | the appended line has the computed `cartId`, quantity 1 and the product id |
| Cart.GuestAdd | src/context/CartContext.jsx:111-139 | after a guest add the key is present, the set of keys grows by exactly that key, and unique keys with quantities ≥ 1 are preserved |
| Cart.GuestAddExisting | src/context/CartContext.jsx:111-119 | adding an existing key raises only that line's quantity, by exactly 1; every other line and the length stay the same |
| Cart.GuestAddNew | src/context/CartContext.jsx:120-139 | adding a new key appends one line with quantity 1 after the unchanged old lines |
| Cart.Subtotal | src/context/CartContext.jsx:240-244 | `getCartSubtotal` sums price × quantity over the lines, with a missing price counting as 0; it is ≥ 0 when no price and no quantity is negative |
| Cart.ItemsCount | src/context/CartContext.jsx:283-284 | `getCartItemsCount` sums the quantities; it is ≥ 0 when no quantity is negative, and at least the number of lines when every quantity is ≥ 1 |
| Cart.SubtotalAppend | src/context/CartContext.jsx:240-244 | subtotal and item count are additive over concatenation |
| Cart.SubtotalNonNegative | src/context/CartContext.jsx:240-244 | with non-negative prices and quantities ≥ 1, the subtotal is ≥ 0 and there is at least one item per line |
| Cart.AbsentKeyUntouched | src/context/CartContext.jsx:144-146 | raising, setting or removing a key not in the cart leaves the cart unchanged |
| Cart.BumpTotals | src/context/CartContext.jsx:114-118 | raising a line adds exactly one item and that line's price to the subtotal |
| Cart.LineAmountBump | src/context/CartContext.jsx:242 | one more unit of a line adds exactly its price to its amount |
| Cart.GuestAddTotals | src/context/CartContext.jsx:111-139 | a guest add puts exactly one more item in the cart and adds the price of the raised or appended line |
| Cart.WithoutMultiset | src/context/CartContext.jsx:149 | with unique keys, removing a key takes exactly its one line out of the multiset of lines |
| Cart.RemoveRollbackSameLines | src/context/CartContext.jsx:149-162 | the rollback of a failed signed-in remove holds the same multiset of lines as before the remove |
| Cart.RemoveTotals | src/context/CartContext.jsx:144-165 | removing a line takes exactly its quantity and its amount off the totals |
| Cart.SetQuantityKeeps | src/context/CartContext.jsx:167-199 | setting a quantity ≥ 1 keeps the set of keys and keeps the cart well formed |
| Cart.Discount | src/context/CartContext.jsx:261-275 | a Fixed promocode takes off its value; a Percentage one never takes more than a truthy cap, nor more than the subtotal at up to 100 %; any other type takes nothing |
| Cart.ShareAtMostSubtotal | src/context/CartContext.jsx:266-267 | a share of at most 100 % of a non-negative subtotal is at most the subtotal |
| Cart.CartTotals | src/context/CartContext.jsx:246-281 | the subtotal is passed through; with no promocode there is no discount and total = max(subtotal, 0); an unmet minimum gives no discount and total = subtotal; the total is ≥ 0 whenever a discount applies or the subtotal is ≥ 0 |
| Cart.PromoAfterTotals | src/context/CartContext.jsx:252-259 | the promocode is detached exactly when its minimum purchase is not met |
| Cart.TotalIsSubtotalLessDiscount | src/context/CartContext.jsx:261-275 | when the promocode applies, total = max(subtotal − discount, 0), and it lies between 0 and the subtotal for a non-negative discount |
| Cart.FixedDiscountIsFlat | src/context/CartContext.jsx:263-264 | a Fixed promocode takes off its value whatever the subtotal |
| Cart.PercentageDiscountIsCapped | src/context/CartContext.jsx:265-271 | a Percentage promocode takes that share of the subtotal, capped by a truthy `maxDiscount` |
| Cart.OtherTypeNoDiscount | src/context/CartContext.jsx:261-275 | any other discount type takes nothing off |
| Cart.TotalsIdempotent | src/context/CartContext.jsx:246-281 | from a non-negative subtotal, computing the totals again after the auto-detach gives the same record and detaches nothing more |
| Cart.TotalsNotIdempotentBelowZero | src/context/CartContext.jsx:252-278 | for a negative subtotal below a promocode's minimum, the first total is the subtotal itself and the recomputed one, after the detach, is 0: the totals are stable only from a non-negative subtotal |
| Cart.PercentageExample | src/context/CartContext.jsx:261-275 | subtotal 1000 with 10 % capped at 80: discount 80, total 920 |
| Cart.FixedBelowMinimumExample | src/context/CartContext.jsx:252-259 | subtotal 300 with a Fixed 50 and minimum 500: no discount, total 300, promocode detached |
| Cart.RejectionMessage | src/context/CartContext.jsx:228-231 | the error message is never empty: the server's message, else the request's message, else "Invalid code" |
| Cart.CartStore.constructor | src/context/CartContext.jsx:24-27 | empty cart, no promocode; consistent exactly when the stored guest cart is |
| Cart.CartStore.Sync | src/context/CartContext.jsx:46-88 | signed in: a non-empty stored guest cart is merged, then cleared, and the server's list is taken; signed out: the stored guest cart is loaded and the promocode dropped; a failure changes nothing; the invariant is preserved |
| Cart.CartStore.AddToCart | src/context/CartContext.jsx:92-142 | signed in: the server's list replaces the cart, or nothing changes on failure; guest: `GuestAdd`, then persisted; the invariant is preserved |
| Cart.CartStore.RemoveFromCart | src/context/CartContext.jsx:144-165 | an unknown key changes nothing; otherwise the key is removed; signed in, a failure appends the removed line at the end |
| Cart.CartStore.UpdateQuantity | src/context/CartContext.jsx:167-199 | quantity ≤ 0 acts as remove (signed in: the remove request, the stored guest cart untouched; guest: no request, the filtered cart persisted); otherwise only the target's quantity changes; signed in, a failure restores the previous list exactly |
| Cart.CartStore.ClearCart | src/context/CartContext.jsx:201-213 | the cart and promocode are cleared; signed in, a failed clear takes the refetched server cart |
| Cart.CartStore.ApplyPromocode | src/context/CartContext.jsx:216-233 | signed out, it throws "Not logged in" and changes nothing; a validated promocode is applied; a rejection, or an answer without a promocode, drops the applied one and throws with a non-empty message; an answer without a promocode throws the engine's TypeError message through the same fallback chain |
| Cart.CartStore.RemovePromocode | src/context/CartContext.jsx:235-238 | only the promocode is cleared |
| Cart.CartStore.GetCartTotal | src/context/CartContext.jsx:246-281 | returns `CartTotals` of the subtotal and detaches a promocode whose minimum is not met |
| Wishlist.Key | src/context/WishlistContext.jsx:145 | `id \|\| _id`: the key is truthy exactly when one of the ids is, and it is `id` whenever `id` is truthy |
| Wishlist.Keys | src/context/WishlistContext.jsx:54 | the merge payload lists each guest entry's `id \|\| _id`, in order |
| Wishlist.InWishlist | src/context/WishlistContext.jsx:144-145 | true exactly when some entry's key equals the id |
| Wishlist.Without | src/context/WishlistContext.jsx:129-131 | no entry with the id remains, every other entry is kept, the length drops by the number of matches, and unique keys are preserved |
| Wishlist.WithoutAppend | src/context/WishlistContext.jsx:129-131 | removal distributes over concatenation |
| Wishlist.WithoutAbsent | src/context/WishlistContext.jsx:123-142 | removing an id no entry has leaves the list unchanged |
| Wishlist.GuestToggle | src/context/WishlistContext.jsx:111-120 | the product's membership flips, every other id's membership is unchanged, and unique keys are preserved |
| Wishlist.GuestToggleCount | src/context/WishlistContext.jsx:111-120 | a new id is appended at the end; a present one loses every entry with it |
| Wishlist.OccurrencesPositive | src/context/WishlistContext.jsx:144-145 | an id in the wishlist occurs at least once |
| Wishlist.OccurrencesAbsent | src/context/WishlistContext.jsx:144-145 | an id not in the wishlist occurs nowhere |
| Wishlist.OccursOnce | src/context/WishlistContext.jsx:111-120 | with unique keys, a truthy id in the wishlist occurs exactly once |
| Wishlist.OccurrencesAtMost | src/context/WishlistContext.jsx:147 | no product occurs more often than the list has entries |
| Wishlist.Count | src/context/WishlistContext.jsx:147 | `getWishlistItemsCount` is the number of entries, which bounds the copies of every product |
| Wishlist.GuestToggleMovesCount | src/context/WishlistContext.jsx:111-120 | on a list with unique keys, a guest toggle moves the count by exactly one: down for a listed product, up for a new one |
| Wishlist.GuestToggleTwice | src/context/WishlistContext.jsx:111-120 | toggling a new product twice restores the list |
| Wishlist.WishlistStore.constructor | src/context/WishlistContext.jsx:22-28 | empty list; consistent exactly when the stored guest list has unique keys |
| Wishlist.WishlistStore.Sync | src/context/WishlistContext.jsx:44-83 | signed in: a non-empty stored guest list is merged by its ids, then cleared, and the server's list is taken; signed out: the stored list is loaded; the invariant is preserved |
| Wishlist.WishlistStore.ToggleWishlist | src/context/WishlistContext.jsx:87-121 | a product without an id changes nothing; signed in: remove if present, else add, with the server's list or no change on failure; guest: `GuestToggle`, then persisted |
| Wishlist.WishlistStore.RemoveFromWishlist | src/context/WishlistContext.jsx:123-142 | a falsy id changes nothing; otherwise the id is removed; signed in, a failure restores the previous list |
| Api.StripTrailingSlashes | src/data/api.js:15 | the result is a prefix of the input, does not end in '/', and only slashes were removed |
| Api.ApiBase | src/data/api.js:11-15 | the API base never ends in a slash and is a prefix of the configured (or default) address |
| Api.ArrayPairs | src/data/api.js:36-37 | an array value yields one pair per element, each under the parameter's key |
| Api.EntryPairs | src/data/api.js:34-40 | a parameter's pairs all carry its key, and a skipped parameter yields none |
| Api.QueryPairs | src/data/api.js:32-44 | every pair of the query carries the key of a parameter that was not skipped |
| Api.QueryPairsStep | src/data/api.js:33-41 | one more parameter appends exactly its own pairs |
| Api.QueryPairsAppend | src/data/api.js:32-44 | the pairs of consecutive parameter lists concatenate |
| Api.QueryPairsExact | src/data/api.js:32-44 | a pair is in the query exactly when some parameter with that key, not undefined/null/"", has that value or has it in its array |
| Api.QueryEmptyExactly | src/data/api.js:32-44 | the query is empty exactly when every parameter is skipped or an empty array |
| Api.AppendArray | src/data/api.js:36-37 | the inner loop appends one pair per array element, in order, after the pairs already there |
| Api.BuildQuery | src/data/api.js:32-44 | returns "" exactly when every parameter is skipped or an empty array; otherwise the non-empty pairs in parameter order, array elements in order |
| Api.EnsureFullUrl | src/data/api.js:47-51 | a falsy URL gives null, an http(s) URL (any case) is kept, and the result is never empty |
| Api.EnsureFullUrlJoin | src/data/api.js:47-51 | a relative path is joined to a slash-free base with exactly one slash |
| Api.NormalizeImage | src/data/api.js:61-78 | a normalised image's full URL and variant id are null or non-empty |
| Api.NormalizeImages | src/data/api.js:58-81 | one normalised image per element of an `images` array, each the normalisation of the element at its position; none when it is not an array |
| Api.FirstPrimary | src/data/api.js:83 | `find` returns a primary-flagged image exactly when there is one, and it is the first: no earlier image is primary-flagged |
| Api.PrimaryImage | src/data/api.js:83 | the first primary-flagged image (no earlier one is flagged), else the first image; null only for no images |
| Api.ChooseImage | src/data/api.js:84-95 | the display image is never an empty string; `primaryImageFullUrl` wins; it is null only when neither `primaryImageFullUrl` nor `primaryImage` is set and, with no images, `image` is not set either |
| Api.ImagePrecedence | src/data/api.js:83-95 | the display image is `primaryImageFullUrl`, else `primaryImage` made absolute, else the URL of the first primary-flagged image (or of the first image when none is flagged), else (only with no images) `image` made absolute |
| Api.DiscountPercent | src/data/api.js:98-109 | a numeric `discount` is taken as it is; otherwise the percentage is a whole number ≥ 0, and 0 unless both prices are numbers with a positive base price |
| Api.DiscountPercentRounds | src/data/api.js:98-109 | a derived percentage is the exact percentage off rounded to the nearest integer, ≥ 0, 0 when the discount price is not below the base, and ≤ 100 for non-negative prices |
| Api.Prices | src/data/api.js:116-120 | `price` is `discountPrice ?? basePrice ?? null`; `originalPrice` is the base price exactly when a numeric discount price is below it (with JavaScript's `<`), and null otherwise; a numeric `originalPrice` is above a numeric `price` |
| Api.Stock | src/data/api.js:123-124 | `stock` is `totalStock ?? stock ?? 0`, and `inStock` holds exactly when that stock is positive |
| Api.DisplayName | src/data/api.js:111 | the name is never empty: `name`, else `title`, else "Untitled product" |
| Api.NormalizeVariant | src/data/api.js:132-174 | a variant's id is truthy exactly when `_id` or `id` is; its SKU is null or non-empty; its price is `price ?? null`; its stock is `currentStock ?? stock ?? 0`, never null or undefined; its images are non-empty URLs, no more than the product's images |
| Api.NormalizeVariants | src/data/api.js:132-174 | one normalised variant per raw variant, in order |
| Api.NormalizeProduct | src/data/api.js:54-185 | `inStock` agrees with `stock`, a numeric original price is above the price, the derived discount is ≥ 0, the variants correspond one to one, and the name is not empty |
| Api.Urls | src/data/api.js:151-161 | a selection of image URLs holds only non-empty URLs, no more than there are images |
| Api.UrlsExact | src/data/api.js:151-161 | a URL is in a selection exactly when a selected image has it as its non-empty full URL |
| Api.UrlsPartition | src/data/api.js:177-182 | the URLs of all images are as many as the general ones plus the variant-tagged ones |
| Api.NormalizedImagesExact | src/data/api.js:151-180 | `generalImages` are exactly the URLs of images without a variant id; a variant's images are exactly those whose variant id equals its id as a string |
| Api.OfferProducts | src/data/api.js:311-322 | the offers are exactly the products whose discount percent is at least the minimum (default 30), each as often as in the input, and no other product |
| CategoryProducts.SortMapping | src/pages/CategoryProducts.jsx:52-61 | `priceLowHigh` gives basePrice/asc, `priceHighLow` basePrice/desc, any other key createdAt/desc |
| CategoryProducts.InitialFilters | src/pages/CategoryProducts.jsx:37-45 | the page opens sorted "featured", with price range [0, 100000] and one active filter exactly when a category is given |
| CategoryProducts.Min | src/pages/CategoryProducts.jsx:136 | `Math.min` of the selected values is one of them and at most each |
| CategoryProducts.Insert | src/pages/CategoryProducts.jsx:153-157 | one insertion step lengthens the list by one |
| CategoryProducts.InsertMultiset | src/pages/CategoryProducts.jsx:153-157 | an insertion adds exactly the inserted product |
| CategoryProducts.InsertBounded | src/pages/CategoryProducts.jsx:153-157 | a bound on the inserted key and on the list's keys bounds the result's keys |
| CategoryProducts.InsertSorted | src/pages/CategoryProducts.jsx:153-157 | inserting into a non-increasing list keeps it non-increasing |
| CategoryProducts.SortDesc | src/pages/CategoryProducts.jsx:153-157 | the rating or discount sort is a permutation in non-increasing key order |
| CategoryProducts.CategoryStep | src/pages/CategoryProducts.jsx:123-129 | the category step keeps exactly the products whose category id, as a string, is selected, and keeps everything when no category is selected or on the trending page |
| CategoryProducts.BrandStep | src/pages/CategoryProducts.jsx:131-133 | the brand step keeps exactly the products with a selected, truthy brand, or everything when no brand is selected |
| CategoryProducts.RatingStep | src/pages/CategoryProducts.jsx:135-138 | the ratings step keeps exactly the products rated at least the smallest selected rating (missing counts as 0) |
| CategoryProducts.DiscountStep | src/pages/CategoryProducts.jsx:140-143 | the discounts step keeps exactly the products discounted at least the smallest selected discount (missing counts as 0) |
| CategoryProducts.StockStep | src/pages/CategoryProducts.jsx:145-151 | the in-stock step keeps a numeric `totalStock` above 0, and otherwise any `inStock` other than `false` |
| CategoryProducts.StepsKeepPassing | src/pages/CategoryProducts.jsx:119-151 | the five steps in a row keep, in order, exactly the products that pass every active filter |
| CategoryProducts.KeptFacts | src/pages/CategoryProducts.jsx:119-151 | the kept products are a sub-multiset of the input and are exactly the passing ones |
| CategoryProducts.FilterSame | src/pages/CategoryProducts.jsx:135-143 | filters by pointwise equal predicates agree |
| CategoryProducts.ApplyFilters | src/pages/CategoryProducts.jsx:119-151 | the chain keeps, in order, exactly the products that pass every active filter (category only off the trending page; missing rating or discount counts as 0; the in-stock test); a non-array gives [] |
| CategoryProducts.FilteredProducts | src/pages/CategoryProducts.jsx:119-160 | the result holds every passing product as often as the input does and nothing else (the same multiset as the filtered list), is non-increasing under a rating or discount sort, and keeps the input order otherwise |
| CategoryProducts.SameElements | src/pages/CategoryProducts.jsx:153-157 | sorting changes no membership |
| CategoryProducts.AtLeastMin | src/pages/CategoryProducts.jsx:135-143 | being at least the smallest selected value is being at least some selected value |
| CategoryProducts.ActiveFiltersCount | src/pages/CategoryProducts.jsx:162-167 | the count is 0 exactly when no brand, rating, discount or category is selected and in-stock is off |
| CategoryProducts.RemoveText | src/pages/CategoryProducts.jsx:171-177 | removing a string value drops every occurrence and keeps every other element; a non-string value removes nothing |
| CategoryProducts.RemoveNumber | src/pages/CategoryProducts.jsx:171-177 | removing a number drops every occurrence and keeps every other element; a non-number removes nothing |
| CategoryProducts.RemoveFilter | src/pages/CategoryProducts.jsx:171-177 | only the named array field changes; a non-array or unknown field leaves the record as it was |
| CategoryProducts.RemoveFilterCount | src/pages/CategoryProducts.jsx:162-177 | a removal lowers the active count by the value's occurrences in a counted field, never raises it, and repeating it changes nothing |
| CategoryProducts.RemovedCount | src/pages/CategoryProducts.jsx:171-177 | filtering a value out of a selection list shortens it by exactly that value's occurrences |
| Auth.AuthSlice.constructor | src/store/authSlice.js:5-11 | signed in exactly when a stored entry exists, with its profile; status idle; consistent unless the entry holds `null` |
| Auth.AuthSlice.SetCredentials | src/store/authSlice.js:30-35 | profile = payload, signed in, status succeeded, payload stored; consistent exactly when the payload is not null |
| Auth.AuthSlice.Logout | src/store/authSlice.js:36-41 | no profile, signed out, status idle, entry removed |
| Auth.AuthSlice.AuthPending | src/store/authSlice.js:46-48 | only the status changes, to loading |
| Auth.AuthSlice.AuthFulfilled | src/store/authSlice.js:49-54 | the same state as `setCredentials` with the returned profile |
| Auth.AuthSlice.AuthRejected | src/store/authSlice.js:55-60 | no profile, signed out, status failed, entry removed |
| Auth.Session | src/store/authSlice.js:5-60 | from a consistent start, a session of sign-in, checks and sign-out keeps `isAuthenticated` ⇔ profile present, and keeps the stored entry in step |
| JsValues.Filter | src/pages/CategoryProducts.jsx:125-151 | `filter` keeps exactly the elements that pass, and no more of them |
| JsValues.FilterMultiset | src/pages/CategoryProducts.jsx:125-151 | each element is kept as often as it occurs when it passes, and never otherwise |

## Left out

- React plumbing is not modelled: contexts, hooks, rendering, the open/closed drawer flags and the `loading` flags.
- Toast notifications are not modelled; they only notify.
- HTTP transport, cookies, the axios instance, and `API_PREFIX` are not modelled. Each request is a parameter (`Reply`), and each method returns the request it would send.
- Concurrency is not modelled. Overlapping requests, stale closures and effect ordering are assumed away: each operation runs atomically on the state it started from.
- JSON parsing and serialisation of local storage are not modelled. A stored entry is the parsed value. A stored entry that fails to parse is not modelled.
- `URLSearchParams` percent-encoding and `String(v)` formatting are not modelled. Api.BuildQuery returns the key/value pairs rather than the encoded text.
- NaN, infinities and floating-point rounding are not modelled: numbers are mathematical reals.
- String-to-number coercion in comparisons (`"5" > 0`) is not modelled. A string compares as NaN.
- `null` and `undefined` are one `None` for optional fields. They are kept apart as `JsValue` only where `===` or `typeof` tell them apart, or where a JavaScript value flows through `??`.
- Api.NormalizeProduct does not model the raw fields it copies through unchanged (the spread of `raw`, the variant's `raw`, `_id` on variants), `productRef`, or the category icon and colour helpers. src/utils/categoryIcons.js is not part of this model.
- The `fetch*` functions of `src/data/api.js` are not modelled; they are HTTP wrappers around `normalizeProduct` and `buildQuery`. Api.OfferProducts models only the discount predicate of `fetchOfferProducts`, with the minimum given or absent (an explicit `null` minimum is not modelled).
- CategoryProducts.FilteredProducts: the category-name heuristics and the product fetch effect of the page are not modelled. The products are parameters, and only the listed fields that the filters and sorts read are kept.
- CategoryProducts.SortDesc models `Array.prototype.sort` as a stable insertion sort producing a new sequence. The in-place reordering of the copied array is not modelled separately.
- Auth.AuthSlice does not model the `checkAuthStatus` request itself, or the rejection payload, which no reducer reads.
- Cart.CartStore and Wishlist.WishlistStore do not model the `fetchCart`/`fetchWishlist` loading flags. A fetch is its reply.
