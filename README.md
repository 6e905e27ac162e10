# Bookstore cart and catalog logic in Dafny

This project models the logic of a small React bookstore. The rest of the
application is markup. The model covers four pieces of the application:

- **The cart engine** of the application shell (`CartEngine`, `cart_engine.dfy`).
  The cart is a list of line items, each a catalog book with a quantity. Four
  operations replace it: add a book, set a quantity, remove an id, and clear.
  The header badge shows the total item count. The updater expressions are
  pure functions over `seq<CartItem>`. The component state they replace is the
  class `CartStore`, whose methods are proved to produce exactly those
  functions' results. The invariant is "ids pairwise distinct, every quantity
  at least 1", and the model proves which operations keep it.
- **The cart page** (`CartPage`, `cart_page.dfy`). It has the order summary:
  subtotal, shipping with a strict $50 threshold, discount amount and total.
  It also has the case-insensitive promo-code handler with its discount-rate
  state (`CartScreen`), and the −/+ buttons that send new quantities to the
  engine.
- **The landing page** (`Landing`, `landing.dfy`). It has the category button
  row ("All", then each category once, in the order the catalog first
  mentions it), the three featured books, and the category filter.
- **The book-detail page** (`BookDetails`, `book_details.dfy`). It has the
  lookup by id with its not-found branch, and the "You might also like" row.
  It also has the page state (`DetailPage`): a quantity stepper clamped at 1,
  the wishlist toggle, following a related-book link while the page stays
  mounted (the book changes, the quantity and the flag carry over), and the
  "Add to Cart" loop. That loop calls the cart
  engine's add once per unit. Composed with the engine, it raises the book's
  quantity and the total by exactly the chosen quantity.

Supporting modules:

- `Books` holds the `Book` record.
- `Seqs` holds `filter`, `slice`, counting and the subsequence relation.
- `Stepper` holds the −/+ arithmetic shared by both pages.
- `Catalog` holds the six books of the store's static catalog and concrete
  facts about them.

Money is exact `real` arithmetic. Every price property holds for idealised
arithmetic, not for IEEE doubles.

## Model

| member | source | states |
|---|---|---|
| `CartEngine.Increment` | src/App.tsx:28-32 | The `map` keeps length and every book; exactly the lines with the id gain one unit. |
| `CartEngine.AddBook` | src/App.tsx:24-35 | After adding, the ids in the cart are the old ids plus the added book's id. |
| `CartEngine.AddExisting` | src/App.tsx:26-33 | Adding a book already present raises that line's quantity by 1. Length, order and every other line stay unchanged. |
| `CartEngine.AddNew` | src/App.tsx:34 | Adding an absent book appends the book with quantity 1 at the end, after the unchanged old items. |
| `CartEngine.AddBookFrame` | src/App.tsx:24-35 | Under unique ids, adding raises the book's recorded quantity by exactly 1. The lines without that id are unchanged, in order. |
| `CartEngine.AddBookTotal` | src/App.tsx:24-35 | Under unique ids, adding raises `totalItems` by exactly 1. |
| `CartEngine.AddBookValid` | src/App.tsx:24-35 | Adding keeps ids pairwise distinct. It keeps the full invariant (ids distinct, quantities ≥ 1). |
| `CartEngine.TotalItems` | src/App.tsx:54 | Reference definition of the `reduce` over quantities. `TotalItemsAppend`, `TotalItemsSplit`, `AddBookTotal` and `WithoutIdTotal` characterise it. |
| `CartEngine.TotalItemsAppend` | src/App.tsx:54 | The sum of quantities is additive over concatenation. |
| `CartEngine.TotalItemsSplit` | src/App.tsx:54 | The total is the quantity recorded for an id plus the total of the lines without it. |
| `CartEngine.CountIdUnique` | src/App.tsx:26 | Under unique ids, the `find` matches exactly one line when the id is present and none otherwise. |
| `CartEngine.SetQuantity` | src/App.tsx:38-44 | Length and books are kept. Exactly the lines with the id get quantity `q`; every other quantity is kept. |
| `CartEngine.SetQuantityAbsent` | src/App.tsx:38-44 | Setting the quantity of an absent id is a no-op. |
| `CartEngine.SetQuantityFrame` | src/App.tsx:38-44 | Under unique ids, the id's recorded quantity becomes `q` (0 when absent). The other lines are unchanged, in order. |
| `CartEngine.SetQuantityValid` | src/App.tsx:38-44 | The invariant survives when `q ≥ 1`. A present id given `q < 1` breaks it, because the engine does not clamp. |
| `CartEngine.WithoutId` | src/App.tsx:46-48 | The result is an order-preserving subsequence with no line for the id. Every other id is present exactly when it was before. |
| `CartEngine.WithoutIdLength` | src/App.tsx:47 | Exactly the lines with the id are dropped. With the clauses of `WithoutId`, this fixes the result for every cart, repeated ids included. |
| `CartEngine.WithoutIdAbsent` | src/App.tsx:46-48 | Removing an absent id is a no-op. |
| `CartEngine.WithoutIdIdempotent` | src/App.tsx:46-48 | Removing twice equals removing once. |
| `CartEngine.WithoutIdTotal` | src/App.tsx:46-54 | Under unique ids, removing a line lowers `totalItems` by that line's quantity. |
| `CartEngine.WithoutIdValid` | src/App.tsx:46-48 | Removing keeps the invariant. |
| `CartEngine.CartStore.constructor` | src/App.tsx:22 | The cart starts empty, valid, with total 0. |
| `CartEngine.CartStore.AddToCart` | src/App.tsx:24-35 | The new cart is `AddBook` of the old one. The invariant is kept; under unique ids the total rises by 1. |
| `CartEngine.CartStore.UpdateQuantity` | src/App.tsx:38-44 | The new cart is `SetQuantity` of the old one. A valid cart stays valid when `quantity ≥ 1`. |
| `CartEngine.CartStore.RemoveItem` | src/App.tsx:46-48 | The new cart is `WithoutId` of the old one, and a valid cart stays valid. |
| `CartEngine.CartStore.ClearCart` | src/App.tsx:50-52 | The cart becomes empty with total 0. |
| `Stepper.StepDown` | src/pages/Cart.tsx:110 | The "−" value is always ≥ 1. It is `q − 1` from 2 upwards and 1 otherwise. |
| `Stepper.StepUp` | src/pages/Cart.tsx:118 | The "+" value is exactly `q + 1`, so from a non-negative quantity it is at least 1. |
| `Stepper.StepRoundTrip` | src/pages/BookDetails.tsx:139-147 | On quantities ≥ 1, "+" then "−" restores the quantity, and so does "−" then "+" above 1. `StepDown(q) ≤ q < StepUp(q)`. |
| `CartPage.Subtotal` | src/pages/Cart.tsx:27 | Reference definition of the `reduce` over price × quantity. `SubtotalAppend`, `SubtotalNonNegative` and `SubtotalAddBook` characterise it. |
| `CartPage.DiscountAmount` | src/pages/Cart.tsx:29 | The amount is 0 without a rate. For a non-negative subtotal and a rate in [0, 1] it lies between 0 and the subtotal. |
| `CartPage.Total` | src/pages/Cart.tsx:30 | Reference definition of subtotal + shipping − discount. `TotalWithoutDiscount`, `TotalNonNegative`, `FreeShipCodeChangesNothing` and the worked examples characterise it. |
| `CartPage.Shipping` | src/pages/Cart.tsx:28 | Shipping is 0 exactly when the subtotal is strictly above 50, and 5.99 otherwise. |
| `CartPage.SubtotalAppend` | src/pages/Cart.tsx:27 | The subtotal is additive over concatenation. |
| `CartPage.SubtotalNonNegative` | src/pages/Cart.tsx:27 | With non-negative prices and quantities the subtotal is ≥ 0, and the empty cart's is 0. |
| `CartPage.SubtotalAddBook` | src/pages/Cart.tsx:27 | Adding a catalog book to a cart with unique ids raises the subtotal by exactly its price. |
| `CartPage.TotalWithoutDiscount` | src/pages/Cart.tsx:29-30 | With no discount, the total is subtotal plus shipping. A subtotal of exactly 50 pays the fee. |
| `CartPage.TotalNonNegative` | src/pages/Cart.tsx:29-30 | With non-negative prices and quantities and a rate in [0, 1], the total is ≥ 0. |
| `CartPage.OneTenDollarBook` | src/pages/Cart.tsx:27-30 | One $10 book gives subtotal 10, shipping 5.99 and total 15.99. |
| `CartPage.TwoThirtyDollarBooks` | src/pages/Cart.tsx:27-30 | Two $30 books give subtotal 60, free shipping and total 60. |
| `CartPage.LowerChar` | src/pages/Cart.tsx:33 | An upper-case ASCII letter becomes its lower-case letter (code point + 32). Every other character is kept. The result is never upper case. |
| `CartPage.ToLower` | src/pages/Cart.tsx:33 | Length is kept, and character i of the result is `LowerChar` of character i. No character of the result is upper case. |
| `CartPage.SameUpToCaseClassify` | src/pages/Cart.tsx:33-39 | Any two codes that differ only in the case of ASCII letters lower-case alike and take the same branch. |
| `CartPage.LowerFormSpellings` | src/pages/Cart.tsx:33 | A code lower-cases to a lower-case word exactly when it spells that word with any mix of letter cases. |
| `CartPage.WelcomeSpellings` | src/pages/Cart.tsx:33-34 | A code applies the discount exactly when it is "welcome10" in some mix of letter cases. |
| `CartPage.FreeShipSpellings` | src/pages/Cart.tsx:39 | A code gives the free-shipping notice exactly when it is "freeship" in some mix of letter cases. |
| `CartPage.ClassifyPromo` | src/pages/Cart.tsx:32-51 | Reference definition of the branch `handlePromoCode` takes. `WelcomeSpellings`, `FreeShipSpellings`, `WelcomeCode` and `OtherCodesRejected` characterise it. |
| `CartPage.DiscountAfter` | src/pages/Cart.tsx:33-34 | The rate afterwards is the welcome rate or the old rate, and every code but the welcome code keeps the old rate. |
| `CartPage.ToLowerIdempotent` | src/pages/Cart.tsx:33-39 | Lower-casing is idempotent, so a code and its lower-case form take the same branch. |
| `CartPage.WelcomeCode` | src/pages/Cart.tsx:33-34 | A code takes the welcome branch exactly when its lower-case form is "welcome10". It then sets the rate to 0.1, and applying it again does not accumulate. |
| `CartPage.PromoSpellings` | src/pages/Cart.tsx:33-50 | "WELCOME10", "Welcome10" and "welcome10" apply the discount. "FREESHIP" and "FreeShip" give the free-shipping notice. "bogus" is rejected. |
| `CartPage.FreeShipCodeChangesNothing` | src/pages/Cart.tsx:39-43 | The free-shipping code in any case leaves the rate and the total unchanged. At or below $50 the fee is still charged. |
| `CartPage.OtherCodesRejected` | src/pages/Cart.tsx:44-50 | Any other code is rejected and leaves the rate unchanged. |
| `CartPage.DiscountIsZeroOrWelcome` | src/pages/Cart.tsx:25 | Starting at 0 or 0.1, any sequence of applied codes leaves the rate at 0 or 0.1. |
| `CartPage.WelcomeOnHundred` | src/pages/Cart.tsx:29-34 | "WELCOME10" on a $100 subtotal takes off $10, for a total of $90. |
| `CartPage.StepButtonsKeepValid` | src/pages/Cart.tsx:110-118 | Sending a line's "−" or "+" value to `updateQuantity` keeps the cart invariant. That line gets the sent value, and the other lines are unchanged, in order. |
| `CartPage.CartScreen.constructor` | src/pages/Cart.tsx:24-25 | The page starts with an empty code and rate 0. |
| `CartPage.CartScreen.SetPromoCode` | src/pages/Cart.tsx:189 | Typing replaces the code and leaves the rate. |
| `CartPage.CartScreen.HandlePromoCode` | src/pages/Cart.tsx:32-51 | The outcome is the code's branch, the rate becomes `DiscountAfter` of the old rate, and the rate stays 0 or 0.1. |
| `Landing.Dedup` | src/pages/Landing.tsx:18 | The result is duplicate-free and holds exactly the values of the input. |
| `Landing.DedupFirstSeenOrder` | src/pages/Landing.tsx:18 | The distinct values come out in the order of their first occurrence. |
| `Landing.Categories` | src/pages/Landing.tsx:18 | The first entry is "All". |
| `Landing.CategoriesSpec` | src/pages/Landing.tsx:18 | After "All", the entries are pairwise distinct and each is some book's category. Every book's category appears, in first-seen catalog order. |
| `Landing.FeaturedBooks` | src/pages/Landing.tsx:19 | The featured books are the first min(3, \|books\|) books, in order. |
| `Landing.FilteredBooks` | src/pages/Landing.tsx:20-22 | For "All" the result is the catalog. Otherwise it is an order-preserving subsequence of exactly the matching books: none omitted, no other included. |
| `Landing.FilteredBooksUnique` | src/pages/Landing.tsx:22 | The filtered grid is the only order-preserving selection of exactly the matching books. |
| `BookDetails.FindBook` | src/pages/BookDetails.tsx:23-32 | None (the not-found branch) exactly when no book has the id. Otherwise the result is the first book with the id. |
| `BookDetails.RelatedBooks` | src/pages/BookDetails.tsx:61 | The related books are the first min(3, number of candidates) entries of the filtered catalog. All share the category, none has the current id, and they are a subsequence of the catalog. A candidate is shown whenever fewer than 3 candidates precede it. |
| `BookDetails.RelatedFirstThree` | src/pages/BookDetails.tsx:61 | With at least 3 candidates, exactly the first 3 are shown. |
| `BookDetails.AddCopies` | src/pages/BookDetails.tsx:35-37 | Reference definition of `n` successive adds of the same book. `AddCopiesEffect` characterises it. |
| `BookDetails.AddCopiesEffect` | src/pages/BookDetails.tsx:34-37 | Under unique ids, adding a book n times keeps the invariant and raises its quantity and the total by exactly n. Other lines are untouched. |
| `BookDetails.DetailPage.constructor` | src/pages/BookDetails.tsx:20-23 | On mount, the page looks the book up, starts at quantity 1 and is not wishlisted. |
| `BookDetails.DetailPage.ShowBook` | src/pages/BookDetails.tsx:221 | A related-book link stays on the `/book/:id` route, so the mounted page looks the new book up afresh. The quantity and the wishlist flag keep their old values, and the quantity stays ≥ 1. |
| `BookDetails.FollowRelated` | src/pages/BookDetails.tsx:20-23 | Pressing "+" three times and the heart, then following a related link, shows the related book with quantity 4, already wishlisted. "Add to Cart" then adds 4 copies of the related book. |
| `BookDetails.DetailPage.DecreaseQuantity` | src/pages/BookDetails.tsx:139 | "−" sets `StepDown` of the quantity, which keeps it ≥ 1. |
| `BookDetails.DetailPage.IncreaseQuantity` | src/pages/BookDetails.tsx:147 | "+" sets `StepUp` of the quantity, which keeps it ≥ 1. |
| `BookDetails.DetailPage.HandleWishlist` | src/pages/BookDetails.tsx:44-47 | The flag flips. The notice says "added" exactly when the new flag is set. |
| `BookDetails.DetailPage.HandleAddToCart` | src/pages/BookDetails.tsx:34-37 | The cart becomes `AddCopies` of the old cart by the chosen quantity, and the invariant is kept. Under unique ids, the book's quantity and the total rise by exactly that quantity, and other lines are untouched. |
| `BookDetails.AddRepeatedly` | src/pages/BookDetails.tsx:35-37 | n calls of the cart's add leave `AddCopies` of the old cart. |
| `BookDetails.WishlistTwice` | src/pages/BookDetails.tsx:44-45 | Toggling twice restores the flag and the quantity. |
| `Catalog.CatalogIdsDistinct` | src/data/books.ts:4-68 | The six catalog ids are pairwise distinct. |
| `Catalog.CatalogCategories` | src/pages/Landing.tsx:18 | On the catalog, the buttons are All, Technology, Mystery, Education, Cooking, Photography. |
| `Catalog.CatalogFeatured` | src/pages/Landing.tsx:19-21 | On the catalog, the featured row is the first three books, and "All" shows all six. |
| `Catalog.CatalogTechnology` | src/pages/Landing.tsx:22 | Selecting Technology shows books 1 and 3. |
| `Catalog.CatalogLookupFound` | src/pages/BookDetails.tsx:23 | Id "3" finds the third book. |
| `Catalog.CatalogLookupMissing` | src/pages/BookDetails.tsx:25-32 | Id "7" takes the not-found branch. |
| `Catalog.CatalogRelatedFirst` | src/pages/BookDetails.tsx:61 | Book 1's only related book is book 3. |
| `Catalog.CatalogRelatedSecond` | src/pages/BookDetails.tsx:61 | Book 2, alone in its category, has no related books. |

## Left out

- JSX rendering, routing (`useNavigate` beyond the related-book link of `ShowBook`, the back button, the not-found page's "Return to Home"), toasts and their text, and the query-client and toaster providers. These are presentation and framework code. The toast's branch is kept only as `PromoOutcome` and as the `added` flag of `HandleWishlist`.
- The checkout button (src/pages/Cart.tsx:53-59). It only shows a toast.
- The clipboard share (src/pages/BookDetails.tsx:52-58). It is browser I/O.
- `toFixed(2)` display formatting and the `Math.round` discount-percentage badges (src/pages/BookDetails.tsx:60, src/components/BookCard.tsx:25). These round for display only.
- JavaScript floating-point arithmetic. Prices are exact reals, so 5.99 and 0.1 have no representation error here.
- Full Unicode `toLowerCase`. `ToLower` folds ASCII letters only.
- The `useParams` id is modelled as a string. An absent route parameter (`undefined`) matches no book, which is the not-found branch, and is not modelled separately.
- The cart page's rate state is lost when the page unmounts. `CartScreen.constructor` models one mount.
- The empty-cart view and the "discount > 0" summary row (src/pages/Cart.tsx:61-80, 171). These are conditional rendering.
- src/components/Header.tsx is not part of this model. Its only logic is showing the badge when the count is positive.
- src/pages/Index.tsx is not part of this model. It is an unrouted earlier page that appends to a list.
- The "freeship" code is deliberately modelled as the source writes it: a notice that changes neither the rate nor the shipping. `FreeShipCodeChangesNothing` states this.
- `CartEngine.AddBookTotal`, `CartEngine.AddBookFrame` and `BookDetails.AddCopiesEffect` require unique ids. With duplicate ids, `addToCart` raises every matching line, so the total rises by the number of duplicates and not by 1.
