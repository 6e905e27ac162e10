/**
 The book-detail page: the book looked up by the id in the address (with a
 not-found branch), its quantity stepper and wishlist flag, the "Add to Cart"
 handler that adds the book once per unit of the chosen quantity, and the
 "You might also like" row.
 */
module BookDetails {
  import opened Books
  import opened Seqs
  import opened CartEngine
  import opened Stepper

  /** `books.find(b => b.id === id)`: the first book with the id, or none (the not-found page). */
  function FindBook(books: seq<Book>, id: string): (r: Option<Book>)
    ensures r.None? <==> forall i :: 0 <= i < |books| ==> books[i].id != id
    ensures r.Some? ==> exists k :: 0 <= k < |books| && books[k] == r.value && FirstWithId(books, id, k)
  {
    if books == [] then None
    else if books[0].id == id then
      assert FirstWithId(books, id, 0);
      Some(books[0])
    else
      var r := FindBook(books[1..], id);
      if r.Some? then
        var k :| 0 <= k < |books[1..]| && books[1..][k] == r.value && FirstWithId(books[1..], id, k);
        assert FirstWithId(books, id, k + 1);
        r
      else
        r
  }

  /** Position `k` holds the first book with the id `id`. */
  predicate FirstWithId(books: seq<Book>, id: string, k: nat)
  {
    k < |books| && books[k].id == id && forall j :: 0 <= j < k ==> books[j].id != id
  }

  /** A candidate for the related row: same category as `current`, different id. */
  predicate IsRelated(current: Book, b: Book)
  {
    b.category == current.category && b.id != current.id
  }

  /**
   `relatedBooks`: at most three books of the current book's category, other
   than the current book, in catalog order: exactly the first candidates of
   the filtered catalog, so a candidate is shown whenever fewer than three
   candidates come before it.
   */
  function RelatedBooks(books: seq<Book>, current: Book): (r: seq<Book>)
    ensures |r| == Min(3, Count(books, (b: Book) => IsRelated(current, b)))
    ensures forall i :: 0 <= i < |r| ==> r[i].category == current.category && r[i].id != current.id
    ensures IsSubsequence(r, books)
    ensures r == Filter(books, (b: Book) => IsRelated(current, b))[..|r|]
    ensures forall k :: 0 <= k < |books| && IsRelated(current, books[k]) ==>
      (books[k] in r <== Count(books[..k], (b: Book) => IsRelated(current, b)) < 3)
  {
    var related := Filter(books, (b: Book) => IsRelated(current, b));
    var r := Take(related, 3);
    PrefixSubsequence(related, books, |r|);
    forall k | 0 <= k < |books| && IsRelated(current, books[k])
      && Count(books[..k], (b: Book) => IsRelated(current, b)) < 3
      ensures books[k] in r
    {
      FilterPosition(books, (b: Book) => IsRelated(current, b), k);
      assert r[Count(books[..k], (b: Book) => IsRelated(current, b))] == books[k];
    }
    r
  }

  /** With at least three other books in the category, exactly the first three of them are shown. */
  lemma RelatedFirstThree(books: seq<Book>, current: Book)
    requires Count(books, (b: Book) => IsRelated(current, b)) >= 3
    ensures |RelatedBooks(books, current)| == 3
    ensures RelatedBooks(books, current) == Filter(books, (b: Book) => IsRelated(current, b))[..3]
  {
  }

  /** The cart after `n` presses of the cart's add for the same book. */
  function AddCopies(items: seq<CartItem>, book: Book, n: nat): seq<CartItem>
  {
    if n == 0 then items else AddBook(AddCopies(items, book, n - 1), book)
  }

  /**
   `after` is `before` with `k` more copies of `book`: the id's quantity and
   the total are up by `k`, the other lines are as they were, ids stay
   distinct, and the cart invariant is carried over.
   */
  predicate AddedCopies(before: seq<CartItem>, after: seq<CartItem>, book: Book, k: int)
  {
    && UniqueIds(after)
    && (ValidCart(before) ==> ValidCart(after))
    && QuantityOf(after, book.id) == QuantityOf(before, book.id) + k
    && TotalItems(after) == TotalItems(before) + k
    && WithoutId(after, book.id) == WithoutId(before, book.id)
  }

  lemma AddedCopiesTrans(a: seq<CartItem>, b: seq<CartItem>, c: seq<CartItem>, book: Book, j: int, k: int)
    requires AddedCopies(a, b, book, j) && AddedCopies(b, c, book, k)
    ensures AddedCopies(a, c, book, j + k)
  {
  }

  /** One press of the cart's add is one more copy. */
  lemma AddStep(before: seq<CartItem>, book: Book)
    requires UniqueIds(before)
    ensures AddedCopies(before, AddBook(before, book), book, 1)
  {
    AddBookValid(before, book);
    AddBookFrame(before, book);
    AddBookTotal(before, book);
  }

  /**
   Adding a book `n` times raises its cart quantity and the total item
   count by exactly `n`, leaves every other line as it was, and keeps the
   cart invariant.
   */
  lemma {:induction false} AddCopiesEffect(items: seq<CartItem>, book: Book, n: nat)
    requires UniqueIds(items)
    ensures AddedCopies(items, AddCopies(items, book, n), book, n)
  {
    if n > 0 {
      var prev := AddCopies(items, book, n - 1);
      AddCopiesEffect(items, book, n - 1);
      AddStep(prev, book);
      AddedCopiesTrans(items, prev, AddBook(prev, book), book, n - 1, 1);
    }
  }

  /** `AddCopiesEffect` in the form the page's handler states it, for any starting cart. */
  lemma AddCopiesGuarded(items: seq<CartItem>, book: Book, n: nat)
    ensures UniqueIds(items) ==>
      && QuantityOf(AddCopies(items, book, n), book.id) == QuantityOf(items, book.id) + n
      && TotalItems(AddCopies(items, book, n)) == TotalItems(items) + n
      && WithoutId(AddCopies(items, book, n), book.id) == WithoutId(items, book.id)
    ensures ValidCart(items) ==> ValidCart(AddCopies(items, book, n))
  {
    if UniqueIds(items) {
      AddCopiesEffect(items, book, n);
    }
  }

  /** The page's state: the looked-up book, the chosen quantity and the wishlist flag. */
  class DetailPage {
    var book: Option<Book>
    var quantity: int
    var isWishlisted: bool

    /** The chosen quantity never drops below 1. */
    predicate Valid()
      reads this
    {
      quantity >= 1
    }

    /** Opening the page for `id`: look the book up, start at quantity 1, not wishlisted. */
    constructor (books: seq<Book>, id: string)
      ensures book == FindBook(books, id)
      ensures quantity == 1 && !isWishlisted && Valid()
    {
      book := FindBook(books, id);
      quantity := 1;
      isWishlisted := false;
    }

    /**
      * Following a related-book link: the route stays `/book/:id`, so the page
      * stays mounted; the book is looked up afresh, while the quantity and the
      * wishlist flag keep the values chosen for the previous book.
      */
    method ShowBook(books: seq<Book>, id: string)
      modifies this
      ensures book == FindBook(books, id)
      ensures quantity == old(quantity) && isWishlisted == old(isWishlisted)
      ensures old(Valid()) ==> Valid()
    {
      book := FindBook(books, id);
    }

    /** The "−" button, clamped at 1. */
    method DecreaseQuantity()
      modifies this
      ensures quantity == StepDown(old(quantity)) && isWishlisted == old(isWishlisted)
      ensures Valid()
    {
      quantity := StepDown(quantity);
    }

    /** The "+" button. */
    method IncreaseQuantity()
      modifies this
      ensures quantity == StepUp(old(quantity)) && isWishlisted == old(isWishlisted)
      ensures old(Valid()) ==> Valid()
    {
      quantity := StepUp(quantity);
    }

    /** The heart button; `added` tells whether the notice says "Added to wishlist". */
    method HandleWishlist() returns (added: bool)
      modifies this
      ensures isWishlisted == !old(isWishlisted) && added == isWishlisted
      ensures quantity == old(quantity)
    {
      isWishlisted := !isWishlisted;
      added := isWishlisted;
    }

    /** "Add to Cart": call the cart's add once per unit of the chosen quantity. */
    method HandleAddToCart(cart: CartStore)
      requires book.Some? && Valid()
      modifies cart
      ensures cart.items == AddCopies(old(cart.items), book.value, quantity)
      ensures UniqueIds(old(cart.items)) ==>
        && QuantityOf(cart.items, book.value.id) == QuantityOf(old(cart.items), book.value.id) + quantity
        && TotalItems(cart.items) == TotalItems(old(cart.items)) + quantity
        && WithoutId(cart.items, book.value.id) == WithoutId(old(cart.items), book.value.id)
      ensures CartEngine.ValidCart(old(cart.items)) ==> CartEngine.ValidCart(cart.items)
    {
      ghost var start := cart.items;
      AddRepeatedly(cart, book.value, quantity);
      AddCopiesGuarded(start, book.value, quantity);
    }
  }

  /** The handler's loop: `n` calls of the cart's add for `book`. */
  method AddRepeatedly(cart: CartStore, book: Book, n: nat)
    modifies cart
    ensures cart.items == AddCopies(old(cart.items), book, n)
  {
    ghost var start := cart.items;
    var i := 0;
    while i < n
      invariant 0 <= i <= n
      invariant cart.items == AddCopies(start, book, i)
    {
      cart.AddToCart(book);
      i := i + 1;
    }
  }

  /**
    * Opening a related book from a page whose state has been changed: the new
    * book's page starts from the old quantity and flag, and adding to the cart
    * then adds that many copies of the new book.
    */
  method FollowRelated(books: seq<Book>, id: string, related: string, cart: CartStore)
    returns (page: DetailPage)
    modifies cart
    ensures fresh(page) && page.book == FindBook(books, related)
    ensures page.quantity == 4 && page.isWishlisted
    ensures page.book.Some? ==> cart.items == AddCopies(old(cart.items), page.book.value, 4)
  {
    page := new DetailPage(books, id);
    page.IncreaseQuantity();
    page.IncreaseQuantity();
    page.IncreaseQuantity();
    var _ := page.HandleWishlist();
    page.ShowBook(books, related);
    if page.book.Some? {
      page.HandleAddToCart(cart);
    }
  }

  /** Pressing the heart twice restores the original wishlist flag. */
  method WishlistTwice(page: DetailPage)
    modifies page
    ensures page.isWishlisted == old(page.isWishlisted)
    ensures page.quantity == old(page.quantity)
  {
    var _ := page.HandleWishlist();
    var _ := page.HandleWishlist();
  }
}
