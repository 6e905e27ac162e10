/**
 The cart engine owned by the application shell: a list of line items, each a
 catalog book with a quantity, replaced as a whole by four operations (add a
 book, set a quantity, remove an id, clear) and summarised by the total item
 count shown in the header badge.

 The pure functions below are the updater expressions handed to the state
 setter; the class `CartStore` is the component state they replace.
 */
module CartEngine {
  import opened Books
  import opened Seqs

  /** A book in the cart together with how many copies are wanted. */
  datatype CartItem = CartItem(book: Book, quantity: int)

  /** Some line item carries the book id `id`. */
  predicate HasId(items: seq<CartItem>, id: string)
  {
    exists i :: 0 <= i < |items| && items[i].book.id == id
  }

  /** No two line items carry the same book id. */
  predicate UniqueIds(items: seq<CartItem>)
  {
    forall i, j :: 0 <= i < j < |items| ==> items[i].book.id != items[j].book.id
  }

  /** The cart invariant: one line per id, and every quantity at least 1. */
  predicate ValidCart(items: seq<CartItem>)
  {
    UniqueIds(items) && forall i :: 0 <= i < |items| ==> items[i].quantity >= 1
  }

  /** Number of line items that carry the id `id`. */
  function CountId(items: seq<CartItem>, id: string): (n: nat)
    ensures n <= |items|
  {
    Count(items, (item: CartItem) => item.book.id == id)
  }

  /** Sum of the quantities of the line items that carry the id `id` (0 when absent). */
  function QuantityOf(items: seq<CartItem>, id: string): int
  {
    if items == [] then 0
    else (if items[0].book.id == id then items[0].quantity else 0) + QuantityOf(items[1..], id)
  }

  /** `totalItems`: the sum of all quantities. */
  function TotalItems(items: seq<CartItem>): int
  {
    if items == [] then 0 else items[0].quantity + TotalItems(items[1..])
  }

  /** The `map` that raises by one the quantity of every line item with id `id`. */
  function Increment(items: seq<CartItem>, id: string): (r: seq<CartItem>)
    ensures |r| == |items|
    ensures forall i :: 0 <= i < |items| ==>
      r[i].book == items[i].book &&
      r[i].quantity == if items[i].book.id == id then items[i].quantity + 1 else items[i].quantity
  {
    if items == [] then []
    else
      var head := if items[0].book.id == id then items[0].(quantity := items[0].quantity + 1) else items[0];
      [head] + Increment(items[1..], id)
  }

  /** The updater of `addToCart`: bump an existing line, or append a new line with quantity 1. */
  function AddBook(items: seq<CartItem>, book: Book): (r: seq<CartItem>)
    ensures forall id :: HasId(r, id) <==> HasId(items, id) || id == book.id
  {
    if HasId(items, book.id) then
      var r := Increment(items, book.id);
      assert forall i :: 0 <= i < |r| ==> r[i].book.id == items[i].book.id;
      r
    else
      var r := items + [CartItem(book, 1)];
      assert r[|items|].book.id == book.id;
      assert forall i :: 0 <= i < |items| ==> r[i] == items[i];
      r
  }

  /** The updater of `updateQuantity`: every line with id `id` gets quantity `q`, nothing else moves. */
  function SetQuantity(items: seq<CartItem>, id: string, q: int): (r: seq<CartItem>)
    ensures |r| == |items|
    ensures forall i :: 0 <= i < |items| ==>
      r[i].book == items[i].book &&
      r[i].quantity == if items[i].book.id == id then q else items[i].quantity
  {
    if items == [] then []
    else
      var head := if items[0].book.id == id then items[0].(quantity := q) else items[0];
      [head] + SetQuantity(items[1..], id, q)
  }

  /** The updater of `removeItem`: keep the lines whose id is not `id`, in order. */
  function WithoutId(items: seq<CartItem>, id: string): (r: seq<CartItem>)
    ensures IsSubsequence(r, items)
    ensures !HasId(r, id)
    ensures forall other :: other != id ==> (HasId(r, other) <==> HasId(items, other))
  {
    var r := Filter(items, (item: CartItem) => item.book.id != id);
    assert forall other :: HasId(r, other) ==> HasId(items, other) by {
      forall other | HasId(r, other) ensures HasId(items, other) {
        var i :| 0 <= i < |r| && r[i].book.id == other;
        assert r[i] in items;
        var j :| 0 <= j < |items| && items[j] == r[i];
      }
    }
    r
  }

  // ---------------------------------------------------------------------
  // Facts about the invariant

  lemma ValidTail(items: seq<CartItem>)
    requires ValidCart(items) && items != []
    ensures ValidCart(items[1..]) && !HasId(items[1..], items[0].book.id)
  {
  }

  lemma ValidCons(x: CartItem, rest: seq<CartItem>)
    requires ValidCart(rest) && x.quantity >= 1 && !HasId(rest, x.book.id)
    ensures ValidCart([x] + rest)
  {
    var s := [x] + rest;
    forall i, j | 0 <= i < j < |s| ensures s[i].book.id != s[j].book.id {
      if i == 0 {
        assert rest[j - 1] == s[j];
      } else {
        assert rest[i - 1] == s[i] && rest[j - 1] == s[j];
      }
    }
  }

  /** Under the invariant, the quantity recorded for an id is that of its single line. */
  lemma {:induction false} QuantityOfLine(items: seq<CartItem>, k: nat)
    requires UniqueIds(items) && k < |items|
    ensures QuantityOf(items, items[k].book.id) == items[k].quantity
  {
    if k == 0 {
      QuantityOfAbsent(items[1..], items[0].book.id);
    } else {
      assert items[1..][k - 1] == items[k];
      QuantityOfLine(items[1..], k - 1);
    }
  }

  lemma {:induction false} QuantityOfAbsent(items: seq<CartItem>, id: string)
    requires forall i :: 0 <= i < |items| ==> items[i].book.id != id
    ensures QuantityOf(items, id) == 0
  {
    if items != [] {
      QuantityOfAbsent(items[1..], id);
    }
  }

  /** With unique ids, an id occurs on exactly one line when present and on none otherwise. */
  lemma {:induction false} CountIdUnique(items: seq<CartItem>, id: string)
    requires UniqueIds(items)
    ensures CountId(items, id) == if HasId(items, id) then 1 else 0
  {
    if items != [] {
      assert UniqueIds(items[1..]) by {
        forall i, j | 0 <= i < j < |items[1..]|
          ensures items[1..][i].book.id != items[1..][j].book.id
        {
          assert items[1..][i] == items[i + 1] && items[1..][j] == items[j + 1];
        }
      }
      CountIdUnique(items[1..], id);
      if items[0].book.id != id && HasId(items, id) {
        var i :| 0 <= i < |items| && items[i].book.id == id;
        assert items[1..][i - 1].book.id == id;
      }
    }
  }

  // ---------------------------------------------------------------------
  // Totals

  lemma {:induction false} TotalItemsAppend(a: seq<CartItem>, b: seq<CartItem>)
    ensures TotalItems(a + b) == TotalItems(a) + TotalItems(b)
  {
    if a != [] {
      assert (a + b)[0] == a[0] && (a + b)[1..] == a[1..] + b;
      TotalItemsAppend(a[1..], b);
      assert TotalItems(a + b) == a[0].quantity + TotalItems(a[1..] + b);
    } else {
      assert a + b == b;
    }
  }

  /** The total splits into the lines without `id` and the quantity recorded for `id`. */
  lemma {:induction false} TotalItemsSplit(items: seq<CartItem>, id: string)
    ensures TotalItems(items) == TotalItems(WithoutId(items, id)) + QuantityOf(items, id)
  {
    if items != [] {
      TotalItemsSplit(items[1..], id);
    }
  }

  // ---------------------------------------------------------------------
  // addToCart

  /** Bumping the lines with `id` leaves every other line where it was. */
  lemma {:induction false} IncrementFrame(items: seq<CartItem>, id: string)
    ensures WithoutId(Increment(items, id), id) == WithoutId(items, id)
    ensures QuantityOf(Increment(items, id), id) == QuantityOf(items, id) + CountId(items, id)
  {
    if items != [] {
      IncrementFrame(items[1..], id);
    }
  }

  lemma {:induction false} AppendFrame(items: seq<CartItem>, book: Book)
    requires !HasId(items, book.id)
    ensures WithoutId(items + [CartItem(book, 1)], book.id) == WithoutId(items, book.id)
    ensures QuantityOf(items + [CartItem(book, 1)], book.id) == QuantityOf(items, book.id) + 1
  {
    if items != [] {
      assert (items + [CartItem(book, 1)])[1..] == items[1..] + [CartItem(book, 1)];
      AppendFrame(items[1..], book);
    }
  }

  /** Adding a book already in the cart raises that line by one; length, order and other lines stay. */
  lemma AddExisting(items: seq<CartItem>, book: Book, k: nat)
    requires UniqueIds(items) && k < |items| && items[k].book.id == book.id
    ensures |AddBook(items, book)| == |items|
    ensures AddBook(items, book)[k] == items[k].(quantity := items[k].quantity + 1)
    ensures forall j :: 0 <= j < |items| && j != k ==> AddBook(items, book)[j] == items[j]
  {
    var r := AddBook(items, book);
    assert HasId(items, book.id);
    forall j | 0 <= j < |items| && j != k ensures r[j] == items[j] {
      if j < k {
        assert items[j].book.id != items[k].book.id;
      } else {
        assert items[k].book.id != items[j].book.id;
      }
    }
  }

  lemma AddBookExisting(items: seq<CartItem>, book: Book)
    requires HasId(items, book.id)
    ensures AddBook(items, book) == Increment(items, book.id)
  {
  }

  /** Adding a book not yet in the cart appends one copy of it at the end. */
  lemma AddNew(items: seq<CartItem>, book: Book)
    requires !HasId(items, book.id)
    ensures AddBook(items, book) == items + [CartItem(book, 1)]
  {
  }

  /** Adding raises the book's recorded quantity by exactly one and leaves all other lines as they were. */
  lemma AddBookFrame(items: seq<CartItem>, book: Book)
    requires UniqueIds(items)
    ensures QuantityOf(AddBook(items, book), book.id) == QuantityOf(items, book.id) + 1
    ensures WithoutId(AddBook(items, book), book.id) == WithoutId(items, book.id)
  {
    if HasId(items, book.id) {
      IncrementFrame(items, book.id);
      CountIdUnique(items, book.id);
    } else {
      AppendFrame(items, book);
    }
  }

  /** Adding a book raises the total item count by exactly one. */
  lemma AddBookTotal(items: seq<CartItem>, book: Book)
    requires UniqueIds(items)
    ensures TotalItems(AddBook(items, book)) == TotalItems(items) + 1
  {
    AddBookFrame(items, book);
    TotalItemsSplit(items, book.id);
    TotalItemsSplit(AddBook(items, book), book.id);
  }

  /** Adding a book keeps ids distinct, and keeps quantities at least 1. */
  lemma AddBookValid(items: seq<CartItem>, book: Book)
    requires UniqueIds(items)
    ensures UniqueIds(AddBook(items, book))
    ensures ValidCart(items) ==> ValidCart(AddBook(items, book))
  {
    var r := AddBook(items, book);
    if HasId(items, book.id) {
      assert forall i :: 0 <= i < |r| ==> r[i].book.id == items[i].book.id;
    } else {
      assert forall i :: 0 <= i < |items| ==> r[i] == items[i];
      forall i, j | 0 <= i < j < |r| ensures r[i].book.id != r[j].book.id {
        if j == |items| {
          assert r[j].book.id == book.id;
        }
      }
    }
  }

  // ---------------------------------------------------------------------
  // updateQuantity

  /** Setting the quantity of an id that is not in the cart changes nothing. */
  lemma SetQuantityAbsent(items: seq<CartItem>, id: string, q: int)
    requires !HasId(items, id)
    ensures SetQuantity(items, id, q) == items
  {
    var r := SetQuantity(items, id, q);
    forall i | 0 <= i < |items| ensures r[i] == items[i] {
      assert items[i].book.id != id;
    }
  }

  /**
   Setting a quantity records exactly `q` for a present id (0 stays 0 for an
   absent one) and leaves all other lines as they were.
   */
  lemma SetQuantityFrame(items: seq<CartItem>, id: string, q: int)
    requires UniqueIds(items)
    ensures QuantityOf(SetQuantity(items, id, q), id) == if HasId(items, id) then q else 0
    ensures WithoutId(SetQuantity(items, id, q), id) == WithoutId(items, id)
  {
    SetQuantitySplit(items, id, q);
    CountIdUnique(items, id);
  }

  lemma {:induction false} SetQuantitySplit(items: seq<CartItem>, id: string, q: int)
    ensures QuantityOf(SetQuantity(items, id, q), id) == q * CountId(items, id)
    ensures WithoutId(SetQuantity(items, id, q), id) == WithoutId(items, id)
  {
    SetQuantityQuantity(items, id, q);
    SetQuantityOthers(items, id, q);
  }

  lemma {:induction false} SetQuantityQuantity(items: seq<CartItem>, id: string, q: int)
    ensures QuantityOf(SetQuantity(items, id, q), id) == q * CountId(items, id)
  {
    if items != [] {
      SetQuantityQuantity(items[1..], id, q);
      var c := if items[0].book.id == id then 1 else 0;
      assert CountId(items, id) == c + CountId(items[1..], id);
      assert q * CountId(items, id) == q * c + q * CountId(items[1..], id);
      assert SetQuantity(items, id, q)[1..] == SetQuantity(items[1..], id, q);
    }
  }

  lemma {:induction false} SetQuantityOthers(items: seq<CartItem>, id: string, q: int)
    ensures WithoutId(SetQuantity(items, id, q), id) == WithoutId(items, id)
  {
    if items != [] {
      SetQuantityOthers(items[1..], id, q);
      assert SetQuantity(items, id, q)[1..] == SetQuantity(items[1..], id, q);
    }
  }

  /**
   The invariant survives `updateQuantity` when `q >= 1`; a present id given
   a quantity below 1 breaks it, since the engine does not clamp.
   */
  lemma SetQuantityValid(items: seq<CartItem>, id: string, q: int)
    requires ValidCart(items)
    ensures q >= 1 ==> ValidCart(SetQuantity(items, id, q))
    ensures HasId(items, id) && q < 1 ==> !ValidCart(SetQuantity(items, id, q))
  {
    var r := SetQuantity(items, id, q);
    assert forall i :: 0 <= i < |r| ==> r[i].book.id == items[i].book.id;
    if HasId(items, id) && q < 1 {
      var i :| 0 <= i < |items| && items[i].book.id == id;
      assert r[i].quantity < 1;
    }
  }

  // ---------------------------------------------------------------------
  // removeItem

  /** Removing an id that is not in the cart changes nothing. */
  lemma WithoutIdAbsent(items: seq<CartItem>, id: string)
    requires !HasId(items, id)
    ensures WithoutId(items, id) == items
  {
    FilterKeepsAll(items, (item: CartItem) => item.book.id != id);
  }

  /**
   Exactly the lines with the id are removed, so together with the
   subsequence and id clauses of `WithoutId` this fixes the result for
   every cart, repeated ids included.
   */
  lemma WithoutIdLength(items: seq<CartItem>, id: string)
    ensures |WithoutId(items, id)| == |items| - CountId(items, id)
  {
    CountComplement(items, (item: CartItem) => item.book.id == id, (item: CartItem) => item.book.id != id);
  }

  /** Removing the same id twice is the same as removing it once. */
  lemma WithoutIdIdempotent(items: seq<CartItem>, id: string)
    ensures WithoutId(WithoutId(items, id), id) == WithoutId(items, id)
  {
    WithoutIdAbsent(WithoutId(items, id), id);
  }

  /** Removing an id lowers the total by that line's quantity. */
  lemma WithoutIdTotal(items: seq<CartItem>, k: nat)
    requires UniqueIds(items) && k < |items|
    ensures TotalItems(WithoutId(items, items[k].book.id)) == TotalItems(items) - items[k].quantity
  {
    TotalItemsSplit(items, items[k].book.id);
    QuantityOfLine(items, k);
  }

  /** Removing keeps ids distinct and quantities at least 1. */
  lemma {:induction false} WithoutIdValid(items: seq<CartItem>, id: string)
    requires ValidCart(items)
    ensures ValidCart(WithoutId(items, id))
  {
    if items != [] {
      ValidTail(items);
      WithoutIdValid(items[1..], id);
      if items[0].book.id != id {
        ValidCons(items[0], WithoutId(items[1..], id));
      }
    }
  }

  /**
   The cart state of the application shell. `items` is replaced by each
   operation, exactly as the state setter replaces `cartItems`.
   */
  class CartStore {
    var items: seq<CartItem>

    /** The cart starts empty when the session starts. */
    constructor ()
      ensures items == [] && ValidCart(items) && TotalItems(items) == 0
    {
      items := [];
    }

    method AddToCart(book: Book)
      modifies this
      ensures items == AddBook(old(items), book)
      ensures ValidCart(old(items)) ==> ValidCart(items)
      ensures UniqueIds(old(items)) ==> TotalItems(items) == TotalItems(old(items)) + 1
    {
      if UniqueIds(items) {
        AddBookValid(items, book);
        AddBookTotal(items, book);
      }
      items := AddBook(items, book);
    }

    method UpdateQuantity(id: string, quantity: int)
      modifies this
      ensures items == SetQuantity(old(items), id, quantity)
      ensures ValidCart(old(items)) && quantity >= 1 ==> ValidCart(items)
    {
      if ValidCart(items) {
        SetQuantityValid(items, id, quantity);
      }
      items := SetQuantity(items, id, quantity);
    }

    method RemoveItem(id: string)
      modifies this
      ensures items == WithoutId(old(items), id)
      ensures ValidCart(old(items)) ==> ValidCart(items)
    {
      if ValidCart(items) {
        WithoutIdValid(items, id);
      }
      items := WithoutId(items, id);
    }

    method ClearCart()
      modifies this
      ensures items == [] && TotalItems(items) == 0
    {
      items := [];
    }
  }
}
