/**
 The cart page: the order summary derived from the line items (subtotal,
 shipping, discount, total), the promo-code field with its applied discount
 rate, and the −/+ buttons that send new quantities to the cart engine.

 Money is exact `real` arithmetic; rounding to cents happens only when the
 page displays a value, which is not modelled.
 */
module CartPage {
  import opened Books
  import opened CartEngine
  import opened Stepper

  /** Orders strictly above this subtotal ship for free. */
  const FreeShippingThreshold: real := 50.0
  /** The flat shipping fee below or at the threshold. */
  const ShippingFee: real := 5.99
  /** The rate granted by the welcome code. */
  const WelcomeRate: real := 0.1

  /** Sum of price × quantity over the line items. */
  function Subtotal(items: seq<CartItem>): real
  {
    if items == [] then 0.0
    else items[0].book.price * (items[0].quantity as real) + Subtotal(items[1..])
  }

  /** Shipping is free strictly above the threshold and the flat fee otherwise. */
  function Shipping(subtotal: real): (r: real)
    ensures r == 0.0 <==> subtotal > FreeShippingThreshold
    ensures r == 0.0 || r == ShippingFee
  {
    if subtotal > FreeShippingThreshold then 0.0 else ShippingFee
  }

  /**
   The amount taken off the subtotal by the applied discount rate: nothing
   without a rate, and never more than the subtotal for a rate in [0, 1].
   */
  function DiscountAmount(subtotal: real, rate: real): (r: real)
    ensures rate == 0.0 ==> r == 0.0
    ensures 0.0 <= subtotal && 0.0 <= rate <= 1.0 ==> 0.0 <= r <= subtotal
  {
    assert 0.0 <= subtotal && rate <= 1.0 ==> subtotal * rate <= subtotal * 1.0;
    subtotal * rate
  }

  /** The order total: subtotal plus shipping minus the discount amount. */
  function Total(items: seq<CartItem>, rate: real): real
  {
    var subtotal := Subtotal(items);
    subtotal + Shipping(subtotal) - DiscountAmount(subtotal, rate)
  }

  // ---------------------------------------------------------------------
  // Pricing facts

  lemma {:induction false} SubtotalAppend(a: seq<CartItem>, b: seq<CartItem>)
    ensures Subtotal(a + b) == Subtotal(a) + Subtotal(b)
  {
    if a == [] {
      assert a + b == b;
    } else {
      assert (a + b)[0] == a[0] && (a + b)[1..] == a[1..] + b;
      SubtotalAppend(a[1..], b);
    }
  }

  /** With non-negative prices and quantities the subtotal is non-negative; the empty cart's is 0. */
  lemma {:induction false} SubtotalNonNegative(items: seq<CartItem>)
    requires forall i :: 0 <= i < |items| ==> items[i].book.price >= 0.0 && items[i].quantity >= 0
    ensures Subtotal(items) >= 0.0
    ensures items == [] ==> Subtotal(items) == 0.0
  {
    if items != [] {
      SubtotalNonNegative(items[1..]);
    }
  }

  lemma {:induction false} SubtotalIncrement(items: seq<CartItem>, book: Book)
    requires forall i :: 0 <= i < |items| && items[i].book.id == book.id ==> items[i].book == book
    ensures Subtotal(Increment(items, book.id)) == Subtotal(items) + book.price * (CountId(items, book.id) as real)
  {
    if items != [] {
      SubtotalIncrement(items[1..], book);
      assert Increment(items, book.id)[1..] == Increment(items[1..], book.id);
      var c := if items[0].book.id == book.id then 1 else 0;
      assert CountId(items, book.id) == c + CountId(items[1..], book.id);
      assert book.price * (CountId(items, book.id) as real)
        == book.price * (c as real) + book.price * (CountId(items[1..], book.id) as real);
      if items[0].book.id == book.id {
        assert items[0].book.price * ((items[0].quantity + 1) as real)
          == items[0].book.price * (items[0].quantity as real) + book.price;
      }
    }
  }

  lemma SubtotalAddExisting(items: seq<CartItem>, book: Book)
    requires forall i :: 0 <= i < |items| && items[i].book.id == book.id ==> items[i].book == book
    requires HasId(items, book.id) && CountId(items, book.id) == 1
    ensures Subtotal(AddBook(items, book)) == Subtotal(items) + book.price
  {
    AddBookExisting(items, book);
    SubtotalIncrement(items, book);
  }

  lemma SubtotalAddNew(items: seq<CartItem>, book: Book)
    requires !HasId(items, book.id)
    ensures Subtotal(AddBook(items, book)) == Subtotal(items) + book.price
  {
    AddNew(items, book);
    SubtotalAppend(items, [CartItem(book, 1)]);
  }

  /**
   Adding a catalog book raises the subtotal by its price, when every line
   already carrying that id holds the same catalog record.
   */
  lemma SubtotalAddBook(items: seq<CartItem>, book: Book)
    requires UniqueIds(items)
    requires forall i :: 0 <= i < |items| && items[i].book.id == book.id ==> items[i].book == book
    ensures Subtotal(AddBook(items, book)) == Subtotal(items) + book.price
  {
    if HasId(items, book.id) {
      CountIdUnique(items, book.id);
      SubtotalAddExisting(items, book);
    } else {
      SubtotalAddNew(items, book);
    }
  }

  /** Without a discount the total is subtotal plus shipping; a subtotal of exactly 50 still pays shipping. */
  lemma TotalWithoutDiscount(items: seq<CartItem>)
    ensures Total(items, 0.0) == Subtotal(items) + Shipping(Subtotal(items))
    ensures Subtotal(items) == FreeShippingThreshold ==> Total(items, 0.0) == FreeShippingThreshold + ShippingFee
  {
  }

  /** With non-negative prices and quantities and a rate of at most 1, the total is never negative. */
  lemma TotalNonNegative(items: seq<CartItem>, rate: real)
    requires forall i :: 0 <= i < |items| ==> items[i].book.price >= 0.0 && items[i].quantity >= 0
    requires 0.0 <= rate <= 1.0
    ensures Total(items, rate) >= 0.0
  {
    SubtotalNonNegative(items);
    var s := Subtotal(items);
    assert s * rate <= s * 1.0;
  }

  /** One $10 book: subtotal 10, shipping 5.99, total 15.99. */
  lemma OneTenDollarBook(book: Book)
    requires book.price == 10.0
    ensures Subtotal([CartItem(book, 1)]) == 10.0
    ensures Shipping(10.0) == 5.99
    ensures Total([CartItem(book, 1)], 0.0) == 15.99
  {
  }

  /** Two $30 books: subtotal 60, free shipping, total 60. */
  lemma TwoThirtyDollarBooks(book: Book)
    requires book.price == 30.0
    ensures Subtotal([CartItem(book, 2)]) == 60.0
    ensures Shipping(60.0) == 0.0
    ensures Total([CartItem(book, 2)], 0.0) == 60.0
  {
  }

  // ---------------------------------------------------------------------
  // Promo codes

  /** ASCII lower-casing of one character. */
  function LowerChar(c: char): (r: char)
    ensures 'A' <= c <= 'Z' ==> r as int == c as int + 32
    ensures !('A' <= c <= 'Z') ==> r == c
    ensures !('A' <= r <= 'Z')
  {
    if 'A' <= c <= 'Z' then (c as int + 32) as char else c
  }

  /** ASCII `toLowerCase`. */
  function ToLower(s: string): (r: string)
    ensures |r| == |s|
    ensures forall i :: 0 <= i < |s| ==> r[i] == LowerChar(s[i])
    ensures forall i :: 0 <= i < |r| ==> !('A' <= r[i] <= 'Z')
  {
    seq(|s|, i requires 0 <= i < |s| => LowerChar(s[i]))
  }

  /** What pressing "Apply Promo Code" announces. */
  datatype PromoOutcome =
    | DiscountApplied     // the welcome code: 10% off
    | FreeShippingNotice  // the free-shipping code: a notice only
    | Rejected            // anything else

  /** The branch `handlePromoCode` takes for a code, compared case-insensitively. */
  function ClassifyPromo(code: string): PromoOutcome
  {
    var c := ToLower(code);
    if c == "welcome10" then DiscountApplied
    else if c == "freeship" then FreeShippingNotice
    else Rejected
  }

  /**
   The discount rate after applying `code` to a page whose rate was
   `discount`: the welcome rate, or the old rate kept for every other code.
   */
  function DiscountAfter(code: string, discount: real): (r: real)
    ensures r == WelcomeRate || r == discount
    ensures ClassifyPromo(code) != DiscountApplied ==> r == discount
  {
    if ClassifyPromo(code) == DiscountApplied then WelcomeRate else discount
  }

  /** The rate after applying the codes of `codes` one after the other. */
  function DiscountAfterAll(codes: seq<string>, discount: real): real
  {
    if codes == [] then discount else DiscountAfterAll(codes[1..], DiscountAfter(codes[0], discount))
  }

  /** Two characters that are the same ASCII letter in different cases. */
  predicate CaseVariants(x: char, y: char)
  {
    || ('A' <= x <= 'Z' && y as int == x as int + 32)
    || ('A' <= y <= 'Z' && x as int == y as int + 32)
  }

  /** `a` and `b` differ at most in the case of ASCII letters. */
  predicate SameUpToCase(a: string, b: string)
  {
    |a| == |b| && forall i :: 0 <= i < |a| ==> a[i] == b[i] || CaseVariants(a[i], b[i])
  }

  /** Codes that differ only in the case of ASCII letters lower-case alike and take the same branch. */
  lemma SameUpToCaseClassify(a: string, b: string)
    requires SameUpToCase(a, b)
    ensures ToLower(a) == ToLower(b)
    ensures ClassifyPromo(a) == ClassifyPromo(b)
  {
    forall i | 0 <= i < |a| ensures ToLower(a)[i] == ToLower(b)[i] {
      if a[i] != b[i] {
        assert CaseVariants(a[i], b[i]);
      }
    }
  }

  /**
   A code lower-cases to the lower-case word `w` exactly when it spells `w`
   with any mix of upper- and lower-case letters.
   */
  lemma {:induction false} LowerFormSpellings(code: string, w: string)
    requires ToLower(w) == w
    ensures ToLower(code) == w <==> SameUpToCase(code, w)
  {
    if ToLower(code) == w {
      forall i | 0 <= i < |code| ensures code[i] == w[i] || CaseVariants(code[i], w[i]) {
        assert LowerChar(code[i]) == w[i];
      }
    }
    if SameUpToCase(code, w) {
      forall i | 0 <= i < |code| ensures ToLower(code)[i] == w[i] {
        assert !('A' <= w[i] <= 'Z') by { assert ToLower(w)[i] == w[i]; }
        assert LowerChar(w[i]) == w[i];
      }
    }
  }

  /** Every spelling of "welcome10" in any letter case applies the discount, and nothing else does. */
  lemma WelcomeSpellings(code: string)
    ensures ClassifyPromo(code) == DiscountApplied <==> SameUpToCase(code, "welcome10")
  {
    assert ToLower("welcome10") == "welcome10";
    LowerFormSpellings(code, "welcome10");
  }

  /** Every spelling of "freeship" in any letter case gives the free-shipping notice, and nothing else does. */
  lemma FreeShipSpellings(code: string)
    ensures ClassifyPromo(code) == FreeShippingNotice <==> SameUpToCase(code, "freeship")
  {
    assert ToLower("freeship") == "freeship";
    assert "freeship" != "welcome10";
    LowerFormSpellings(code, "freeship");
  }

  /** Lower-casing twice is lower-casing once, so a code and its lower-case form classify alike. */
  lemma ToLowerIdempotent(code: string)
    ensures ToLower(ToLower(code)) == ToLower(code)
    ensures ClassifyPromo(ToLower(code)) == ClassifyPromo(code)
  {
    var once := ToLower(code);
    assert forall i :: 0 <= i < |once| ==> ToLower(once)[i] == once[i];
  }

  /**
   A code is the welcome code exactly when its lower-case form is
   "welcome10"; it then sets the rate to 0.1, and applying it again does not
   accumulate.
   */
  lemma WelcomeCode(code: string, discount: real)
    ensures ClassifyPromo(code) == DiscountApplied <==> ToLower(code) == "welcome10"
    ensures ToLower(code) == "welcome10" ==> DiscountAfter(code, discount) == WelcomeRate
    ensures DiscountAfter(code, DiscountAfter(code, discount)) == DiscountAfter(code, discount)
  {
  }

  /** Upper, mixed and lower case spellings of the known codes are recognised alike; "bogus" is not. */
  lemma PromoSpellings()
    ensures ClassifyPromo("WELCOME10") == DiscountApplied
    ensures ClassifyPromo("Welcome10") == DiscountApplied
    ensures ClassifyPromo("welcome10") == DiscountApplied
    ensures ClassifyPromo("FREESHIP") == FreeShippingNotice
    ensures ClassifyPromo("FreeShip") == FreeShippingNotice
    ensures ClassifyPromo("bogus") == Rejected
  {
    assert ToLower("WELCOME10") == "welcome10";
    assert ToLower("Welcome10") == "welcome10";
    assert ToLower("welcome10") == "welcome10";
    assert ToLower("FREESHIP") == "freeship";
    assert ToLower("FreeShip") == "freeship";
    assert ToLower("bogus")[0] == 'b';
  }

  /**
   The free-shipping code changes nothing: the rate stays, and so does the
   total, which still includes the fee whenever the subtotal is at most 50.
   */
  lemma FreeShipCodeChangesNothing(code: string, discount: real, items: seq<CartItem>)
    requires ToLower(code) == "freeship"
    ensures ClassifyPromo(code) == FreeShippingNotice
    ensures DiscountAfter(code, discount) == discount
    ensures Total(items, DiscountAfter(code, discount)) == Total(items, discount)
    ensures Subtotal(items) <= FreeShippingThreshold ==>
      Total(items, DiscountAfter(code, discount)) == Subtotal(items) + ShippingFee - Subtotal(items) * discount
  {
  }

  /** Any code other than the two known ones leaves the rate unchanged. */
  lemma OtherCodesRejected(code: string, discount: real)
    requires ToLower(code) != "welcome10" && ToLower(code) != "freeship"
    ensures ClassifyPromo(code) == Rejected
    ensures DiscountAfter(code, discount) == discount
  {
  }

  /** Starting from no discount, any sequence of codes leaves the rate at 0 or 0.1. */
  lemma {:induction false} DiscountIsZeroOrWelcome(codes: seq<string>, discount: real)
    requires discount == 0.0 || discount == WelcomeRate
    ensures DiscountAfterAll(codes, discount) == 0.0 || DiscountAfterAll(codes, discount) == WelcomeRate
  {
    if codes != [] {
      DiscountIsZeroOrWelcome(codes[1..], DiscountAfter(codes[0], discount));
    }
  }

  /** "WELCOME10" on a $100 cart takes $10 off; shipping is already free, so the total is $90. */
  lemma WelcomeOnHundred(items: seq<CartItem>)
    requires Subtotal(items) == 100.0
    ensures DiscountAmount(Subtotal(items), DiscountAfter("WELCOME10", 0.0)) == 10.0
    ensures Total(items, DiscountAfter("WELCOME10", 0.0)) == 90.0
  {
    PromoSpellings();
  }

  // ---------------------------------------------------------------------
  // Quantity buttons

  /**
   The −/+ buttons send `StepDown` and `StepUp` of a line's quantity; either
   way that line gets the new quantity, the others stay, and the cart
   invariant holds afterwards.
   */
  lemma StepButtonsKeepValid(items: seq<CartItem>, k: nat)
    requires ValidCart(items) && k < |items|
    ensures ValidCart(SetQuantity(items, items[k].book.id, StepDown(items[k].quantity)))
    ensures ValidCart(SetQuantity(items, items[k].book.id, StepUp(items[k].quantity)))
    ensures QuantityOf(SetQuantity(items, items[k].book.id, StepDown(items[k].quantity)), items[k].book.id)
      == StepDown(items[k].quantity)
    ensures QuantityOf(SetQuantity(items, items[k].book.id, StepUp(items[k].quantity)), items[k].book.id)
      == StepUp(items[k].quantity)
    ensures WithoutId(SetQuantity(items, items[k].book.id, StepDown(items[k].quantity)), items[k].book.id)
      == WithoutId(items, items[k].book.id)
    ensures WithoutId(SetQuantity(items, items[k].book.id, StepUp(items[k].quantity)), items[k].book.id)
      == WithoutId(items, items[k].book.id)
  {
    var id, q := items[k].book.id, items[k].quantity;
    assert HasId(items, id);
    SetQuantityValid(items, id, StepDown(q));
    SetQuantityValid(items, id, StepUp(q));
    SetQuantityFrame(items, id, StepDown(q));
    SetQuantityFrame(items, id, StepUp(q));
  }

  /** The page's own state: the text typed in the promo field and the applied discount rate. */
  class CartScreen {
    var promoCode: string
    var discount: real

    /** The discount is always none or the welcome rate. */
    predicate Valid()
      reads this
    {
      discount == 0.0 || discount == WelcomeRate
    }

    constructor ()
      ensures promoCode == "" && discount == 0.0 && Valid()
    {
      promoCode := "";
      discount := 0.0;
    }

    /** Typing in the promo field. */
    method SetPromoCode(text: string)
      modifies this
      ensures promoCode == text && discount == old(discount)
    {
      promoCode := text;
    }

    /** "Apply Promo Code": sets the rate for the welcome code and reports which branch was taken. */
    method HandlePromoCode() returns (outcome: PromoOutcome)
      modifies this
      ensures outcome == ClassifyPromo(promoCode)
      ensures promoCode == old(promoCode)
      ensures discount == DiscountAfter(promoCode, old(discount))
      ensures old(Valid()) ==> Valid()
    {
      var code := ToLower(promoCode);
      if code == "welcome10" {
        discount := WelcomeRate;
        outcome := DiscountApplied;
      } else if code == "freeship" {
        outcome := FreeShippingNotice;
      } else {
        outcome := Rejected;
      }
    }
  }
}
