/**
 The landing page: the row of category buttons ("All" followed by every
 category of the catalog once, in the order the catalog first mentions it),
 the three featured books, and the grid filtered by the selected category.
 The selected category is component state that only chooses the input.
 */
module Landing {
  import opened Books
  import opened Seqs

  /** The sentinel category that selects the whole catalog. */
  const AllCategory: string := "All"

  /** `books.map(book => book.category)`. */
  function CategoryNames(books: seq<Book>): seq<string>
  {
    seq(|books|, i requires 0 <= i < |books| => books[i].category)
  }

  predicate Distinct(s: seq<string>)
  {
    forall i, j :: 0 <= i < j < |s| ==> s[i] != s[j]
  }

  /** Position of the first occurrence of `x` in `s`. */
  function FirstIndex(s: seq<string>, x: string): (k: nat)
    requires x in s
    ensures k < |s| && s[k] == x
    ensures forall j :: 0 <= j < k ==> s[j] != x
  {
    if s[0] == x then 0 else 1 + FirstIndex(s[1..], x)
  }

  /**
   `Array.from(new Set(s))`: each element once, kept where it was first seen.
   A set iterates in insertion order, so scanning from the left and keeping
   only unseen values gives the same sequence.
   */
  function Dedup(s: seq<string>): (r: seq<string>)
    ensures Distinct(r)
    ensures forall x :: x in r <==> x in s
  {
    if s == [] then []
    else
      var d := Dedup(s[..|s| - 1]);
      var last := s[|s| - 1];
      assert s == s[..|s| - 1] + [last];
      if last in d then d else d + [last]
  }

  lemma {:induction false} FirstIndexAppend(s: seq<string>, x: string, y: string)
    requires y in s
    ensures FirstIndex(s + [x], y) == FirstIndex(s, y)
  {
    if s[0] != y {
      assert (s + [x])[1..] == s[1..] + [x];
      FirstIndexAppend(s[1..], x, y);
    }
  }

  /** The distinct values come out in the order of their first occurrence. */
  lemma {:induction false} DedupFirstSeenOrder(s: seq<string>)
    ensures forall i, j :: 0 <= i < j < |Dedup(s)| ==>
      FirstIndex(s, Dedup(s)[i]) < FirstIndex(s, Dedup(s)[j])
  {
    if s != [] {
      var t, last := s[..|s| - 1], s[|s| - 1];
      assert s == t + [last];
      DedupFirstSeenOrder(t);
      var d := Dedup(t);
      forall y | y in d ensures FirstIndex(s, y) == FirstIndex(t, y) {
        FirstIndexAppend(t, last, y);
      }
      if last !in d {
        assert FirstIndex(s, last) == |t|;
      }
    }
  }

  /** `categories`: "All" first, then each category of the catalog once, in first-seen order. */
  function Categories(books: seq<Book>): (r: seq<string>)
    ensures |r| >= 1 && r[0] == AllCategory
  {
    [AllCategory] + Dedup(CategoryNames(books))
  }

  /**
   After "All" the entries are pairwise distinct, each is some book's
   category, every book's category is there, and they appear in the order
   the catalog first mentions them.
   */
  lemma CategoriesSpec(books: seq<Book>)
    ensures Distinct(Categories(books)[1..])
    ensures forall i :: 0 <= i < |books| ==> books[i].category in Categories(books)[1..]
    ensures forall c :: c in Categories(books)[1..] ==> exists i :: 0 <= i < |books| && books[i].category == c
    ensures forall i, j :: 1 <= i < j < |Categories(books)| ==>
      FirstIndex(CategoryNames(books), Categories(books)[i]) < FirstIndex(CategoryNames(books), Categories(books)[j])
  {
    var names := CategoryNames(books);
    var rest := Categories(books)[1..];
    assert rest == Dedup(names);
    DedupFirstSeenOrder(names);
    forall i | 0 <= i < |books| ensures books[i].category in rest {
      assert names[i] == books[i].category;
    }
    forall c | c in rest ensures exists i :: 0 <= i < |books| && books[i].category == c {
      var i := FirstIndex(names, c);
    }
    forall i, j | 1 <= i < j < |Categories(books)|
      ensures FirstIndex(names, Categories(books)[i]) < FirstIndex(names, Categories(books)[j])
    {
      assert Categories(books)[i] == rest[i - 1] && Categories(books)[j] == rest[j - 1];
    }
  }

  /** `featuredBooks`: the first three books of the catalog, or all of them if there are fewer. */
  function FeaturedBooks(books: seq<Book>): (r: seq<Book>)
    ensures r <= books
    ensures |r| == Min(3, |books|)
  {
    Take(books, 3)
  }

  /**
   `filteredBooks`: the whole catalog for "All"; otherwise the books of the
   selected category, in catalog order, none left out and no other let in.
   */
  function FilteredBooks(books: seq<Book>, selected: string): (r: seq<Book>)
    ensures selected == AllCategory ==> r == books
    ensures selected != AllCategory ==>
      && IsSubsequence(r, books)
      && (forall i :: 0 <= i < |r| ==> r[i].category == selected)
      && (forall i :: 0 <= i < |books| && books[i].category == selected ==> books[i] in r)
      && |r| == Count(books, (b: Book) => b.category == selected)
  {
    if selected == AllCategory then books
    else Filter(books, (b: Book) => b.category == selected)
  }

  /**
   For a category other than "All" the filtered grid is the only
   order-preserving selection of exactly the matching books.
   */
  lemma FilteredBooksUnique(books: seq<Book>, selected: string, r: seq<Book>)
    requires selected != AllCategory
    requires IsSubsequence(r, books)
    requires forall i :: 0 <= i < |r| ==> r[i].category == selected
    requires |r| == Count(books, (b: Book) => b.category == selected)
    ensures r == FilteredBooks(books, selected)
  {
    FilterUnique(r, books, (b: Book) => b.category == selected);
  }
}
