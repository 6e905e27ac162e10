/**
 The static catalog the pages read, with facts about it computed from the
 definitions of the other modules.
 */
module Catalog {
  import opened Books
  import opened Landing
  import opened BookDetails
  import opened Seqs

  /** The six books of the store, in catalog order. */
  const CatalogBooks: seq<Book> := [
    Book(
      id := "1",
      title := "The Art of Programming",
      author := "Sarah Johnson",
      price := 29.99,
      originalPrice := Some(39.99),
      image := "https://images.unsplash.com/photo-1544947950-fa07a98d237f?auto=format&fit=crop&w=400&q=80",
      category := "Technology",
      rating := 4.8,
      description := "A comprehensive guide to mastering the art of programming, covering fundamental concepts and advanced techniques used by professional developers worldwide."),
    Book(
      id := "2",
      title := "Mystery of the Ancient Library",
      author := "Michael Chen",
      price := 24.99,
      originalPrice := None,
      image := "https://images.unsplash.com/photo-1481627834876-b7833e8f5570?auto=format&fit=crop&w=400&q=80",
      category := "Mystery",
      rating := 4.6,
      description := "An thrilling mystery novel that takes you through ancient libraries and hidden secrets. Follow the protagonist as they uncover centuries-old mysteries."),
    Book(
      id := "3",
      title := "Modern Web Development",
      author := "Emily Rodriguez",
      price := 34.99,
      originalPrice := Some(44.99),
      image := "https://images.unsplash.com/photo-1507003211169-0a1dd7228f2d?auto=format&fit=crop&w=400&q=80",
      category := "Technology",
      rating := 4.9,
      description := "Learn modern web development techniques including React, TypeScript, and advanced JavaScript concepts. Perfect for beginners and experienced developers alike."),
    Book(
      id := "4",
      title := "The Science of Learning",
      author := "Dr. Amanda White",
      price := 27.99,
      originalPrice := None,
      image := "https://images.unsplash.com/photo-1456513080510-7bf3a84b82f8?auto=format&fit=crop&w=400&q=80",
      category := "Education",
      rating := 4.7,
      description := "Discover how the brain learns and retains information. This book combines neuroscience research with practical learning strategies for students and educators."),
    Book(
      id := "5",
      title := "Cooking with Passion",
      author := "Chef Marco Italian",
      price := 32.99,
      originalPrice := None,
      image := "https://images.unsplash.com/photo-1466637574441-749b8f19452f?auto=format&fit=crop&w=400&q=80",
      category := "Cooking",
      rating := 4.5,
      description := "A culinary journey through Italian cuisine with over 150 traditional and modern recipes. Learn the secrets of authentic Italian cooking from a master chef."),
    Book(
      id := "6",
      title := "Digital Photography Mastery",
      author := "Lisa Parker",
      price := 28.99,
      originalPrice := Some(35.99),
      image := "https://images.unsplash.com/photo-1447752875215-b2761acb3c5d?auto=format&fit=crop&w=400&q=80",
      category := "Photography",
      rating := 4.8,
      description := "Master the art of digital photography with comprehensive tutorials on composition, lighting, post-processing, and equipment selection.")
  ]

  /** The catalog's ids "1" to "6" are pairwise distinct. */
  lemma CatalogIdsDistinct()
    ensures |CatalogBooks| == 6
    ensures forall i, j :: 0 <= i < j < |CatalogBooks| ==> CatalogBooks[i].id != CatalogBooks[j].id
  {
  }

  /** The catalog's categories in catalog order. */
  lemma CatalogCategoryNames()
    ensures CategoryNames(CatalogBooks) == ["Technology", "Mystery", "Technology", "Education", "Cooking", "Photography"]
  {
  }

  /** The category buttons of the landing page. */
  lemma CatalogCategories()
    ensures Categories(CatalogBooks) == ["All", "Technology", "Mystery", "Education", "Cooking", "Photography"]
  {
    CatalogCategoryNames();
    var t, m, e, c, ph := "Technology", "Mystery", "Education", "Cooking", "Photography";
    assert c[0] != m[0];
    DedupSix(t, m, e, c, ph);
  }

  lemma DedupThree(t: string, m: string)
    requires t != m
    ensures Dedup([t, m, t]) == [t, m]
  {
    DedupExtend([], [], t);
    assert [] + [t] == [t];
    DedupExtend([t], [t], m);
    assert [t] + [m] == [t, m];
    DedupKeep([t, m], [t, m], t);
    assert [t, m] + [t] == [t, m, t];
  }

  lemma DedupFour(t: string, m: string, e: string)
    requires t != m && e != t && e != m
    ensures Dedup([t, m, t, e]) == [t, m, e]
  {
    DedupThree(t, m);
    DedupExtend([t, m, t], [t, m], e);
    assert [t, m, t] + [e] == [t, m, t, e] && [t, m] + [e] == [t, m, e];
  }

  /** A repeat of the first value in third place is dropped; every other value is new. */
  lemma DedupSix(t: string, m: string, e: string, c: string, ph: string)
    requires t != m && e != t && e != m
    requires c != t && c != m && c != e
    requires ph != t && ph != m && ph != e && ph != c
    ensures Dedup([t, m, t, e, c, ph]) == [t, m, e, c, ph]
  {
    DedupFour(t, m, e);
    DedupExtend([t, m, t, e], [t, m, e], c);
    assert [t, m, t, e] + [c] == [t, m, t, e, c] && [t, m, e] + [c] == [t, m, e, c];
    DedupExtend([t, m, t, e, c], [t, m, e, c], ph);
    assert [t, m, t, e, c] + [ph] == [t, m, t, e, c, ph] && [t, m, e, c] + [ph] == [t, m, e, c, ph];
  }

  lemma DedupKeep(s: seq<string>, d: seq<string>, x: string)
    requires Dedup(s) == d && x in d
    ensures Dedup(s + [x]) == d
  {
    assert (s + [x])[..|s + [x]| - 1] == s;
  }

  lemma DedupExtend(s: seq<string>, d: seq<string>, x: string)
    requires Dedup(s) == d && x !in d
    ensures Dedup(s + [x]) == d + [x]
  {
    assert (s + [x])[..|s + [x]| - 1] == s;
  }

  /** The featured row is the first three books; "All" shows the whole catalog. */
  lemma CatalogFeatured()
    ensures FeaturedBooks(CatalogBooks) == CatalogBooks[..3]
    ensures FilteredBooks(CatalogBooks, "All") == CatalogBooks
  {
  }

  /** A filter that keeps exactly the first and the third of six books. */
  lemma FilterFirstAndThird(s: seq<Book>, p: Book -> bool)
    requires |s| == 6
    requires p(s[0]) && !p(s[1]) && p(s[2]) && !p(s[3]) && !p(s[4]) && !p(s[5])
    ensures Filter(s, p) == [s[0], s[2]]
  {
    FilterNone(s[3..], p);
    assert s[2..][1..] == s[3..];
    assert s[1..][1..] == s[2..];
  }

  /** A filter that keeps the third of six books, or none of them. */
  lemma FilterThirdAtMost(s: seq<Book>, p: Book -> bool)
    requires |s| == 6
    requires !p(s[0]) && !p(s[1]) && !p(s[3]) && !p(s[4]) && !p(s[5])
    ensures Filter(s, p) == if p(s[2]) then [s[2]] else []
  {
    FilterNone(s[3..], p);
    assert s[2..][1..] == s[3..];
    assert s[1..][1..] == s[2..];
  }

  lemma FilterNone(s: seq<Book>, p: Book -> bool)
    requires forall i :: 0 <= i < |s| ==> !p(s[i])
    ensures Filter(s, p) == []
  {
  }

  /** Selecting "Technology" shows the first and the third book. */
  lemma CatalogTechnology()
    ensures FilteredBooks(CatalogBooks, "Technology") == [CatalogBooks[0], CatalogBooks[2]]
  {
    CatalogCategoryNames();
    FilterFirstAndThird(CatalogBooks, (b: Book) => b.category == "Technology");
  }

  /** Lookup by id finds book "3". */
  lemma CatalogLookupFound()
    ensures FindBook(CatalogBooks, "3") == Some(CatalogBooks[2])
  {
    assert CatalogBooks[1..][1..] == CatalogBooks[2..];
    assert FindBook(CatalogBooks[2..], "3") == Some(CatalogBooks[2]);
    assert FindBook(CatalogBooks[1..], "3") == Some(CatalogBooks[2]);
  }

  /** Lookup by an id the catalog lacks takes the not-found branch. */
  lemma CatalogLookupMissing()
    ensures FindBook(CatalogBooks, "7") == None
  {
    assert forall i :: 0 <= i < |CatalogBooks| ==> CatalogBooks[i].id != "7";
  }

  /** The first book's only related book is the third. */
  lemma CatalogRelatedFirst()
    ensures RelatedBooks(CatalogBooks, CatalogBooks[0]) == [CatalogBooks[2]]
  {
    CatalogCategoryNames();
    var b0 := CatalogBooks[0];
    FilterThirdAtMost(CatalogBooks, (b: Book) => IsRelated(b0, b));
  }

  /** The second book is the only one of its category, so it has no related books. */
  lemma CatalogRelatedSecond()
    ensures RelatedBooks(CatalogBooks, CatalogBooks[1]) == []
  {
    CatalogCategoryNames();
    var b1 := CatalogBooks[1];
    FilterNone(CatalogBooks, (b: Book) => IsRelated(b1, b));
  }
}
