/**
 * The home screen (components/Dashboard.tsx): derived views of the catalog.
 * Every value is recomputed from the book list; nothing here changes it.
 */
module Dashboard {
  import opened Wrappers
  import opened Builtins
  import opened Lists
  import opened Types
  import Library

  // ---------------------------------------------------------------- recent books

  /** One step of the stable sort by `b.addedDate - a.addedDate`: `x` goes before the first book not newer than it. */
  function InsertByDate(x: Book, s: seq<Book>): (r: seq<Book>)
    ensures |r| == |s| + 1
    ensures multiset(r) == multiset(s) + multiset{x}
  {
    if s == [] || s[0].addedDate <= x.addedDate then [x] + s
    else
      assert s == [s[0]] + s[1..];
      [s[0]] + InsertByDate(x, s[1..])
  }

  /** `[...books].sort((a, b) => b.addedDate - a.addedDate)`: a sorted copy, newest first. */
  function SortByDateDesc(s: seq<Book>): (r: seq<Book>)
    ensures |r| == |s|
    ensures multiset(r) == multiset(s)
  {
    if s == [] then []
    else
      assert s == [s[0]] + s[1..];
      InsertByDate(s[0], SortByDateDesc(s[1..]))
  }

  ghost predicate NewestFirst(s: seq<Book>) {
    forall i, j :: 0 <= i < j < |s| ==> s[i].addedDate >= s[j].addedDate
  }

  lemma {:induction false} InsertByDateSorted(x: Book, s: seq<Book>)
    requires NewestFirst(s)
    ensures NewestFirst(InsertByDate(x, s))
  {
    if s != [] && s[0].addedDate > x.addedDate {
      InsertByDateSorted(x, s[1..]);
      var t := InsertByDate(x, s[1..]);
      forall j | 0 <= j < |t| ensures s[0].addedDate >= t[j].addedDate {
        assert t[j] in multiset(t);
        if t[j] != x {
          assert t[j] in multiset(s[1..]);
          var k :| 0 <= k < |s[1..]| && s[1..][k] == t[j];
          assert s[k + 1] == t[j];
        }
      }
      assert InsertByDate(x, s) == [s[0]] + t;
    }
  }

  lemma {:induction false} SortByDateDescSorted(s: seq<Book>)
    ensures NewestFirst(SortByDateDesc(s))
  {
    if s != [] {
      SortByDateDescSorted(s[1..]);
      InsertByDateSorted(s[0], SortByDateDesc(s[1..]));
    }
  }

  /** `recentBooks`: the first three of the sorted copy. */
  function RecentBooks(books: seq<Book>): seq<Book> {
    Take(SortByDateDesc(books), 3)
  }

  /**
   * At most three books, all drawn from the catalog, newest first, and no
   * book left out is newer than any book shown.
   */
  lemma RecentBooksSpec(books: seq<Book>)
    ensures var r := RecentBooks(books);
      && |r| == Min(3, |books|)
      && multiset(r) <= multiset(books)
      && NewestFirst(r)
      && forall b, x :: b in multiset(books) - multiset(r) && x in r ==> b.addedDate <= x.addedDate
  {
    var t := SortByDateDesc(books);
    var r := RecentBooks(books);
    var k := |r|;
    SortByDateDescSorted(books);
    assert r == t[..k];
    SplitMultiset(t, k);
    NewestFirstSplit(t, k);
  }

  lemma SplitMultiset(t: seq<Book>, k: nat)
    requires k <= |t|
    ensures multiset(t) - multiset(t[..k]) == multiset(t[k..])
    ensures multiset(t[..k]) <= multiset(t)
  {
    assert t == t[..k] + t[k..];
    assert multiset(t) == multiset(t[..k]) + multiset(t[k..]);
  }

  /** In a newest-first list, everything after position k is no newer than anything before it. */
  lemma NewestFirstSplit(t: seq<Book>, k: nat)
    requires NewestFirst(t) && k <= |t|
    ensures NewestFirst(t[..k])
    ensures forall b, x :: b in multiset(t[k..]) && x in t[..k] ==> b.addedDate <= x.addedDate
  {
    forall b, x | b in multiset(t[k..]) && x in t[..k]
      ensures b.addedDate <= x.addedDate
    {
      var j :| 0 <= j < |t[k..]| && t[k..][j] == b;
      var i :| 0 <= i < k && t[..k][i] == x;
      assert t[i] == x && t[k + j] == b;
    }
  }

  // ---------------------------------------------------------------- favourites and counts

  predicate IsFavorite(b: Book) { b.isFavorite == Some(true) }

  /** `favoriteBooks`. */
  function FavoriteBooks(books: seq<Book>): seq<Book> {
    Filter(IsFavorite, books)
  }

  /** Exactly the books flagged favourite, in their original order. */
  lemma FavoriteBooksSpec(books: seq<Book>)
    ensures SubseqOf(FavoriteBooks(books), books)
    ensures forall b :: b in FavoriteBooks(books) <==> b in books && b.isFavorite == Some(true)
    ensures forall b :: multiset(FavoriteBooks(books))[b] == if IsFavorite(b) then multiset(books)[b] else 0
  {
    FilterIsSubseq(IsFavorite, books);
    FilterCounts(IsFavorite, books);
  }

  /** The three status counters. */
  function ReadingCount(books: seq<Book>): nat { CountStatus(books, Reading) }
  function FinishedCount(books: seq<Book>): nat { CountStatus(books, Finished) }
  function ToReadCount(books: seq<Book>): nat { CountStatus(books, ToRead) }

  /** The three counters add up to the size of the catalog. */
  lemma CountersAddUp(books: seq<Book>)
    ensures ReadingCount(books) + FinishedCount(books) + ToReadCount(books) == |books|
  {
    StatusCountsPartition(books);
  }

  // ---------------------------------------------------------------- search suggestions

  predicate SearchHit(b: Book, searchQuery: string) {
    Library.MatchesQuery(b, Lower(searchQuery))
  }

  /** `searchResults`: nothing for a blank query, otherwise the first five matching books. */
  function SearchResults(books: seq<Book>, searchQuery: string): seq<Book> {
    if IsBlank(searchQuery) then []
    else Take(Filter((b: Book) => SearchHit(b, searchQuery), books), 5)
  }

  /**
   * A blank query suggests nothing; any other query suggests the matching
   * books in catalog order, the first `min(5, matches)` of them.
   */
  lemma SearchResultsSpec(books: seq<Book>, searchQuery: string)
    ensures IsBlank(searchQuery) ==> SearchResults(books, searchQuery) == []
    ensures !IsBlank(searchQuery) ==>
      var matches := Filter((b: Book) => SearchHit(b, searchQuery), books);
      var r := SearchResults(books, searchQuery);
      && r <= matches && |r| == Min(5, |matches|)
      && SubseqOf(r, books)
      && forall i :: 0 <= i < |r| ==> r[i] in books && Library.MatchesQuery(r[i], Lower(searchQuery))
  {
    if !IsBlank(searchQuery) {
      var p := (b: Book) => SearchHit(b, searchQuery);
      var matches := Filter(p, books);
      var r := SearchResults(books, searchQuery);
      FilterIsSubseq(p, books);
      PrefixOfSubseq(r, matches, books);
      forall i | 0 <= i < |r| ensures r[i] in books && Library.MatchesQuery(r[i], Lower(searchQuery)) {
        assert r[i] == matches[i];
      }
    }
  }

  /** A prefix of a subsequence is a subsequence. */
  lemma {:induction false} PrefixOfSubseq(r: seq<Book>, m: seq<Book>, s: seq<Book>)
    requires r <= m && SubseqOf(m, s)
    ensures SubseqOf(r, s)
    decreases |s|
  {
    if r != [] && s != [] {
      if m[0] == s[0] {
        PrefixOfSubseq(r[1..], m[1..], s[1..]);
      } else {
        PrefixOfSubseq(r, m, s[1..]);
      }
    }
  }

  // ---------------------------------------------------------------- progress

  /** `calculateProgress(current, total)`: 0 for a zero total, otherwise the capped rounded percentage. */
  function Progress(current: int, total: int): int {
    if total == 0 then 0 else Min(100, RoundDiv(100 * current, total))
  }

  /** The figure shown on a favourite card: absent page counts are 0. */
  function BookProgress(b: Book): int {
    Progress(b.currentPage.GetOr(0), b.totalPages.GetOr(0))
  }

  /** A card's figure is never above 100, is 0 when the total is absent, and is the rounded percentage of the present counts in range. */
  lemma BookProgressSpec(b: Book)
    ensures BookProgress(b) <= 100
    ensures b.totalPages.None? ==> BookProgress(b) == 0
    ensures b.totalPages.Some? && b.totalPages.value > 0 && b.currentPage.Some? && 0 <= b.currentPage.value <= b.totalPages.value ==>
      0 <= BookProgress(b) == RoundDiv(100 * b.currentPage.value, b.totalPages.value)
  {
    ProgressSpec(b.currentPage.GetOr(0), b.totalPages.GetOr(0));
  }

  /** Never above 100; 0 for a zero total; within 0..100 and unclamped when `0 <= current <= total`. */
  lemma ProgressSpec(current: int, total: int)
    ensures Progress(current, total) <= 100
    ensures total == 0 ==> Progress(current, total) == 0
    ensures total > 0 && 0 <= current <= total ==>
      0 <= Progress(current, total) == RoundDiv(100 * current, total)
  {
    if total > 0 && 0 <= current <= total {
      RoundDivAtMost(100 * current, total, 100);
      RoundDivNonNegative(100 * current, total);
    }
  }

  /**
   * The two progress figures agree for every non-zero total, and differ at a
   * zero total as soon as a page has been read: the library counts the
   * total as one page, the dashboard shows 0.
   */
  lemma ProgressDivergesAtZeroTotal(current: int, total: int)
    ensures total != 0 ==> Progress(current, total) == Library.EditProgress(current, total)
    ensures total == 0 && current > 0 ==> Progress(current, total) == 0 && Library.EditProgress(current, total) > 0
  {
    Library.EditProgressSpec(current, total);
  }
}
