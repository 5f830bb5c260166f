/** The records shared by every screen: reading status, a book, what the cover analysis returns. */
module Types {
  import opened Wrappers

  /** The three reading states; each carries the label shown to the user. */
  datatype BookStatus = ToRead | Reading | Finished {
    function Label(): (s: string)
      ensures s != ""
    {
      match this
      case ToRead => "Muốn đọc"
      case Reading => "Đang đọc"
      case Finished => "Đã đọc"
    }
  }

  /** Different statuses have different labels, so a label names exactly one status. */
  lemma LabelInjective(a: BookStatus, b: BookStatus)
    ensures a.Label() == b.Label() <==> a == b
  {
  }

  /**
   * One catalog entry. The six leading fields are always present; the last
   * five may be absent, and nothing relates `currentPage` to `totalPages`.
   * `addedDate` is a clock reading in milliseconds.
   */
  datatype Book = Book(
    id: string,
    title: string,
    author: string,
    coverUrl: string,
    status: BookStatus,
    addedDate: int,
    notes: Option<string>,
    genre: Option<string>,
    currentPage: Option<int>,
    totalPages: Option<int>,
    isFavorite: Option<bool>)

  /** What `addBook` is given: a book without its `id` and `addedDate`. */
  datatype BookDraft = BookDraft(
    title: string,
    author: string,
    coverUrl: string,
    status: BookStatus,
    notes: Option<string>,
    genre: Option<string>,
    currentPage: Option<int>,
    totalPages: Option<int>,
    isFavorite: Option<bool>)

  /** What `updateBook` is given: any subset of a book's fields. */
  datatype BookPatch = BookPatch(
    id: Option<string>,
    title: Option<string>,
    author: Option<string>,
    coverUrl: Option<string>,
    status: Option<BookStatus>,
    addedDate: Option<int>,
    notes: Option<string>,
    genre: Option<string>,
    currentPage: Option<int>,
    totalPages: Option<int>,
    isFavorite: Option<bool>)

  const NoChanges := BookPatch(None, None, None, None, None, None, None, None, None, None, None)

  /** The cover analysis result; every field may be absent. */
  datatype ScannedData = ScannedData(
    title: Option<string>,
    author: Option<string>,
    description: Option<string>,
    coverUrl: Option<string>,
    genre: Option<string>)

  /** `x || ''` on an optional string: absent and empty both give the empty string. */
  function TextOr(o: Option<string>, default: string): (r: string)
    ensures o.Some? && o.value != "" ==> r == o.value
    ensures (o.None? || o.value == "") ==> r == default
  {
    if o.Some? && o.value != "" then o.value else default
  }

  /** `book.status === status` for each book, counted. */
  function CountStatus(books: seq<Book>, status: BookStatus): (n: nat)
    ensures n <= |books|
  {
    if books == [] then 0
    else (if books[0].status == status then 1 else 0) + CountStatus(books[1..], status)
  }

  /** Every book has exactly one of the three statuses, so the three counts add up to the whole list. */
  lemma {:induction false} StatusCountsPartition(books: seq<Book>)
    ensures CountStatus(books, Reading) + CountStatus(books, Finished) + CountStatus(books, ToRead) == |books|
  {
    if books != [] {
      StatusCountsPartition(books[1..]);
    }
  }
}
