/**
 * The library browser (components/Library.tsx): the status and text filters,
 * the reading-progress figure of the edit modal, and the modal flows that
 * call the store's mutators.
 */
module Library {
  import opened Wrappers
  import opened Builtins
  import opened Lists
  import opened Types
  import opened App

  /** The status tabs: every book, or one status. */
  datatype StatusFilter = All | Only(status: BookStatus)

  /**
   * The text search shared by the library and the dashboard: the already
   * lowered query occurs in the lowered title, author or (non-empty) genre.
   */
  predicate MatchesQuery(b: Book, loweredQuery: string) {
    || Contains(Lower(b.title), loweredQuery)
    || Contains(Lower(b.author), loweredQuery)
    || (b.genre.Some? && b.genre.value != "" && Contains(Lower(b.genre.value), loweredQuery))
  }

  predicate Shown(b: Book, filter: StatusFilter, searchQuery: string) {
    (filter.All? || b.status == filter.status) && MatchesQuery(b, Lower(searchQuery))
  }

  /** `filteredBooks`. */
  function FilteredBooks(books: seq<Book>, filter: StatusFilter, searchQuery: string): seq<Book> {
    Filter((b: Book) => Shown(b, filter, searchQuery), books)
  }

  /**
   * The shown books are a subsequence of the catalog, and a book is shown iff
   * its status passes the tab and the query occurs in its title, author or genre.
   */
  lemma FilteredBooksSpec(books: seq<Book>, filter: StatusFilter, searchQuery: string)
    ensures SubseqOf(FilteredBooks(books, filter, searchQuery), books)
    ensures forall b :: b in FilteredBooks(books, filter, searchQuery) <==>
      b in books && (filter.All? || b.status == filter.status) && MatchesQuery(b, Lower(searchQuery))
    ensures forall b ::
      multiset(FilteredBooks(books, filter, searchQuery))[b] == if Shown(b, filter, searchQuery) then multiset(books)[b] else 0
  {
    FilterIsSubseq((b: Book) => Shown(b, filter, searchQuery), books);
    FilterCounts((b: Book) => Shown(b, filter, searchQuery), books);
  }

  /** The 'All' tab with an empty query shows every book. */
  lemma AllWithEmptyQueryShowsEverything(books: seq<Book>)
    ensures FilteredBooks(books, All, "") == books
  {
    forall b | b in books ensures Shown(b, All, "") {
      ContainsEmpty(Lower(b.title));
    }
    FilterAll((b: Book) => Shown(b, All, ""), books);
  }

  /**
   * `calculateProgress` of the edit modal: a total of 0 is replaced by 1
   * (`Number(x) || 1`), so the guard for 0 that follows never fires.
   */
  function EditProgress(current: int, total: int): int {
    var t := if total == 0 then 1 else total;
    if t == 0 then 0 else Min(100, RoundDiv(100 * current, t))
  }

  /**
   * The figure never exceeds 100; with a positive total it is the rounded
   * percentage, and for `0 <= current <= total` it lies in 0..100 unclamped;
   * a zero total counts as one page.
   */
  lemma EditProgressSpec(current: int, total: int)
    ensures EditProgress(current, total) <= 100
    ensures total > 0 && 0 <= current <= total ==>
      0 <= EditProgress(current, total) == RoundDiv(100 * current, total)
    ensures total == 0 ==> EditProgress(current, total) == Min(100, 100 * current)
  {
    if total > 0 && 0 <= current <= total {
      RoundDivAtMost(100 * current, total, 100);
      RoundDivNonNegative(100 * current, total);
    }
    RoundDivExact(100 * current, 1);
  }

  /** The patch `handleSaveChanges` sends: exactly the five editable fields. */
  function EditPatch(status: BookStatus, current: int, total: int, notes: string, favorite: bool): BookPatch {
    NoChanges.(status := Some(status), currentPage := Some(current), totalPages := Some(total),
               notes := Some(notes), isFavorite := Some(favorite))
  }

  /** Saving the modal replaces the five editable fields and nothing else. */
  lemma EditPatchTouchesOnlyEditFields(b: Book, status: BookStatus, current: int, total: int, notes: string, favorite: bool)
    ensures Merge(b, EditPatch(status, current, total, notes, favorite))
      == b.(status := status, currentPage := Some(current), totalPages := Some(total),
            notes := Some(notes), isFavorite := Some(favorite))
  {
  }

  /** `!book.isFavorite`: an absent flag counts as false. */
  function FavoritePatch(b: Book): BookPatch {
    NoChanges.(isFavorite := Some(b.isFavorite != Some(true)))
  }

  /** Toggling flips the flag (absent becomes true) and leaves every other field alone. */
  lemma FavoritePatchFlips(b: Book)
    ensures Merge(b, FavoritePatch(b)) == b.(isFavorite := Some(b.isFavorite != Some(true)))
    ensures b.isFavorite.None? ==> Merge(b, FavoritePatch(b)).isFavorite == Some(true)
    ensures Merge(Merge(b, FavoritePatch(b)), FavoritePatch(Merge(b, FavoritePatch(b)))).isFavorite
      == Some(b.isFavorite == Some(true))
  {
  }

  /** The pending confirmation of a delete. */
  datatype PendingDelete = PendingDelete(id: string, title: string)

  /** The screen's state cells (filter tab, query, the two modals and the edit fields). */
  class LibraryScreen {
    var filter: StatusFilter
    var searchQuery: string
    var bookToDelete: Option<PendingDelete>
    var selectedBook: Option<Book>
    var editStatus: BookStatus
    var editCurrentPage: int
    var editTotalPages: int
    var editNotes: string
    var editIsFavorite: bool

    /** The first render; the query comes from the navigation state's `initialSearch`. */
    constructor (initialSearch: Option<string>)
      ensures filter == All && searchQuery == TextOr(initialSearch, "")
      ensures bookToDelete == None && selectedBook == None
      ensures editStatus == ToRead && editCurrentPage == 0 && editTotalPages == 0
      ensures editNotes == "" && !editIsFavorite
    {
      filter, searchQuery := All, TextOr(initialSearch, "");
      bookToDelete, selectedBook := None, None;
      editStatus, editCurrentPage, editTotalPages, editNotes, editIsFavorite := ToRead, 0, 0, "", false;
    }

    /** The progress figure shown in the edit modal. */
    function Progress(): int
      reads this
    {
      EditProgress(editCurrentPage, editTotalPages)
    }

    /** Opening a book, followed by the effect that syncs the edit fields (defaults 0, 0, '' and false). */
    method OpenBook(b: Book)
      modifies this
      ensures selectedBook == Some(b) && editStatus == b.status
      ensures editCurrentPage == b.currentPage.GetOr(0) && editTotalPages == b.totalPages.GetOr(0)
      ensures editNotes == b.notes.GetOr("") && editIsFavorite == (b.isFavorite == Some(true))
      ensures filter == old(filter) && searchQuery == old(searchQuery) && bookToDelete == old(bookToDelete)
      ensures Progress() == EditProgress(b.currentPage.GetOr(0), b.totalPages.GetOr(0)) && Progress() <= 100
    {
      selectedBook := Some(b);
      editStatus := b.status;
      editCurrentPage := b.currentPage.GetOr(0);
      editTotalPages := b.totalPages.GetOr(0);
      editNotes := b.notes.GetOr("");
      editIsFavorite := b.isFavorite == Some(true);
      EditProgressSpec(editCurrentPage, editTotalPages);
    }

    /** The modal's inputs; page numbers are taken as already parsed integers. */
    method Edit(status: BookStatus, current: int, total: int, notes: string, favorite: bool)
      modifies this`editStatus, this`editCurrentPage, this`editTotalPages, this`editNotes, this`editIsFavorite
      ensures editStatus == status && editCurrentPage == current && editTotalPages == total
      ensures editNotes == notes && editIsFavorite == favorite
    {
      editStatus, editCurrentPage, editTotalPages, editNotes, editIsFavorite := status, current, total, notes, favorite;
    }

    /** Closing the details modal. */
    method CloseDetails()
      modifies this`selectedBook
      ensures selectedBook == None
    {
      selectedBook := None;
    }

    /** `handleDeleteClick`: ask for confirmation. */
    method RequestDelete(id: string, title: string)
      modifies this`bookToDelete
      ensures bookToDelete == Some(PendingDelete(id, title))
    {
      bookToDelete := Some(PendingDelete(id, title));
    }

    /** The cancel button of the confirmation. */
    method CancelDelete()
      modifies this`bookToDelete
      ensures bookToDelete == None
    {
      bookToDelete := None;
    }

    /**
     * `confirmDelete`: delete the pending id, clear the confirmation, and close
     * the details modal iff it shows the same id. Without a pending delete nothing happens.
     */
    method ConfirmDelete(store: LibraryStore)
      modifies this`bookToDelete, this`selectedBook, store
      ensures old(bookToDelete).None? ==>
        store.books == old(store.books) && bookToDelete == None && selectedBook == old(selectedBook)
      ensures old(bookToDelete).Some? ==>
        var id := old(bookToDelete).value.id;
        && store.books == Deleted(old(store.books), id)
        && (forall i :: 0 <= i < |store.books| ==> store.books[i].id != id)
        && bookToDelete == None
        && selectedBook == if old(selectedBook).Some? && old(selectedBook).value.id == id then None else old(selectedBook)
    {
      if bookToDelete.Some? {
        var id := bookToDelete.value.id;
        store.DeleteBook(id);
        DeleteSpec(old(store.books), id);
        bookToDelete := None;
        if selectedBook.Some? && selectedBook.value.id == id {
          selectedBook := None;
        }
      }
    }

    /** `handleSaveChanges`: write the five edit fields to the selected id, then close the modal. */
    method SaveChanges(store: LibraryStore)
      modifies this`selectedBook, store
      ensures old(selectedBook).None? ==> store.books == old(store.books) && selectedBook == None
      ensures old(selectedBook).Some? ==>
        && store.books == Updated(old(store.books), old(selectedBook).value.id,
             EditPatch(editStatus, editCurrentPage, editTotalPages, editNotes, editIsFavorite))
        && selectedBook == None
    {
      if selectedBook.Some? {
        store.UpdateBook(selectedBook.value.id,
          EditPatch(editStatus, editCurrentPage, editTotalPages, editNotes, editIsFavorite));
        selectedBook := None;
      }
    }

    /** `handleToggleFavorite` on a rendered book. */
    method ToggleFavorite(store: LibraryStore, b: Book)
      modifies store
      ensures store.books == Updated(old(store.books), b.id, FavoritePatch(b))
    {
      store.UpdateBook(b.id, FavoritePatch(b));
    }
  }
}
