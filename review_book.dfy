/**
 * The review screen (components/ReviewBook.tsx): the editable form pre-filled
 * from the analysis, the genre suggestions drawn from the catalog, and the
 * commit that adds the book to the store.
 */
module ReviewBook {
  import opened Wrappers
  import opened Builtins
  import opened Lists
  import opened Types
  import opened App
  import Scanner

  /** The label stored when the genre is left empty. */
  const DefaultGenre: string := "Chung"

  /** `genre || 'Chung'`: the stored genre is never empty, and a non-empty input is kept as typed. */
  function CommitGenre(input: string): (r: string)
    ensures r != ""
    ensures input != "" ==> r == input
    ensures input == "" ==> r == DefaultGenre
  {
    if input == "" then DefaultGenre else input
  }

  /** The distinct non-empty genres of the books. */
  ghost function GenreSet(books: seq<Book>): set<string> {
    set b | b in books && b.genre.Some? && b.genre.value != "" :: b.genre.value
  }

  /**
   * `existingGenres`: gather the non-empty genres into a `Set` (which keeps
   * first-insertion order), then sort. The result is exactly the distinct
   * non-empty genres, ascending, without duplicates.
   */
  method ExistingGenres(books: seq<Book>) returns (gs: seq<string>)
    ensures StrictlySorted(gs) && Distinct(gs)
    ensures forall g :: g in gs <==> g in GenreSet(books)
  {
    var genres: seq<string> := [];
    var i := 0;
    while i < |books|
      invariant 0 <= i <= |books|
      invariant Distinct(genres)
      invariant forall g :: g in genres <==> g in GenreSet(books[..i])
    {
      var b := books[i];
      assert books[..i + 1] == books[..i] + [b];
      if b.genre.Some? && b.genre.value != "" && b.genre.value !in genres {
        genres := genres + [b.genre.value];
      }
      i := i + 1;
    }
    assert books[..i] == books;
    gs := SortStrings(genres);
    SortStringsSorted(genres);
    StrictlySortedPairwise(gs);
  }

  /** `filteredGenres`: the suggestions whose lowered form includes the lowered input. */
  function FilteredGenres(existing: seq<string>, input: string): seq<string> {
    Filter((g: string) => Contains(Lower(g), Lower(input)), existing)
  }

  /**
   * The suggestions are the entries of `existing`, in their order, that match
   * the input case-insensitively; sorted suggestions stay sorted.
   */
  lemma FilteredGenresSpec(existing: seq<string>, input: string)
    ensures SubseqOf(FilteredGenres(existing, input), existing)
    ensures forall g :: g in FilteredGenres(existing, input) <==> g in existing && Contains(Lower(g), Lower(input))
    ensures StrictlySorted(existing) ==> StrictlySorted(FilteredGenres(existing, input))
  {
    var p := (g: string) => Contains(Lower(g), Lower(input));
    FilterIsSubseq(p, existing);
    if StrictlySorted(existing) {
      FilterKeepsSorted(p, existing);
    }
  }

  lemma {:induction false} FilterKeepsSorted(p: string -> bool, s: seq<string>)
    requires StrictlySorted(s)
    ensures StrictlySorted(Filter(p, s))
  {
    if s != [] {
      StrictlySortedPairwise(s);
      assert StrictlySorted(s[1..]) by {
        forall i | 0 <= i && i + 1 < |s[1..]| ensures StrLess(s[1..][i], s[1..][i + 1]) {
          assert s[1..][i] == s[i + 1] && s[1..][i + 1] == s[i + 2];
        }
      }
      FilterKeepsSorted(p, s[1..]);
      var rest := Filter(p, s[1..]);
      if p(s[0]) && rest != [] {
        var j :| 0 <= j < |s[1..]| && s[1..][j] == rest[0];
        assert StrLess(s[0], s[j + 1]);
      }
    }
  }

  /** An empty genre input suggests every existing genre. */
  lemma EmptyInputSuggestsAll(existing: seq<string>)
    ensures FilteredGenres(existing, "") == existing
  {
    var p := (g: string) => Contains(Lower(g), Lower(""));
    forall g | g in existing ensures p(g) {
      ContainsEmpty(Lower(g));
    }
    FilterAll(p, existing);
  }

  /** The form's state cells, pre-filled from the analysis handed over by the capture screen. */
  class ReviewForm {
    const image: string
    var title: string
    var author: string
    var genre: string
    var status: BookStatus
    var notes: string

    /** Title, author and genre from the analysis, notes from its description, `''` when absent; status ToRead. */
    constructor (image: string, analysis: Option<ScannedData>)
      ensures this.image == image && status == ToRead
      ensures analysis.None? ==> title == "" && author == "" && genre == "" && notes == ""
      ensures analysis.Some? ==>
        && title == TextOr(analysis.value.title, "")
        && author == TextOr(analysis.value.author, "")
        && genre == TextOr(analysis.value.genre, "")
        && notes == TextOr(analysis.value.description, "")
    {
      this.image := image;
      status := ToRead;
      if analysis.Some? {
        title := TextOr(analysis.value.title, "");
        author := TextOr(analysis.value.author, "");
        genre := TextOr(analysis.value.genre, "");
        notes := TextOr(analysis.value.description, "");
      } else {
        title, author, genre, notes := "", "", "", "";
      }
    }

    /** The `onChange` handlers of the form's inputs and status buttons. */
    method Edit(title: string, author: string, genre: string, status: BookStatus, notes: string)
      modifies this
      ensures this.title == title && this.author == author && this.genre == genre
      ensures this.status == status && this.notes == notes
    {
      this.title, this.author, this.genre, this.status, this.notes := title, author, genre, status, notes;
    }

    /** Choosing a suggestion sets the genre to exactly that suggestion. */
    method SelectSuggestion(g: string)
      modifies this`genre
      ensures genre == g
    {
      genre := g;
    }

    /** What `handleSave` passes to `addBook`. */
    function Draft(): BookDraft
      reads this
    {
      BookDraft(title, author, image, status, Some(notes), Some(CommitGenre(genre)), None, None, None)
    }

    /**
     * `handleSave`: the store gains one book in front, with the edited title,
     * author, status and notes, the captured image as cover, and the committed genre.
     */
    method Save(store: LibraryStore, idClock: nat, dateClock: int)
      modifies store
      ensures store.books == Added(old(store.books), Draft(), idClock, dateClock)
      ensures |store.books| == |old(store.books)| + 1 && store.books[1..] == old(store.books)
      ensures var b := store.books[0];
        && b.title == title && b.author == author && b.coverUrl == image && b.status == status
        && b.notes == Some(notes) && b.genre == Some(CommitGenre(genre))
        && b.id == DecimalString(idClock) && b.addedDate == dateClock
    {
      store.AddBook(Draft(), idClock, dateClock);
      AddedShape(old(store.books), Draft(), idClock, dateClock);
    }
  }

  /**
   * Without a service key, a successful capture opens the review form
   * pre-filled with the placeholder's title, author, genre and description.
   */
  method NoKeyCaptureReview(frame: Scanner.VideoFrame, encode: (nat, nat) -> string, service: Scanner.Analysis)
    returns (form: ReviewForm)
    requires frame.readyState >= 2 && frame.videoWidth > 0 && frame.videoHeight > 0
    requires |encode(Scanner.Fit(frame.videoWidth, frame.videoHeight).value.width,
                     Scanner.Fit(frame.videoWidth, frame.videoHeight).value.height)| > 100
    ensures form.title == "Tiêu đề sách" && form.author == "Tác giả" && form.genre == "Tiểu thuyết"
    ensures form.notes == Scanner.PlaceholderDescription && form.status == ToRead
    ensures form.image == encode(Scanner.Fit(frame.videoWidth, frame.videoHeight).value.width,
                                 Scanner.Fit(frame.videoWidth, frame.videoHeight).value.height)
  {
    var session := Scanner.NoKeyCaptureHandsOffPlaceholder(frame, encode, service);
    form := new ReviewForm(session.handoff.value.image, Some(session.handoff.value.analysis));
  }
}
