/**
 * The catalog of record (App.tsx): a list of books replaced by three pure
 * transforms (prepend, merge by id, filter by id), and the loader that picks
 * the saved snapshot or the seed list.
 */
module App {
  import opened Wrappers
  import opened Builtins
  import opened Lists
  import opened Types

  // ---------------------------------------------------------------- seed list and loader

  const CoverDacNhanTam: string := "https://scontent.fdad3-5.fna.fbcdn.net/v/t39.30808-6/588713874_25395006386800233_4559458665274093338_n.jpg?_nc_cat=106&ccb=1-7&_nc_sid=127cfc&_nc_ohc=rUIz2R3vE0EQ7kNvwFmfGub&_nc_oc=AdmQOWjP4uAbpjfSt4O09-qi1MGHGRG8BO1VPgTLmr4jp3sKSamEQjdBh2SuKU4YCnI&_nc_zt=23&_nc_ht=scontent.fdad3-5.fna&_nc_gid=CLCG4-ZX6xSF65Qnpokj1w&oh=00_Afh-NfKUxN7h22_vX4aeoP82G_GL935BDpHPRl-W4zV43Q&oe=6927C23C"
  const CoverModernSpaces: string := "https://images.unsplash.com/photo-1544947950-fa07a98d237f?auto=format&fit=crop&q=80&w=300&h=450"
  const CoverAtomicHabits: string := "https://images.unsplash.com/photo-1589829085413-56de8ae18c73?auto=format&fit=crop&q=80&w=300&h=450"
  const NotesDacNhanTam: string := "Nghệ thuật thu phục lòng người. Cuốn sách hay nhất mọi thời đại đưa bạn đến thành công."
  const NotesModernSpaces: string := "Nguồn cảm hứng tuyệt vời cho thiết kế nội thất."
  const GenreSelfHelp: string := "Phát triển bản thân"
  const GenreDesign: string := "Thiết kế"

  /**
   * The three seed books. Their dates are offsets from `now`, which stands for
   * all three clock readings taken when the seed list is built.
   */
  function SeedBooks(now: int): seq<Book> {
    [ Book("1", "Đắc Nhân Tâm", "Dale Carnegie", CoverDacNhanTam, Reading, now - 100000000,
        Some(NotesDacNhanTam), Some(GenreSelfHelp), Some(45), Some(320), Some(true)),
      Book("2", "Modern Spaces", "Francisco Spencer", CoverModernSpaces, Finished, now - 500000000,
        Some(NotesModernSpaces), Some(GenreDesign), Some(320), Some(320), Some(false)),
      Book("3", "Atomic Habits", "James Clear", CoverAtomicHabits, ToRead, now,
        None, Some(GenreSelfHelp), Some(0), Some(300), Some(false)) ]
  }

  /**
   * What browser storage holds under the catalog key: nothing, or a text
   * together with the outcome of parsing it as JSON (`None` when parsing
   * throws). A text that parses to something other than a list of books does
   * not throw at load time but fails at the first use of the list; the model
   * counts it with the throwing texts.
   */
  datatype Stored = NothingSaved | Saved(text: string, parsed: Option<seq<Book>>)

  datatype LoadError = MalformedSnapshot

  /**
   * The initial list: the seed list when nothing is saved or the saved text is
   * empty (an empty string is falsy), otherwise the parsed snapshot; a text
   * that does not parse makes the loader throw.
   */
  function InitialBooks(stored: Stored, now: int): Result<seq<Book>, LoadError> {
    match stored
    case NothingSaved => Success(SeedBooks(now))
    case Saved(text, parsed) =>
      if text == "" then Success(SeedBooks(now))
      else if parsed.Some? then Success(parsed.value)
      else Failure(MalformedSnapshot)
  }

  /** The three outcomes of loading, each with its exact condition. */
  lemma InitialBooksCases(stored: Stored, now: int)
    ensures InitialBooks(stored, now) == Success(SeedBooks(now))
        <== stored.NothingSaved? || stored.text == ""
    ensures stored.Saved? && stored.text != "" && stored.parsed.Some?
        ==> InitialBooks(stored, now) == Success(stored.parsed.value)
    ensures InitialBooks(stored, now).Failure?
        <==> stored.Saved? && stored.text != "" && stored.parsed.None?
  {
  }

  // ---------------------------------------------------------------- addBook

  /** The record `addBook` builds: the draft's fields, the id from the first clock reading, the date from the second. */
  function NewBook(d: BookDraft, idClock: nat, dateClock: int): Book {
    Book(DecimalString(idClock), d.title, d.author, d.coverUrl, d.status, dateClock,
         d.notes, d.genre, d.currentPage, d.totalPages, d.isFavorite)
  }

  /** `prev => [newBook, ...prev]`. */
  function Added(prev: seq<Book>, d: BookDraft, idClock: nat, dateClock: int): seq<Book> {
    [NewBook(d, idClock, dateClock)] + prev
  }

  /** The list grows by one at the front; the old books keep their values and order; the new one has every supplied field. */
  lemma AddedShape(prev: seq<Book>, d: BookDraft, idClock: nat, dateClock: int)
    ensures var r := Added(prev, d, idClock, dateClock);
      && |r| == |prev| + 1 && r[1..] == prev
      && r[0].id == DecimalString(idClock) && r[0].addedDate == dateClock
      && r[0].title == d.title && r[0].author == d.author && r[0].coverUrl == d.coverUrl
      && r[0].status == d.status && r[0].notes == d.notes && r[0].genre == d.genre
      && r[0].currentPage == d.currentPage && r[0].totalPages == d.totalPages
      && r[0].isFavorite == d.isFavorite
  {
    assert Added(prev, d, idClock, dateClock)[1..] == prev;
  }

  /** No two books share an id. The code never checks this. */
  ghost predicate UniqueIds(books: seq<Book>) {
    forall i, j :: 0 <= i < j < |books| ==> books[i].id != books[j].id
  }

  /** Every id is the decimal string of a clock reading earlier than `t`. */
  ghost predicate IssuedBefore(books: seq<Book>, t: nat) {
    forall i :: 0 <= i < |books| ==> exists k: nat :: k < t && books[i].id == DecimalString(k)
  }

  /** Adding keeps ids unique exactly when the new id is not already in use. */
  lemma AddKeepsUniqueIds(prev: seq<Book>, d: BookDraft, idClock: nat, dateClock: int)
    requires UniqueIds(prev)
    ensures UniqueIds(Added(prev, d, idClock, dateClock))
        <==> forall i :: 0 <= i < |prev| ==> prev[i].id != DecimalString(idClock)
  {
    var r := Added(prev, d, idClock, dateClock);
    if !UniqueIds(r) {
      var i, j :| 0 <= i < j < |r| && r[i].id == r[j].id;
      assert i == 0 && prev[j - 1].id == DecimalString(idClock);
    } else {
      forall i | 0 <= i < |prev| ensures prev[i].id != DecimalString(idClock) {
        assert r[0].id != r[i + 1].id;
      }
    }
  }

  /** A clock reading later than every reading used for an id gives an id nobody has. */
  lemma ClockIdFresh(books: seq<Book>, t: nat)
    requires IssuedBefore(books, t)
    ensures forall i :: 0 <= i < |books| ==> books[i].id != DecimalString(t)
  {
    forall i | 0 <= i < |books|
      ensures books[i].id != DecimalString(t)
    {
      var k: nat :| k < t && books[i].id == DecimalString(k);
      if books[i].id == DecimalString(t) {
        DecimalStringInjective(k, t);
      }
    }
  }

  /**
   * With ids issued from earlier clock readings, adding at a later reading
   * keeps ids unique and keeps every id issued before the next reading.
   */
  lemma AddAtLaterClock(prev: seq<Book>, d: BookDraft, idClock: nat, dateClock: int)
    requires UniqueIds(prev) && IssuedBefore(prev, idClock)
    ensures UniqueIds(Added(prev, d, idClock, dateClock))
    ensures IssuedBefore(Added(prev, d, idClock, dateClock), idClock + 1)
  {
    ClockIdFresh(prev, idClock);
    AddKeepsUniqueIds(prev, d, idClock, dateClock);
    var r := Added(prev, d, idClock, dateClock);
    forall i | 0 <= i < |r|
      ensures exists k: nat :: k < idClock + 1 && r[i].id == DecimalString(k)
    {
      if i == 0 {
        assert r[0].id == DecimalString(idClock);
      } else {
        assert r[i] == prev[i - 1];
      }
    }
  }

  /** Two adds within the same millisecond give two books with the same id. */
  lemma SameMillisecondCollides(prev: seq<Book>, d1: BookDraft, d2: BookDraft, t: nat, a1: int, a2: int)
    ensures !UniqueIds(Added(Added(prev, d1, t, a1), d2, t, a2))
  {
    var r := Added(Added(prev, d1, t, a1), d2, t, a2);
    assert r[0].id == r[1].id;
  }

  /** The seed ids are "1", "2" and "3": unique, and issued before clock reading 4. */
  lemma SeedIdsIssued(now: int)
    ensures UniqueIds(SeedBooks(now)) && IssuedBefore(SeedBooks(now), 4)
  {
    var s := SeedBooks(now);
    assert s[0].id == DecimalString(1) && s[1].id == DecimalString(2) && s[2].id == DecimalString(3);
  }

  // ---------------------------------------------------------------- updateBook

  /** `{ ...book, ...updates }`: every field present in the patch replaces the book's. */
  function Merge(b: Book, p: BookPatch): Book {
    Book(p.id.GetOr(b.id), p.title.GetOr(b.title), p.author.GetOr(b.author),
         p.coverUrl.GetOr(b.coverUrl), p.status.GetOr(b.status), p.addedDate.GetOr(b.addedDate),
         p.notes.Or(b.notes), p.genre.Or(b.genre), p.currentPage.Or(b.currentPage),
         p.totalPages.Or(b.totalPages), p.isFavorite.Or(b.isFavorite))
  }

  /** An empty patch changes nothing, and applying a patch twice is applying it once. */
  lemma MergeLaws(b: Book, p: BookPatch)
    ensures Merge(b, NoChanges) == b
    ensures Merge(Merge(b, p), p) == Merge(b, p)
  {
  }

  /** `prev => prev.map(book => book.id === id ? { ...book, ...updates } : book)`. */
  function Updated(prev: seq<Book>, id: string, p: BookPatch): (r: seq<Book>)
    ensures |r| == |prev|
  {
    if prev == [] then []
    else [if prev[0].id == id then Merge(prev[0], p) else prev[0]] + Updated(prev[1..], id, p)
  }

  /** Position by position, a book with the id gets the patch overlaid and every other book is untouched. */
  lemma {:induction false} UpdatedAt(prev: seq<Book>, id: string, p: BookPatch, i: nat)
    requires i < |prev|
    ensures Updated(prev, id, p)[i] == if prev[i].id == id then Merge(prev[i], p) else prev[i]
  {
    if i > 0 { UpdatedAt(prev[1..], id, p, i - 1); }
  }

  /** An id that no book has leaves the list as it was. */
  lemma {:induction false} UpdateUnknownIdIsNoop(prev: seq<Book>, id: string, p: BookPatch)
    requires forall i :: 0 <= i < |prev| ==> prev[i].id != id
    ensures Updated(prev, id, p) == prev
  {
    if prev != [] {
      UpdateUnknownIdIsNoop(prev[1..], id, p);
    }
  }

  /** Updating twice with a patch that keeps the id is updating once. */
  lemma {:induction false} UpdateIdempotent(prev: seq<Book>, id: string, p: BookPatch)
    requires p.id.None? || p.id == Some(id)
    ensures Updated(Updated(prev, id, p), id, p) == Updated(prev, id, p)
  {
    if prev != [] {
      UpdateIdempotent(prev[1..], id, p);
      MergeLaws(prev[0], p);
    }
  }

  /** A patch without an id keeps every id where it was, so uniqueness and issue order are kept. */
  lemma UpdateKeepsIds(prev: seq<Book>, id: string, p: BookPatch, t: nat)
    requires p.id.None?
    ensures forall i :: 0 <= i < |prev| ==> Updated(prev, id, p)[i].id == prev[i].id
    ensures UniqueIds(prev) ==> UniqueIds(Updated(prev, id, p))
    ensures IssuedBefore(prev, t) ==> IssuedBefore(Updated(prev, id, p), t)
  {
    forall i | 0 <= i < |prev|
      ensures Updated(prev, id, p)[i].id == prev[i].id
    {
      UpdatedAt(prev, id, p, i);
    }
  }

  // ---------------------------------------------------------------- deleteBook

  /** `prev => prev.filter(book => book.id !== id)`. */
  function Deleted(prev: seq<Book>, id: string): seq<Book> {
    Filter((b: Book) => b.id != id, prev)
  }

  /**
   * Afterwards no book has the id, every other book is still there with all
   * its copies, and the survivors are in their original order.
   */
  lemma DeleteSpec(prev: seq<Book>, id: string)
    ensures forall i :: 0 <= i < |Deleted(prev, id)| ==> Deleted(prev, id)[i].id != id
    ensures forall i :: 0 <= i < |prev| && prev[i].id != id ==> prev[i] in Deleted(prev, id)
    ensures SubseqOf(Deleted(prev, id), prev)
    ensures forall b :: multiset(Deleted(prev, id))[b] == if b.id != id then multiset(prev)[b] else 0
  {
    FilterIsSubseq((b: Book) => b.id != id, prev);
    FilterCounts((b: Book) => b.id != id, prev);
  }

  /** Deleting twice is deleting once; deleting an id nobody has changes nothing. */
  lemma DeleteIdempotentAndNoop(prev: seq<Book>, id: string)
    ensures Deleted(Deleted(prev, id), id) == Deleted(prev, id)
    ensures (forall i :: 0 <= i < |prev| ==> prev[i].id != id) ==> Deleted(prev, id) == prev
  {
    FilterIdempotent((b: Book) => b.id != id, prev);
    if forall i :: 0 <= i < |prev| ==> prev[i].id != id {
      FilterAll((b: Book) => b.id != id, prev);
    }
  }

  /** Deleting keeps ids unique and issued before the same clock reading. */
  lemma {:induction false} DeleteKeepsIds(prev: seq<Book>, id: string, t: nat)
    ensures UniqueIds(prev) ==> UniqueIds(Deleted(prev, id))
    ensures IssuedBefore(prev, t) ==> IssuedBefore(Deleted(prev, id), t)
  {
    var r := Deleted(prev, id);
    if prev != [] {
      DeleteKeepsIds(prev[1..], id, t);
      if UniqueIds(prev) {
        assert UniqueIds(prev[1..]);
        var rest := Deleted(prev[1..], id);
        forall k | 0 <= k < |rest| ensures rest[k].id != prev[0].id {
          var j :| 0 <= j < |prev[1..]| && prev[1..][j] == rest[k];
          assert prev[j + 1] == rest[k];
        }
      }
    }
    if IssuedBefore(prev, t) {
      forall i | 0 <= i < |r| ensures exists k: nat :: k < t && r[i].id == DecimalString(k) {
        var j :| 0 <= j < |prev| && prev[j] == r[i];
      }
    }
  }

  // ---------------------------------------------------------------- the store

  /** The `books` state cell and the three mutators that replace it. */
  class LibraryStore {
    var books: seq<Book>

    /** The state initialiser; it exists only when loading did not throw. */
    constructor Load(stored: Stored, now: int)
      requires InitialBooks(stored, now).Success?
      ensures books == InitialBooks(stored, now).value
    {
      books := InitialBooks(stored, now).value;
    }

    /** `addBook`: `idClock` and `dateClock` are the two separate `Date.now()` readings. */
    method AddBook(d: BookDraft, idClock: nat, dateClock: int)
      modifies this
      ensures books == Added(old(books), d, idClock, dateClock)
    {
      books := [NewBook(d, idClock, dateClock)] + books;
    }

    /** `updateBook`. */
    method UpdateBook(id: string, p: BookPatch)
      modifies this
      ensures books == Updated(old(books), id, p)
    {
      books := Updated(books, id, p);
    }

    /** `deleteBook`. */
    method DeleteBook(id: string)
      modifies this
      ensures books == Deleted(old(books), id)
    {
      books := Deleted(books, id);
    }
  }
}
