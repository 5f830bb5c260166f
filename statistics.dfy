/** The statistics screen (components/Statistics.tsx): the status pie chart's data. */
module Statistics {
  import opened Lists
  import opened Types

  /** One slice of the chart: the status label, its count, its colour. */
  datatype Slice = Slice(name: string, value: nat, color: string)

  function Color(s: BookStatus): string {
    match s
    case Reading => "#10B981"
    case ToRead => "#A78BFA"
    case Finished => "#3B82F6"
  }

  function SliceOf(books: seq<Book>, s: BookStatus): Slice {
    Slice(s.Label(), CountStatus(books, s), Color(s))
  }

  predicate NonEmptySlice(d: Slice) { d.value > 0 }

  /** `statusData`: the Reading, ToRead and Finished slices, in that order, without the empty ones. */
  function StatusData(books: seq<Book>): seq<Slice> {
    Filter(NonEmptySlice, [SliceOf(books, Reading), SliceOf(books, ToRead), SliceOf(books, Finished)])
  }

  function Total(s: seq<Slice>): nat {
    if s == [] then 0 else s[0].value + Total(s[1..])
  }

  /** Dropping the empty slices does not change the total. */
  lemma {:induction false} TotalWithoutEmpty(s: seq<Slice>)
    ensures Total(Filter(NonEmptySlice, s)) == Total(s)
  {
    if s != [] {
      TotalWithoutEmpty(s[1..]);
    }
  }

  /**
   * At most three slices, each positive, each carrying its status's fixed
   * label and colour, present exactly when that status has a book, in the
   * order Reading, ToRead, Finished; the values add up to the catalog size.
   */
  lemma StatusDataSpec(books: seq<Book>)
    ensures var r := StatusData(books);
      && |r| <= 3
      && (forall i :: 0 <= i < |r| ==> r[i].value > 0)
      && (forall i :: 0 <= i < |r| ==> exists s: BookStatus :: r[i] == Slice(s.Label(), CountStatus(books, s), Color(s)))
      && (forall s: BookStatus :: SliceOf(books, s) in r <==> CountStatus(books, s) > 0)
      && SubseqOf(r, [SliceOf(books, Reading), SliceOf(books, ToRead), SliceOf(books, Finished)])
      && Total(r) == |books|
  {
    var all := [SliceOf(books, Reading), SliceOf(books, ToRead), SliceOf(books, Finished)];
    var r := StatusData(books);
    FilterIsSubseq(NonEmptySlice, all);
    TotalWithoutEmpty(all);
    StatusCountsPartition(books);
    forall i | 0 <= i < |r|
      ensures exists s: BookStatus :: r[i] == Slice(s.Label(), CountStatus(books, s), Color(s))
    {
      assert r[i] in all;
    }
    assert Total(all[2..]) == CountStatus(books, Finished) by { assert all[2..][1..] == []; }
    assert all[1..][1..] == all[2..];
    assert Total(all) == CountStatus(books, Reading) + CountStatus(books, ToRead) + CountStatus(books, Finished);
  }
}
