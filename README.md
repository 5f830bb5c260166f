# ShelfScan book tracker, modelled in Dafny

ShelfScan is a small React client for tracking books. The user photographs a
cover or uploads an image. The app shrinks it to at most 800 pixels on its
longer side and sends it to a cover-analysis service. The user then reviews
the suggested title, author, genre and notes, and the book goes into a local
catalog. The other screens are the library browser (status tabs, search, an
edit modal, favourites, delete), the dashboard (recent books, favourites,
counters, search suggestions) and a statistics pie chart.

This project models the logic of those screens, one Dafny module per source
file:

- `Types` (types.ts): `BookStatus` with its display labels, `Book`, the
  `addBook` draft (`Omit<Book, 'id' | 'addedDate'>`), the `updateBook` patch
  (`Partial<Book>`), and `ScannedData`. Optional fields are `Option`s.
- `App` (App.tsx): the catalog of record. It has the three pure list
  transforms (`Added`, `Updated`, `Deleted`), the loader and the seed list.
  The class `LibraryStore` holds `books: seq<Book>`. Its methods replace the
  list, and each is specified by its transform. The two `Date.now()` readings
  of `addBook` are separate parameters.
- `Scanner` (components/Scanner.tsx): the dimension rule of
  `getResizedImage` (`Fit`) and the class `CaptureSession`. The class holds
  the component's `isProcessing`, `cameraError`, `stream` and `isFlashOn`
  cells, the hidden canvas size, and the outside effects: the hand-off to the
  review screen, the alerts shown, the camera streams still running, and the
  torch. The camera, the canvas encoder and the analysis call are inputs.
- `ReviewBook` (components/ReviewBook.tsx): the form class `ReviewForm`, the
  `existingGenres` loop (`ExistingGenres`), the case-insensitive suggestion
  filter and the commit.
- `Library` (components/Library.tsx): the status and text filters, the
  edit modal's progress figure, and the class `LibraryScreen` with the
  delete-confirm, save-changes, favourite-toggle and field-sync flows.
- `Dashboard` (components/Dashboard.tsx) and `Statistics`
  (components/Statistics.tsx): derived views as pure functions.
- Helper modules: `Wrappers` (`Option`, `Result`), `Lists` (`filter`,
  `slice`, and the subsequence relation), and `Builtins`. `Builtins` states
  the JavaScript built-ins the components rely on: `toLowerCase`, `includes`,
  `trim`, the default string order of `sort`, `Math.round` of a ratio and
  `Number.prototype.toString`.

Rounding is exact. `Math.round(n / d)` is written as `(2n + d) / (2d)` for
`d > 0`, which is floor division, and mirrored for `d < 0`. The JavaScript
code computes the ratio in floating point first, so the two can differ at
exact halfway points.

In these places the code does less than its user interface or its comments
suggest, and the model follows the code:
- A saved snapshot that does not parse makes the loader throw. There is no
  fallback to the seed list in that case. An empty saved string, which is
  falsy, does give the seed list.
- Only the shutter button is disabled while processing or while a camera
  error is shown (`PressShutter`). The file-upload handler has no
  `isProcessing` guard, so the model does not add one.
- The capture path rejects encoded images of 100 characters or fewer. The
  upload path only rejects the empty string.
- The upload path has no `FileReader` error handler. A file that never loads
  leaves `isProcessing` set.

## Model

| member | source | states |
|---|---|---|
| `Types.LabelInjective` | types.ts:1-5 | The three statuses carry three different labels, so a label names exactly one status |
| `Types.StatusCountsPartition` | components/Dashboard.tsx:16-18 | Every book has exactly one status, so the three per-status counts add up to the number of books |
| `App.InitialBooksCases` | App.tsx:44-47 | Nothing saved, or an empty saved text, gives the seed list. A text that parses gives the parsed list. Loading fails exactly when a non-empty text does not parse |
| `App.SeedIdsIssued` | constants.ts:3-42 | The seed ids "1", "2", "3" are unique and are the decimal strings of clock readings below 4 |
| `App.AddedShape` | App.tsx:53-60 | `addBook` grows the list by one at the front. The old books keep their values and order. The new book has every draft field, the id is the decimal string of the first clock reading, and `addedDate` is the second reading |
| `App.AddKeepsUniqueIds` | App.tsx:56 | With unique ids before, ids stay unique after adding if and only if the new clock string is not already an id |
| `App.ClockIdFresh` | App.tsx:56 | When every id comes from an earlier clock reading, the id from a later reading is used by no book |
| `App.AddAtLaterClock` | App.tsx:53-60 | Adding at a later clock reading keeps ids unique and keeps every id issued before the next reading |
| `App.SameMillisecondCollides` | App.tsx:56 | Two adds with the same id clock reading produce a duplicate id. The code does not check |
| `App.MergeLaws` | App.tsx:63 | The spread merge with an empty patch is the identity, and merging the same patch twice is merging once |
| `App.UpdatedAt` | App.tsx:62-64 | `updateBook` keeps the length and the order. At each position, a book with the id gets the patch overlaid and any other book is unchanged |
| `App.UpdateUnknownIdIsNoop` | App.tsx:63 | Updating an id that no book has leaves the list unchanged |
| `App.UpdateIdempotent` | App.tsx:62-64 | Repeating an update whose patch keeps the id changes nothing more |
| `App.UpdateKeepsIds` | App.tsx:62-64 | A patch without an id keeps every id in place, so uniqueness and issue order are preserved |
| `App.DeleteSpec` | App.tsx:66-68 | After `deleteBook` no book has the id, every other book is still present with as many copies as before, and the result is a subsequence of the old list |
| `App.DeleteIdempotentAndNoop` | App.tsx:66-68 | Deleting twice is deleting once, and deleting an unknown id changes nothing |
| `App.DeleteKeepsIds` | App.tsx:66-68 | Deleting preserves id uniqueness and issue order |
| `App.LibraryStore.Load` | App.tsx:44-47 | The store starts with the loaded list whenever loading does not throw |
| `App.LibraryStore.AddBook` | App.tsx:53-60 | The new list is the prepend transform of the old one |
| `App.LibraryStore.UpdateBook` | App.tsx:62-64 | The new list is the merge-by-id transform of the old one |
| `App.LibraryStore.DeleteBook` | App.tsx:66-68 | The new list is the filter-by-id transform of the old one |
| `Builtins.RoundDiv` | components/Scanner.tsx:80 | The result r is the integer nearest to n/d with halves rounded up: r - 1/2 <= n/d < r + 1/2, for either sign of d |
| `Builtins.RoundDivAtMost` | components/Library.tsx:94 | Rounding a ratio of at most k gives at most k |
| `Builtins.DecimalStringInjective` | App.tsx:56 | Different clock readings give different id strings |
| `Builtins.ContainsEmpty` | components/ReviewBook.tsx:31 | Every string includes the empty string |
| `Builtins.ContainsAt` | components/Library.tsx:42 | A block of the text that equals the needle is found by `includes` |
| `Builtins.ContainsFound` | components/Library.tsx:42 | Conversely, whenever `includes` is true, the needle sits as a block at some position of the text |
| `Builtins.StrLessTotal` | components/ReviewBook.tsx:26 | Any two different strings are ordered by the default sort comparison |
| `Builtins.StrLessTransitive` | components/ReviewBook.tsx:26 | The default string order is transitive |
| `Builtins.SortStringsSorted` | components/ReviewBook.tsx:26 | Sorting distinct strings gives a strictly ascending list |
| `Builtins.StrictlySortedPairwise` | components/ReviewBook.tsx:26 | Ascending adjacent pairs give ascending order between any two positions, hence no duplicates |
| `Lists.FilterIsSubseq` | components/Library.tsx:38-47 | What `filter` returns is a subsequence of its input, in the original order |
| `Lists.FilterCounts` | components/Library.tsx:38-47 | `filter` keeps every copy of an element that passes and no copy of one that fails |
| `Scanner.FitRejectsEmpty` | components/Scanner.tsx:75 | A source is rejected, giving the empty string, exactly when its width or height is 0 |
| `Scanner.FitBounds` | components/Scanner.tsx:61-88 | Output sides never exceed the input sides and never exceed 800, so nothing is upscaled |
| `Scanner.FitCapsLongerSide` | components/Scanner.tsx:78-88 | A source with a side over 800 comes out with its longer side exactly 800 and the same orientation. A square counts as portrait |
| `Scanner.FitKeepsSmall` | components/Scanner.tsx:78-88 | A source with both sides at most 800 passes through unchanged |
| `Scanner.FitKeepsAspect` | components/Scanner.tsx:78-88 | The aspect ratio is kept up to rounding: twice the cross-product difference is at most the longer input side |
| `Scanner.FitIdempotent` | components/Scanner.tsx:78-88 | Normalising an output with no zero side again changes nothing |
| `Scanner.FitLandscapeExample` | components/Scanner.tsx:78-82 | A 1600×1200 frame is drawn at 800×600 |
| `Scanner.FitThinExample` | components/Scanner.tsx:78-82 | A 2000×1 source rounds its short side to 0 (800×0) |
| `Scanner.AnalyzeCover` | services/geminiService.ts:12-26 | Without a key the call always succeeds with title "Tiêu đề sách", author "Tác giả", genre "Tiểu thuyết", the mock description and no cover, and the service is not consulted. With a key the service's outcome passes through, failures included |
| `Scanner.NoKeyCaptureHandsOffPlaceholder` | services/geminiService.ts:14-26 | Without a key, a capture of a ready frame whose encoding is long enough hands the placeholder analysis and the encoded frame to the review screen, whatever the service would have said |
| `ReviewBook.NoKeyCaptureReview` | components/ReviewBook.tsx:13-17 | Without a key, the review form opened after such a capture starts with title "Tiêu đề sách", author "Tác giả", genre "Tiểu thuyết", the mock description as notes, status ToRead and the captured image |
| `Scanner.CaptureSession.constructor` | components/Scanner.tsx:11-14 | The first render: flash off, not processing, no stream, no camera error |
| `Scanner.CaptureSession.StartCamera` | components/Scanner.tsx:16-43 | The error is cleared first. On success the stream is held and running. On failure the non-empty error message is shown and the stream cell is unchanged |
| `Scanner.CaptureSession.StopCameraSeeing` | components/Scanner.tsx:45-50 | `stopCamera` stops the tracks of the stream it sees and clears the cell. It does nothing when it sees none |
| `Scanner.CaptureSession.UnmountAsWritten` | components/Scanner.tsx:52-55 | The mount effect's cleanup sees the first render's null stream, so it leaves the stream held and running |
| `Scanner.CaptureSession.Unmount` | components/Scanner.tsx:45-55 | The intended cleanup releases the held stream and clears the cell |
| `Scanner.StaleCleanupKeepsCamera` | components/Scanner.tsx:52-55 | After a successful start and the cleanup as written, the camera stream is still running |
| `Scanner.CleanupReleasesCamera` | components/Scanner.tsx:45-55 | After a successful start and the intended cleanup, no stream is running |
| `Scanner.CaptureSession.GetResizedImage` | components/Scanner.tsx:57-104 | The canvas takes the size given by the dimension rule. The result is the encoding of that size, or `''` for a zero side or a missing 2D context |
| `Scanner.CaptureSession.ProcessImage` | components/Scanner.tsx:165-179 | The image goes through the analysis call. On success the hand-off carries exactly the image and that analysis. On failure processing ends and the analysis notice is shown |
| `Scanner.CaptureSession.HandleCapture` | components/Scanner.tsx:106-130 | No video, `readyState < 2` or `videoWidth == 0` is a silent no-op. Otherwise an encoding of 100 characters or fewer fails with the capture notice. Every failure after processing has started ends it, with its notice. Success hands off the encoded frame and leaves processing on. Whenever the frame is ready, the canvas takes the size given by the dimension rule |
| `Scanner.CaptureSession.PressShutter` | components/Scanner.tsx:273-276 | A press while processing or while a camera error is shown does nothing. Otherwise it runs the capture. A successful capture leaves the button disabled. A failed one re-enables it and adds exactly one notice, the capture notice or the analysis notice |
| `Scanner.DoublePressKeepsFirstCapture` | components/Scanner.tsx:275 | Two presses in a row on a ready frame: the first succeeds and disables the button, so the hand-off keeps the first analysis whatever the second would have given |
| `Scanner.CaptureSession.HandleFileUpload` | components/Scanner.tsx:132-163 | No file does nothing. A file that never loads leaves processing on. A decode error or an empty resize ends processing with its notice. Otherwise the image is analysed. Only a decoded image resizes the canvas, to the size given by the dimension rule |
| `Scanner.CaptureSession.ToggleFlash` | components/Scanner.tsx:181-192 | The indicator flips. The torch is set to the new state only when a stream is held and its track supports and applies it |
| `ReviewBook.CommitGenre` | components/ReviewBook.tsx:42 | The stored genre is 'Chung' for an empty input and the input unchanged otherwise, so it is never empty |
| `ReviewBook.ExistingGenres` | components/ReviewBook.tsx:21-27 | The result holds exactly the distinct non-empty genres of the books, sorted strictly ascending, with no duplicates |
| `ReviewBook.FilteredGenresSpec` | components/ReviewBook.tsx:29-33 | The suggestions are the subsequence of the existing genres whose lowered form includes the lowered input, and they stay sorted |
| `ReviewBook.EmptyInputSuggestsAll` | components/ReviewBook.tsx:29-33 | An empty genre input suggests every existing genre |
| `ReviewBook.ReviewForm.constructor` | components/ReviewBook.tsx:13-17 | Title, author and genre come from the analysis and notes from its description, each `''` when absent. Status starts as ToRead |
| `ReviewBook.ReviewForm.Edit` | components/ReviewBook.tsx:79-106 | The input handlers set the form fields to the values typed |
| `ReviewBook.ReviewForm.SelectSuggestion` | components/ReviewBook.tsx:124-126 | Choosing a suggestion sets the genre to exactly that suggestion |
| `ReviewBook.ReviewForm.Save` | components/ReviewBook.tsx:35-43 | The store gains one book in front with the edited title, author, status and notes, the captured image as cover and the committed genre. The rest of the list is unchanged |
| `Library.FilteredBooksSpec` | components/Library.tsx:38-47 | The shown books are a subsequence of the catalog. A book is shown iff its status passes the tab and the lowered query occurs in its lowered title, author or non-empty genre. A shown book appears as many times as in the catalog |
| `Library.AllWithEmptyQueryShowsEverything` | components/Library.tsx:38-47 | The 'All' tab with an empty query shows every book |
| `Library.EditProgressSpec` | components/Library.tsx:90-95 | The figure is never above 100. A zero total counts as one page. With `0 <= current <= total` it is the rounded percentage |
| `Library.EditPatchTouchesOnlyEditFields` | components/Library.tsx:69-80 | Saving the modal replaces exactly status, current page, total pages, notes and favourite |
| `Library.FavoritePatchFlips` | components/Library.tsx:54-57 | Toggling sets the flag to the negation of its value, with absent counted as false, so absent becomes true. Toggling twice restores the truth value. Nothing else changes |
| `Library.LibraryScreen.constructor` | components/Library.tsx:11-25 | The first render: tab 'All', the query from `initialSearch` or `''`, no modal, edit fields at their defaults (the empty page inputs as 0) |
| `Library.LibraryScreen.OpenBook` | components/Library.tsx:28-36 | Opening a book selects it and syncs the edit fields, using 0, 0, `''` and false for absent values. The modal's progress figure is then the figure for the book's page counts, at most 100 |
| `Library.LibraryScreen.Edit` | components/Library.tsx:361-457 | The modal's inputs set the edit fields |
| `Library.LibraryScreen.CloseDetails` | components/Library.tsx:380 | Closing the modal clears the selection |
| `Library.LibraryScreen.RequestDelete` | components/Library.tsx:49-52 | The delete button records the pending id and title |
| `Library.LibraryScreen.CancelDelete` | components/Library.tsx:323 | Cancelling clears the pending delete |
| `Library.LibraryScreen.ConfirmDelete` | components/Library.tsx:59-67 | The pending id is deleted and no book with it remains. The confirmation is cleared, and the selection is cleared iff it has the same id. Nothing happens when no delete is pending |
| `Library.LibraryScreen.SaveChanges` | components/Library.tsx:69-80 | The selected id gets the five edit fields, then the selection is cleared. Nothing happens without a selection |
| `Library.LibraryScreen.ToggleFavorite` | components/Library.tsx:54-57 | The store is updated for the book's id with the flipped favourite flag |
| `Dashboard.SortByDateDescSorted` | components/Dashboard.tsx:13 | The sorted copy is newest first and, by the function's contract, a permutation of the books |
| `Dashboard.RecentBooksSpec` | components/Dashboard.tsx:13 | There are min(3, n) recent books, all drawn from the catalog, newest first. No book left out is newer than any book shown |
| `Dashboard.FavoriteBooksSpec` | components/Dashboard.tsx:14 | Exactly the books flagged favourite, in their original order, each with as many copies as in the catalog |
| `Dashboard.CountersAddUp` | components/Dashboard.tsx:16-18 | Reading, finished and to-read counts add up to the number of books |
| `Dashboard.SearchResultsSpec` | components/Dashboard.tsx:20-28 | A blank or whitespace-only query gives nothing. Any other query gives the first min(5, matches) matching books in catalog order |
| `Dashboard.ProgressSpec` | components/Dashboard.tsx:34-37 | The figure is never above 100 and is 0 for a zero total, which is what an absent total becomes on a card. With `0 <= current <= total` it is the rounded percentage |
| `Dashboard.BookProgressSpec` | components/Dashboard.tsx:135 | A favourite card's figure is never above 100. It is 0 when the total is absent, and the rounded percentage of the page counts when they are in range |
| `Dashboard.ProgressDivergesAtZeroTotal` | components/Library.tsx:90-95 | The library and dashboard figures agree for every non-zero total. At a zero total with pages read, the dashboard shows 0 and the library a positive figure |
| `Statistics.StatusDataSpec` | components/Statistics.tsx:13-17 | At most three slices, in the order Reading, ToRead, Finished, each with a positive value and its status's fixed label and colour. A slice is present exactly when its status has a book, and the values add up to the number of books |
| `Statistics.TotalWithoutEmpty` | components/Statistics.tsx:17 | Dropping the zero slices does not change the total |

## Findings

| source | as written | input that shows it | evidently intended | confidence | as-written member | corrected member |
|---|---|---|---|---|---|---|
| components/Scanner.tsx:52-55 | The mount effect (dependency list `[]`) registers a cleanup whose `stopCamera` closes over the first render's `stream`, which is `null`, so leaving the screen never stops the camera tracks | Start the camera successfully, then leave the screen, by navigating to the review screen or back | Leaving the screen releases the camera stream held at that moment | high (React closure semantics; not executed) | `Scanner.StaleCleanupKeepsCamera` (with `Scanner.CaptureSession.UnmountAsWritten`) | `Scanner.CleanupReleasesCamera` (with `Scanner.CaptureSession.Unmount`) |

## Left out

- services/geminiService.ts is not part of this model beyond `AnalyzeCover`. The request, the response schema and `JSON.parse` of the reply are behind a network call, so the service's outcome is an input. The 1.5 s delay of the placeholder path is not modelled.
- App.SeedBooks: the three `Date.now()` readings of constants.ts:10, 23 and 36 are taken one after another when the module loads. The model collapses them into one reading `now`.
- Camera and device APIs (`getUserMedia`, `play()`, `track.stop()`, torch capabilities and `applyConstraints`) are device I/O. Their outcomes are parameters, and a running stream is a handle in the `live` set.
- Canvas and image APIs (`fillRect`, `drawImage`, `toDataURL('image/jpeg', 0.7)`, `FileReader`, `Image` decoding) are foreign calls. The encoder is a function from canvas size to data URL. The white background and the 0.7 quality are not represented.
- The canvas and video refs: the hidden canvas is always rendered, so its ref is taken as set and has no null check. The video ref is set exactly while no camera error is shown.
- Persistence: writing the snapshot to `localStorage` after every change, and the JSON round trip, are browser storage and library parsing. The loader takes the stored text together with its parse outcome.
- `Number()` parsing of the modal's page inputs: page numbers are taken as integers. The initial empty inputs are 0, which is what `Number('')` gives. Non-numeric text, which gives `NaN`, is not modelled.
- The per-book percentage printed in the list view (components/Library.tsx:274) is display text that no other code uses. It is not modelled.
- `Builtins.Lower`: `toLowerCase` is modelled character by character for ASCII, Latin-1 and Vietnamese capitals. Other scripts and multi-character mappings are not folded.
- `Builtins.StrLess`: `sort` compares UTF-16 code units, while the model compares Unicode scalar values. The two orders differ only for characters outside the Basic Multilingual Plane.
- `Builtins.RoundDiv`: the exact rational rounding can differ from the floating-point `Math.round` at exact halfway points.
- `App.BookPatch`: a patch field is either absent or holds a value. A key that is present with the value `undefined` in a spread, which would erase the field, is not represented. No caller passes one.
- Clock monotonicity: the two `Date.now()` readings are independent parameters. Nothing in the model orders them, and the code does not either.
- `Dashboard.SortByDateDesc` is a stable sort, as `Array.prototype.sort` is, but its stability is not stated as a lemma.
- Routing and UI-only state: `navigate` targets other than the review hand-off, `alert` beyond recording the message, dropdown visibility and `setTimeout` delays, view mode, `formatDate`, the charts, and the bottom navigation.
- Stale analysis results that resolve after the user has left or retried are asynchronous UI races. Each capture method takes its outcome in one step.
- The mock monthly statistics and the literal insights in Statistics.tsx are constants with no logic. `ReadingStat` and `GenreStat` serve only those mocks.
