# Annotation engine of a reading platform, modelled in Dafny

This project models the annotation engine of a reading platform with three parts: an e-ink reading device (Qt/C++), a web frontend (TypeScript/React) and a server (Go). Each part keeps its own annotations: highlights, notes and bookmarks tied to a place in a book. The project proves properties of each part's model.

- **Device** (`annotation_manager.dfy`, `paginator.dfy`, `book_engine.dfy`):
  - The annotation manager's cache is a list of annotations plus an id-to-position index. The model proves the index stays consistent through loading, adding (with eviction at 1000 entries), removing, updating and importing. It also covers the comma-joined tag storage, searching and per-kind counts.
  - The text paginator packs wrapped lines into pages and applies the e-ink clean-ups: moving orphan lines back and merging short pages.
  - The book engine covers the page cursor, restoring the saved page after pagination, splitting "Author - Title" file names, and newline clean-up.
- **Frontend** (`use_annotations.dfy`, `annotation_panel.dfy`, `annotation_toolbar.dfy`, `annotation_overlay.dfy`, `book_reader.dfy`, `enhanced_reader.dfy`, `text_reader.dfy`, `pdf_reader.dfy`, `epub_reader.dfy`, `annotations_page.dfy`):
  - The annotations hook: its filter predicate, search, statistics, and the store transitions that apply only after the server agrees.
  - The panel's sort and selection, the toolbar's tag list and creation guards, and the overlay's placement arithmetic.
  - The readers' select, emit and clear state machines, and how the book reader packs each reader's location into the wire fields `page_number`, `start_position` and `end_position`.
  - The annotations page's filter, page-button window and selection.
- **Server** (`search_handlers.dfy`, `annotation_management.dfy`, `text_extraction.dfy`, `book_service.dfy`, `book_model.dfy`, `response.dfy`, `local_llm.dfy`):
  - Search snippets and relevance scores.
  - The advanced annotation handlers: listing defaults, pagination, update maps, bulk actions and CSV rows.
  - HTML stripping and word counts.
  - File-type, extension and MIME tables, and file-name sanitising.
  - Upload and listing of books.
  - The response envelope and query-parameter parsing.
  - The local language-model client's fallback over three endpoints.
- **Shared helpers** (`wrappers.dfy`, `strings.dfy`, `seqs.dfy`, `sorting.dfy`, `paging.dfy`):
  - `Option`.
  - Strings: ASCII lower-casing, trimming, substring search, fields, join and split, and Go's `strconv.Atoi`.
  - Sequences: filters, subsequences and counts.
  - A stable sort by key.
  - Page arithmetic.

**How the model is written.** Each source file's objects whose fields change become a Dafny `class`. Its methods carry `modifies` clauses and state the whole new state. The rules those methods follow are stated as functions, with lemmas that prove what the source promises about them.

**Inputs in place of the outside world.** Databases, HTTP calls, file reads, clocks and the text layout engine are not modelled. Their results are inputs: a boolean for "the save succeeded", a reply per endpoint, the wrapped lines of each paragraph, timestamps as integers.

**Status codes.** The annotation handlers in `src/server/internal/handlers/annotation_management.go` call `utils.SuccessResponse` with a status argument, for example 201 after a creation. The helper in `src/server/internal/utils/response.go` takes no status and always answers 200. The two disagree in the code itself. This model follows each side as written:
- `Response.SuccessResponse` answers 200.
- The handler models report the status their calls pass, for example 201 for a creation.

## Model

| member | source | states |
|---|---|---|
| AnnotationManager.FromVariant | src/device/core/AnnotationManager.cpp:37-53 | a key missing from the map reads as the empty value (empty id, no tags, not private, no timestamp); a present key is read through the `QVariant` conversion of its field's type |
| AnnotationManager.ConversionsRoundTrip | src/device/core/AnnotationManager.cpp:37-53 | the `QVariant` conversions agree with one another: a 32-bit integer or a boolean turned into text reads back unchanged through `toInt` and `toBool`, a boolean read as an integer reads back through `toBool`, and a string and its one-element list convert into each other |
| AnnotationManager.AsString | src/device/core/AnnotationManager.cpp:37-53 | specified by AnnotationManager.ConversionsRoundTrip: `toString` gives a string as it is, an integer in decimal, a boolean as `true` or `false`, a one-element list as its element, and a null variant as the empty string; a date-time also reads as the empty string here, where Qt gives its ISO 8601 text (see "## Left out") |
| AnnotationManager.AsInt | src/device/core/AnnotationManager.cpp:37-53 | specified by AnnotationManager.ConversionsRoundTrip: `toInt` gives an integer as it is, a boolean as 1 or 0, a string through `QString::toInt`, and otherwise 0 |
| AnnotationManager.StringToInt | src/device/core/AnnotationManager.cpp:37-53 | specified by AnnotationManager.ConversionsRoundTrip: the trimmed text of a 32-bit integer reads as that integer, and any other text as 0 |
| AnnotationManager.AsBool | src/device/core/AnnotationManager.cpp:37-53 | specified by AnnotationManager.ConversionsRoundTrip: `toBool` gives a boolean as it is, an integer when non-zero, a string unless it is empty, `0` or `false` in any case, and otherwise false |
| AnnotationManager.AsStringList | src/device/core/AnnotationManager.cpp:37-53 | specified by AnnotationManager.ConversionsRoundTrip: `toStringList` gives a list as it is, a string as the list of that string, and otherwise the empty list |
| AnnotationManager.VariantRoundTrip | src/device/core/AnnotationManager.cpp:19-53 | `fromVariant(toVariant(a))` gives back `a` for every annotation |
| AnnotationManager.Variants | src/device/core/AnnotationManager.cpp:310-320 | a query result has one `toVariant` map per selected entry, in cache order |
| AnnotationManager.TagsRoundTrip | src/device/core/AnnotationManager.cpp:257-295 | tags joined with ',' and split back are unchanged exactly when no tag holds a comma and the list is not the single empty tag |
| AnnotationManager.LoadRow | src/device/core/AnnotationManager.cpp:283-299 | a loaded row keeps its id and is private exactly when the column holds 1 |
| AnnotationManager.IsoSeconds | src/device/core/AnnotationManager.cpp:259-260 | the ISO text of a time keeps it to the second: the stored time is the start of the time's own second, and the null time stays null |
| AnnotationManager.RowRoundTrip | src/device/core/AnnotationManager.cpp:248-299 | an annotation saved and reloaded is unchanged exactly when its tags survive the join/split and both its times are whole seconds |
| AnnotationManager.FreshRecordReloadsEarlier | src/device/core/AnnotationManager.cpp:169-172 | a highlight stamped at a time with milliseconds does not reload unchanged: its creation time comes back earlier |
| AnnotationManager.LoadRows | src/device/core/AnnotationManager.cpp:282-303 | the load loop builds one annotation per row, in query order |
| AnnotationManager.NewHighlight | src/device/core/AnnotationManager.cpp:155-181 | a new highlight is private, has no content or tags, keeps the colour and text, and is created and updated at the same instant |
| AnnotationManager.NewNote | src/device/core/AnnotationManager.cpp:183-209 | a new note is private, carries the note text, has no colour or tags |
| AnnotationManager.BookmarkTitle | src/device/core/AnnotationManager.cpp:211-232 | a bookmark's content is its name, or "Page N" when unnamed; never empty |
| AnnotationManager.NewBookmark | src/device/core/AnnotationManager.cpp:211-232 | a new bookmark is private with non-empty content and no text, colour or tags |
| AnnotationManager.ApplyUpdates | src/device/core/AnnotationManager.cpp:448-480 | an update rewrites content, colour, tags and privacy only when their key is present, each converted from the given variant by `toString`, `toStringList` or `toBool`; it always bumps updatedAt and leaves every other field alone |
| AnnotationManager.Select | src/device/core/AnnotationManager.cpp:310-332 | a list query keeps exactly the cached entries it selects, never more than the cache holds |
| AnnotationManager.RoundTripAll | src/device/core/AnnotationManager.cpp:19-53 | every map a query returns converts back to an entry of the cache |
| AnnotationManager.ExportSelection | src/device/core/AnnotationManager.cpp:551-572 | export writes the whole cache for an empty book id, otherwise exactly that book's entries |
| AnnotationManager.AppendedShape | src/device/core/AnnotationManager.cpp:365-381 | appending puts the entry last, evicts at most the oldest entry and only past `CACHE_LIMIT` (1000), so a cache within the limit stays within it |
| AnnotationManager.RemoveAt | src/device/core/AnnotationManager.cpp:383-395 | removing position p keeps the earlier entries and moves every later one down by one |
| AnnotationManager.AppendConsistent | src/device/core/AnnotationManager.cpp:366-368 | indexing the appended entry at the old length keeps every id pointing at its last entry |
| AnnotationManager.DropFirstKeys | src/device/core/AnnotationManager.cpp:370-380 | after evicting the oldest entry every other indexed id is still cached |
| AnnotationManager.RemoveKeepsEarlier | src/device/core/AnnotationManager.cpp:383-395 | an id not met again after the removed position keeps its old index |
| AnnotationManager.ReindexStep | src/device/core/AnnotationManager.cpp:377-393 | one pass of the re-index loop keeps every id seen so far pointing at its last occurrence |
| AnnotationManager.Manager.constructor | src/device/core/AnnotationManager.h:115-126 | a fresh manager has an empty, consistent cache and no unsynced changes |
| AnnotationManager.Manager.AnnotationCount | src/device/core/AnnotationManager.h:79 | `annotationCount()` is the number of cached entries |
| AnnotationManager.Manager.Reindex | src/device/core/AnnotationManager.cpp:377-393 | the re-index loop leaves the list alone, restores the index invariant and indexes exactly the old keys plus every id met from the start position |
| AnnotationManager.Manager.AddToCache | src/device/core/AnnotationManager.cpp:365-381 | the cache becomes `Appended(old, a)`, the new id points at the last entry, the index invariant holds, and after an eviction the index covers exactly the cached ids |
| AnnotationManager.Manager.RemoveFromCache | src/device/core/AnnotationManager.cpp:383-395 | an unknown id changes nothing; a known one removes exactly its entry, unindexes it and keeps the index invariant and completeness |
| AnnotationManager.Manager.ClearCache | src/device/core/AnnotationManager.cpp:402-406 | the list and the index become empty |
| AnnotationManager.Manager.LoadAnnotationsFromDatabase | src/device/core/AnnotationManager.cpp:271-308 | a closed database changes nothing and fails; otherwise the cache is exactly the loaded rows with every id indexed at its last row |
| AnnotationManager.Manager.SaveNew | src/device/core/AnnotationManager.cpp:172-180 | a successful save caches the record, marks the cache unsynced and returns its id; a failed save changes nothing and returns "" |
| AnnotationManager.Manager.CreateHighlight | src/device/core/AnnotationManager.cpp:155-181 | on success the cache gains `NewHighlight(...)` (default colour #ffff00) and the id is returned; on failure nothing changes |
| AnnotationManager.Manager.CreateNote | src/device/core/AnnotationManager.cpp:183-209 | on success the cache gains `NewNote(...)` and the id is returned; on failure nothing changes |
| AnnotationManager.Manager.CreateBookmark | src/device/core/AnnotationManager.cpp:211-232 | on success the cache gains `NewBookmark(...)` and the id is returned; on failure nothing changes |
| AnnotationManager.Manager.UpdateAnnotation | src/device/core/AnnotationManager.cpp:448-480 | an unindexed id fails with nothing changed; otherwise the entry is rewritten in place before the save, so the edit stays cached even when the save fails, and the result is the save's outcome |
| AnnotationManager.Manager.DeleteAnnotation | src/device/core/AnnotationManager.cpp:342-363 | a failed delete changes nothing; a successful one removes the cached entry (if any), unindexes it and marks the cache unsynced |
| AnnotationManager.Manager.GetAnnotation | src/device/core/AnnotationManager.cpp:334-340 | the indexed entry's map, or an empty map; under the invariant the result carries the requested id |
| AnnotationManager.Manager.Collect | src/device/core/AnnotationManager.cpp:310-320 | the scan loop returns the maps of exactly the selected entries, in cache order |
| AnnotationManager.Manager.GetAnnotationsForBook | src/device/core/AnnotationManager.cpp:310-320 | every returned map belongs to the book, and every cached entry of the book is returned |
| AnnotationManager.Manager.GetAnnotationsForPage | src/device/core/AnnotationManager.cpp:322-332 | exactly the entries of that book and page |
| AnnotationManager.Manager.GetHighlights | src/device/core/AnnotationManager.cpp:482-492 | exactly the book's highlights |
| AnnotationManager.Manager.GetNotes | src/device/core/AnnotationManager.cpp:494-504 | exactly the book's notes |
| AnnotationManager.Manager.GetBookmarks | src/device/core/AnnotationManager.cpp:506-516 | exactly the book's bookmarks |
| AnnotationManager.Manager.CountKind | src/device/core/AnnotationManager.cpp:408-436 | the counting loop counts exactly the entries the matching list query returns |
| AnnotationManager.Manager.GetHighlightCount | src/device/core/AnnotationManager.cpp:408-416 | the count equals the length of `getHighlights` |
| AnnotationManager.Manager.GetNoteCount | src/device/core/AnnotationManager.cpp:418-426 | the count equals the length of `getNotes` |
| AnnotationManager.Manager.GetBookmarkCount | src/device/core/AnnotationManager.cpp:428-436 | the count equals the length of `getBookmarks` |
| AnnotationManager.Manager.SearchAnnotations | src/device/core/AnnotationManager.cpp:518-549 | in cache order, every entry whose selected text, content or some tag contains the query, ignoring case |
| AnnotationManager.Manager.ImportOne | src/device/core/AnnotationManager.cpp:609-637 | a record that parsed and was saved is appended to the cache; anything else leaves it alone |
| AnnotationManager.Manager.CacheSaved | src/device/core/AnnotationManager.cpp:607-638 | the import loop appends exactly the saved records, in file order, and counts them |
| AnnotationManager.Manager.UpsertToCache | src/device/core/AnnotationManager.cpp:634-635 | corrected import step: a cached id is replaced in place, a new id is appended, and a cache without duplicate ids keeps none |
| AnnotationManager.Manager.ImportAnnotations | src/device/core/AnnotationManager.cpp:585-647 | an unreadable or non-array file fails with nothing changed; otherwise the saved records are appended in order and the cache is marked unsynced iff one was imported |
| AnnotationManager.Saved | src/device/core/AnnotationManager.cpp:609-637 | the imported records are at most as many as the file's values |
| AnnotationManager.SavedFromFile | src/device/core/AnnotationManager.cpp:609-637 | every imported record is an object of the file |
| AnnotationManager.AppendAllBounded | src/device/core/AnnotationManager.cpp:634-635 | importing into a cache within the limit keeps it within the limit, with the last imported record newest |
| AnnotationManager.AppendCachedDuplicates | src/device/core/AnnotationManager.cpp:634-635 | as written, re-importing a cached id leaves two cache entries with that id while the database holds one row |
| AnnotationManager.ReplaceKeepsDistinct | src/device/core/AnnotationManager.cpp:242 | replacing an entry by a record with the same id keeps ids distinct and the id set unchanged |
| AnnotationManager.AppendFreshKeepsDistinct | src/device/core/AnnotationManager.cpp:365-381 | appending a fresh id keeps ids distinct, eviction or not |
| TextPaginator.CppDiv | src/device/core/TextPaginator.cpp:75 | C++ integer division truncating toward zero: for a non-negative dividend the quotient times the divisor is at most the dividend and the next multiple exceeds it; for a negative dividend the quotient rounds up |
| TextPaginator.Paginator.constructor | src/device/core/TextPaginator.cpp:8-17 | a new paginator has no pages, is not paginating, and has zero line height and zero lines per page |
| TextPaginator.Paginator.PaginateText | src/device/core/TextPaginator.cpp:19-58 | while a pagination runs the call changes nothing; otherwise it stores the text, clears the pages, marks the pagination as running and sets the text area to the page size less the four margins, leaving the metrics for the deferred step |
| TextPaginator.Paginator.PerformPagination | src/device/core/TextPaginator.cpp:60-70 | ends the pagination with the line height and the truncated lines-per-page; empty text or no room for a line gives no pages; otherwise the non-empty lines of the pages are exactly the wrapped lines of all paragraphs in order, no page is blank and every page but the last holds at least two text lines |
| TextPaginator.Paginator.CalculateTextMetrics | src/device/core/TextPaginator.cpp:72-84 | lines per page is the text-area height divided by the line height, truncated, so a positive count of lines fits in the text area |
| TextPaginator.Paginator.BreakIntoPages | src/device/core/TextPaginator.cpp:86-139 | with empty text or no room it adds nothing; otherwise the new pages carry every wrapped line of every paragraph, in order and nothing else besides separator lines, and each page is trimmed, non-blank and holds at most lines-per-page lines |
| TextPaginator.Paginator.PlaceLine | src/device/core/TextPaginator.cpp:109-126 | a full page is stored before the line is added; the page under construction is the newline-join of its lines, never exceeds lines-per-page, and the line is appended to what has been laid out |
| TextPaginator.Paginator.StorePage | src/device/core/TextPaginator.cpp:113-115 | a page holding lines is stored trimmed; an empty one adds nothing; stored pages keep the layout invariant |
| TextPaginator.FlushPage | src/device/core/TextPaginator.cpp:136-138 | trimming a page built from layout lines only drops its trailing separators, the result is not blank, fits in lines-per-page lines and splits back into those lines |
| TextPaginator.Paginator.OptimizeForEInk | src/device/core/TextPaginator.cpp:194-229 | never adds pages, keeps every non-empty line in order, leaves no blank page, and leaves every page but the last with at least two text lines |
| TextPaginator.Paginator.MoveOrphans | src/device/core/TextPaginator.cpp:198-212 | the orphan pass keeps the page count and the exact sequence of lines across pages, and no page grows beyond lines-per-page lines |
| TextPaginator.MoveStep | src/device/core/TextPaginator.cpp:207-211 | moving the first line of a page to the end of the previous page keeps the sequence of all lines and keeps both pages within lines-per-page lines |
| TextPaginator.Paginator.MergeShortPages | src/device/core/TextPaginator.cpp:214-228 | the merge pass never adds pages, keeps every non-empty line in order, and leaves every page but the last with at least two non-empty lines |
| TextPaginator.MergeStep | src/device/core/TextPaginator.cpp:220-226 | merging a short page into the next and removing it shortens the list by one, keeps the non-empty lines in order and keeps the earlier pages' two-line minimum |
| TextPaginator.Paginator.GetPage | src/device/core/TextPaginator.cpp:240-246 | the page at a valid zero-based index, and the empty string for any index outside the page list |
| TextPaginator.Paginator.GetTotalPages | src/device/core/TextPaginator.h:55 | the number of pages |
| BookEngine.RestoredPage | src/device/core/BookEngine.cpp:294-320 | the saved page when the saved row belongs to the open book and does not lie past the last page, page 1 otherwise |
| BookEngine.RestoreHasNoLowerBound | src/device/core/BookEngine.cpp:301-302 | a saved page of 0 or below passes the check and is restored as it is, which is not a real page |
| BookEngine.RestoredInRange | src/device/core/BookEngine.cpp:301-305 | for a book with pages and a saved row that never points below page 1, the restored page is between 1 and the page count |
| BookEngine.SecondPart | src/device/core/BookEngine.cpp:237-240 | the second element of the split is the longest prefix of what follows the first separator that holds no separator: either all of it, or the text up to the next separator |
| BookEngine.ParseBaseName | src/device/core/BookEngine.cpp:231-242 | specified by BookEngine.ParseBaseNameParts and BookEngine.ParseBaseNameSplit; its own contract states that a base name without " - " gives no author and the whole name as title, and that with one the author holds no separator and author, separator and title fit within the name |
| BookEngine.ParseNameRoundTrip | src/device/core/BookEngine.cpp:236-241 | a name built as author " - " title is read back as the trimmed author and the trimmed title whenever the author holds no separator and does not end in " -", and the title holds no separator; dashes elsewhere in either part are allowed |
| BookEngine.FirstSeparator | src/device/core/BookEngine.cpp:237 | in a + " - " + b, where a holds no separator and does not end in " -", the first separator is the one right after a |
| BookEngine.BeforeFirstIsLeading | src/device/core/BookEngine.cpp:237 | the text before a name's first separator holds no separator and does not end in " -" |
| BookEngine.ParseBaseNameSplit | src/device/core/BookEngine.cpp:236-241 | a name a + " - " + b, with a as above, gives author trim(a) and title trim of b up to its own first separator |
| BookEngine.ParseBaseNameParts | src/device/core/BookEngine.cpp:236-241 | every name that holds the separator is such an a + " - " + b and is split exactly as BookEngine.ParseBaseNameSplit states |
| BookEngine.IsFormatSupported | src/device/core/BookEngine.cpp:512-514 | only "txt" and "epub", in any letter case, are supported, so a supported name has three or four characters |
| BookEngine.FormatCaseInsensitive | src/device/core/BookEngine.cpp:513 | lowering the format first does not change the answer |
| BookEngine.FormatExamples | src/device/core/BookEngine.cpp:513 | "TXT", "Epub" and "txt" are supported; "pdf" and the empty name are not |
| BookEngine.CarriageReturnsToNewlines | src/device/core/BookEngine.cpp:287 | every carriage return becomes a newline, every other character stays in place, and no carriage return is left |
| BookEngine.NewlineRun | src/device/core/BookEngine.cpp:288 | the length of the run of newlines at the start of the text, so the character after it is not a newline |
| BookEngine.NormalizeTextSpec | src/device/core/BookEngine.cpp:286-288 | the cleaned text has no three newlines in a row, keeps every non-newline character in order, and cleaning it again changes nothing |
| BookEngine.NormalizeText | src/device/core/BookEngine.cpp:286-288 | specified by BookEngine.NormalizeTextRuns and BookEngine.NormalizeTextSpec: after each carriage return becomes a newline, every maximal run of k newlines becomes min(k, 2) newlines and every other character stays in place |
| BookEngine.NormalizeTextRuns | src/device/core/BookEngine.cpp:286-288 | read as pieces (single characters and maximal newline runs), the cleaned text is the carriage-return-free text with each run of k newlines clamped to min(k, 2) and every other piece unchanged, and the cleaned text is exactly the string those pieces spell |
| BookEngine.CollapsePieces | src/device/core/BookEngine.cpp:288 | replacing `\n{3,}` by two newlines clamps every maximal newline run to at most two and keeps every other piece in place |
| BookEngine.RenderPieces | src/device/core/BookEngine.cpp:288 | reading a string as characters and newline runs loses nothing: the pieces spell the string back |
| BookEngine.CollapseNoCarriageReturn | src/device/core/BookEngine.cpp:288 | collapsing newline runs introduces no carriage return |
| BookEngine.Engine.constructor | src/device/core/BookEngine.cpp:21-51 | a new engine has no book, no pages, page 0 and no page text |
| BookEngine.Engine.OnPaginationComplete | src/device/core/BookEngine.cpp:294-320 | takes the paginator's pages as the book's pages and count, opens the restored page, and shows that page's text exactly when it exists, leaving the text alone otherwise |
| BookEngine.Engine.SetCurrentPage | src/device/core/BookEngine.cpp:332-350 | a page outside 1 to the page count, or the current page, changes nothing; otherwise the cursor moves there and shows that page's text; a cursor showing a real page keeps doing so |
| BookEngine.Engine.TurnPage | src/device/core/BookEngine.cpp:322-330 | an empty book or a target outside the book changes nothing; otherwise the cursor moves by exactly the given direction, and a cursor that showed a real page still does |
| BookEngine.Engine.GoToPage | src/device/core/BookEngine.cpp:505 | behaves as setting the current page: a valid page number becomes the current page and is shown; any other number changes nothing |
| UseAnnotations.Spread | src/frontend/src/hooks/useAnnotations.ts:124 | an object spread keeps the old value of a field the update leaves out and takes the update's value otherwise |
| UseAnnotations.ApplyLaws | src/frontend/src/hooks/useAnnotations.ts:122-126 | applying an empty update changes nothing, applying the same update twice equals applying it once, updated fields take the new values and an update without an id keeps the annotation's id |
| UseAnnotations.FilterAnnotationsSpec | src/frontend/src/hooks/useAnnotations.ts:147-186 | the filtered list holds exactly the annotations of the list that every set criterion keeps, in their original order, and filtering again changes nothing |
| UseAnnotations.FilterAnnotations | src/frontend/src/hooks/useAnnotations.ts:147-186 | specified by UseAnnotations.FilterAnnotationsSpec and UseAnnotations.FilterCriteria: keeps, in order, exactly the annotations that pass every set criterion |
| UseAnnotations.InitialShowsAll | src/frontend/src/hooks/useAnnotations.ts:76 | the initial filter, type "all" and nothing else, keeps every annotation in order |
| UseAnnotations.FilterCriteria | src/frontend/src/hooks/useAnnotations.ts:155-179 | a kept annotation lies within the date bounds, carries every filter tag and has the filter's type unless that type is "all" |
| UseAnnotations.QueryFilterWithinSearch | src/frontend/src/hooks/useAnnotations.ts:148-153 | with a query set, every annotation the filter keeps is also found by the search for that query, and the search returns only annotations of the list |
| UseAnnotations.SearchAnnotations | src/frontend/src/hooks/useAnnotations.ts:148-153 | specified by UseAnnotations.QueryFilterWithinSearch and UseAnnotations.TagOnlyMatch: the search keeps what the query filter keeps, and also annotations matched only by a tag |
| UseAnnotations.TagOnlyMatch | src/frontend/src/hooks/useAnnotations.ts:272-278 | an annotation matching the query only through a tag is found by the search but dropped by the filter, since the filter does not look at tags |
| UseAnnotations.MergedLaws | src/frontend/src/hooks/useAnnotations.ts:189-191 | merging an empty partial filter changes nothing, merging the same partial twice equals merging it once, unset fields keep their values and set fields take the new ones |
| UseAnnotations.UpdatedSpec | src/frontend/src/hooks/useAnnotations.ts:119-132 | an update keeps the list length, changes only the annotations with the given id, applies the patch to each of them, and repeating it changes nothing more |
| UseAnnotations.Updated | src/frontend/src/hooks/useAnnotations.ts:119-132 | specified by UseAnnotations.UpdatedSpec: the annotations with the id get the patch, every other one and the length are kept |
| UseAnnotations.WithoutSpec | src/frontend/src/hooks/useAnnotations.ts:135-144 | deletion keeps exactly the annotations whose id differs from the deleted one, in order |
| UseAnnotations.Without | src/frontend/src/hooks/useAnnotations.ts:135-144 | specified by UseAnnotations.WithoutSpec: exactly the annotations with other ids remain, in order |
| UseAnnotations.WithoutAllSpec | src/frontend/src/hooks/useAnnotations.ts:199-208 | bulk deletion keeps exactly the annotations whose id is not in the list, in order, and an empty id list changes nothing |
| UseAnnotations.WithoutAll | src/frontend/src/hooks/useAnnotations.ts:199-208 | specified by UseAnnotations.WithoutAllSpec: exactly the annotations whose id is not listed remain, in order |
| UseAnnotations.BulkEditSpec | src/frontend/src/hooks/useAnnotations.ts:211-240 | the bulk tag and colour edits keep the length, every id and every annotation outside the list, and set the new tags or colour on each listed annotation |
| UseAnnotations.ColorKey | src/frontend/src/hooks/useAnnotations.ts:299 | the colour an annotation is counted under is its colour when set and "default" otherwise, never empty |
| UseAnnotations.ColorCountsTotal | src/frontend/src/hooks/useAnnotations.ts:298-300 | the colour counts add up to the number of annotations |
| UseAnnotations.ColorCountsCover | src/frontend/src/hooks/useAnnotations.ts:298-300 | every annotation's colour key is counted and every count is positive |
| UseAnnotations.ColorCountsKeys | src/frontend/src/hooks/useAnnotations.ts:298-300 | every counted colour is the colour key of some annotation of the list |
| UseAnnotations.KindCountsPartition | src/frontend/src/hooks/useAnnotations.ts:292-296 | when every annotation is a highlight, a note or a bookmark, the three counts add up to the total |
| UseAnnotations.Store.constructor | src/frontend/src/hooks/useAnnotations.ts:73-76 | the store starts empty, loading, not creating, with the initial filter |
| UseAnnotations.Store.LoadAnnotations | src/frontend/src/hooks/useAnnotations.ts:79-90 | a successful load replaces the list with the response data, or with the empty list when there is none; a failed load keeps the list; loading ends either way |
| UseAnnotations.Store.CreateAnnotation | src/frontend/src/hooks/useAnnotations.ts:99-116 | a created annotation is appended and returned; a failure returns nothing and keeps the list; creating ends either way |
| UseAnnotations.Store.UpdateAnnotation | src/frontend/src/hooks/useAnnotations.ts:119-132 | after a successful request the list is the updated list; after a failure it is unchanged |
| UseAnnotations.Store.DeleteAnnotation | src/frontend/src/hooks/useAnnotations.ts:135-144 | after a successful request the annotation is removed from the list; after a failure the list is unchanged |
| UseAnnotations.Store.BulkDelete | src/frontend/src/hooks/useAnnotations.ts:199-208 | when every request succeeds the listed annotations are removed; when any fails the list is unchanged |
| UseAnnotations.Store.BulkUpdateTags | src/frontend/src/hooks/useAnnotations.ts:211-224 | when every request succeeds the listed annotations get the new tags; when any fails the list is unchanged |
| UseAnnotations.Store.BulkUpdateColor | src/frontend/src/hooks/useAnnotations.ts:227-240 | when every request succeeds the listed annotations get the new colour; when any fails the list is unchanged |
| UseAnnotations.Store.SetFilter | src/frontend/src/hooks/useAnnotations.ts:189-191 | the filter becomes the old one merged with the partial update |
| UseAnnotations.Store.ClearFilter | src/frontend/src/hooks/useAnnotations.ts:194-196 | the filter returns to its initial value |
| UseAnnotations.Store.GetStats | src/frontend/src/hooks/useAnnotations.ts:282-311 | the total, the count of each kind and the colour histogram of the current list |
| AnnotationPanel.Codes | src/frontend/src/components/annotations/AnnotationPanel.tsx:70 | a string's character codes, one per character, so that type names compare in code-point order |
| AnnotationPanel.CodesInjective | src/frontend/src/components/annotations/AnnotationPanel.tsx:70 | different type names have different code sequences, so equal sort keys mean equal names |
| AnnotationPanel.DisplaySpec | src/frontend/src/components/annotations/AnnotationPanel.tsx:56-81 | the panel shows a permutation of the search hits, or of the filtered annotations when the search box is empty, sorted by the chosen field in the chosen direction, with ties kept in their original order |
| AnnotationPanel.DisplayAnnotations | src/frontend/src/components/annotations/AnnotationPanel.tsx:56-81 | specified by AnnotationPanel.DisplaySpec and AnnotationPanel.UnknownSortKeepsOrder: a sorted permutation of the searched or filtered annotations |
| AnnotationPanel.TypeSortGroupsKinds | src/frontend/src/components/annotations/AnnotationPanel.tsx:69-71 | annotations that compare equal under the type sort have the same type |
| AnnotationPanel.UnknownSortKeepsOrder | src/frontend/src/components/annotations/AnnotationPanel.tsx:63-77 | a sort field other than date, type or page compares everything equal and leaves the list in its original order |
| AnnotationPanel.SelectAllTwice | src/frontend/src/components/annotations/AnnotationPanel.tsx:83-89 | when the selection size differs from the shown list, select-all selects the ids of every shown annotation, and pressing it again clears the selection |
| AnnotationPanel.SelectAll | src/frontend/src/components/annotations/AnnotationPanel.tsx:83-89 | specified by AnnotationPanel.SelectAllTwice and AnnotationPanel.SelectAllComparesLengths: selects every shown id unless the selection has as many ids as are shown, in which case it clears it |
| AnnotationPanel.SelectAllComparesLengths | src/frontend/src/components/annotations/AnnotationPanel.tsx:84 | select-all compares only lengths: a selection of one id not shown, against one shown annotation, is cleared rather than replaced |
| AnnotationPanel.ToggleSpec | src/frontend/src/components/annotations/AnnotationPanel.tsx:91-97 | toggling an id selects it exactly when it was not selected, leaves every other id as it was, and toggling twice restores the set of selected ids |
| AnnotationPanel.Toggle | src/frontend/src/components/annotations/AnnotationPanel.tsx:91-97 | specified by AnnotationPanel.ToggleSpec: the id is added when absent and removed when present, nothing else changes, and toggling twice restores the selection |
| AnnotationPanel.ParseTagsSpec | src/frontend/src/components/annotations/AnnotationPanel.tsx:110 | every tag parsed from the bulk box is non-empty, has no surrounding space and holds no comma |
| AnnotationPanel.ParseTagsJoin | src/frontend/src/components/annotations/AnnotationPanel.tsx:110 | tags already clean, joined with commas, are parsed back as the same list |
| AnnotationPanel.ParseTags | src/frontend/src/components/annotations/AnnotationPanel.tsx:110 | specified by AnnotationPanel.ParseTagsSpec and AnnotationPanel.ParseTagsJoin: trimmed non-empty pieces without commas, and clean tags joined with commas parse back |
| AnnotationPanel.TrimAll | src/frontend/src/components/annotations/AnnotationPanel.tsx:110 | trimming clean tags changes none of them |
| AnnotationPanel.Panel.constructor | src/frontend/src/components/annotations/AnnotationPanel.tsx:44-51 | nothing selected, bulk actions hidden, an empty tag box, the first palette colour, an empty search and a newest-first date sort |
| AnnotationPanel.Panel.HandleSelectAll | src/frontend/src/components/annotations/AnnotationPanel.tsx:83-89 | the selection becomes the select-all result for the shown list |
| AnnotationPanel.Panel.HandleSelectAnnotation | src/frontend/src/components/annotations/AnnotationPanel.tsx:91-97 | the selection becomes the old selection with that id toggled |
| AnnotationPanel.Panel.HandleBulkDelete | src/frontend/src/components/annotations/AnnotationPanel.tsx:99-106 | with a selection and confirmation, the store drops the selected annotations when every request succeeds, and the selection and bulk actions are cleared; otherwise nothing changes |
| AnnotationPanel.Panel.HandleBulkUpdateTags | src/frontend/src/components/annotations/AnnotationPanel.tsx:108-115 | with a selection and a non-blank tag box, the store sets the parsed tags on the selected annotations when every request succeeds, and the box and bulk actions are cleared; otherwise nothing changes |
| AnnotationPanel.Panel.HandleBulkUpdateColor | src/frontend/src/components/annotations/AnnotationPanel.tsx:117-122 | with a selection, the store sets the chosen colour on the selected annotations when every request succeeds, and the bulk actions close; otherwise nothing changes |
| AnnotationToolbar.ExistingSpec | src/frontend/src/components/annotations/AnnotationToolbar.tsx:52-62 | an existing annotation is found exactly when some annotation has the same selected text and the asked type, and the one found is the first such annotation |
| AnnotationToolbar.Existing | src/frontend/src/components/annotations/AnnotationToolbar.tsx:52-62 | specified by AnnotationToolbar.ExistingSpec: found exactly when an annotation of the kind has the selected text, and then it is the first one |
| AnnotationToolbar.ExistingNeedsKindAndText | src/frontend/src/components/annotations/AnnotationToolbar.tsx:52-56 | an annotation with other text, or a note, does not count as an existing highlight |
| AnnotationToolbar.AddTagSpec | src/frontend/src/components/annotations/AnnotationToolbar.tsx:146-152 | adding keeps the tag list clean, adds exactly the trimmed input when it is non-empty and new, and removing that tag again restores the list |
| AnnotationToolbar.AddTag | src/frontend/src/components/annotations/AnnotationToolbar.tsx:146-152 | specified by AnnotationToolbar.AddTagSpec: adds the trimmed input when it is non-empty and new, and keeps the tag list clean |
| AnnotationToolbar.AppendClean | src/frontend/src/components/annotations/AnnotationToolbar.tsx:148-149 | appending a new non-empty trimmed tag to a clean list keeps it clean |
| AnnotationToolbar.RemoveAppended | src/frontend/src/components/annotations/AnnotationToolbar.tsx:154-156 | removing a tag that was just appended restores the list |
| AnnotationToolbar.RemoveTagSpec | src/frontend/src/components/annotations/AnnotationToolbar.tsx:154-156 | removal keeps exactly the other tags, in order, and keeps a clean list clean |
| AnnotationToolbar.RemoveTag | src/frontend/src/components/annotations/AnnotationToolbar.tsx:154-156 | specified by AnnotationToolbar.RemoveTagSpec: every other tag stays, in order |
| AnnotationToolbar.Toolbar.constructor | src/frontend/src/components/annotations/AnnotationToolbar.tsx:40-46 | the toolbar opens on the selected text with the first highlight colour, no note, no tags, no pending request and not closed |
| AnnotationToolbar.Toolbar.CreateHighlight | src/frontend/src/components/annotations/AnnotationToolbar.tsx:97-111 | while a request is pending nothing is sent; otherwise a highlight of the selected text in the chosen colour is sent and the toolbar is marked pending |
| AnnotationToolbar.Toolbar.CreateNote | src/frontend/src/components/annotations/AnnotationToolbar.tsx:113-129 | nothing is sent while pending or when the note is blank; otherwise a note with the trimmed content, the chosen colour and the tags only when there are some |
| AnnotationToolbar.Toolbar.CreateBookmark | src/frontend/src/components/annotations/AnnotationToolbar.tsx:131-144 | while a request is pending nothing is sent; otherwise a bookmark of the selected text, with no colour or content |
| AnnotationToolbar.Toolbar.CreateSettled | src/frontend/src/components/annotations/AnnotationToolbar.tsx:100-110 | when the request settles the toolbar is no longer pending, and it closes only if the request resolved |
| AnnotationToolbar.Toolbar.KeyDown | src/frontend/src/components/annotations/AnnotationToolbar.tsx:84-95 | Escape closes without sending; Ctrl+Enter with a non-blank note sends the note; any other key does nothing |
| AnnotationToolbar.Toolbar.HandleAddTag | src/frontend/src/components/annotations/AnnotationToolbar.tsx:146-152 | the tags become the old tags with the trimmed input added, the input box clears exactly when a tag was added, and a clean list stays clean |
| AnnotationToolbar.Toolbar.HandleRemoveTag | src/frontend/src/components/annotations/AnnotationToolbar.tsx:154-156 | the tags lose every copy of the removed tag and a clean list stays clean |
| AnnotationOverlay.IndicatorPlacement | src/frontend/src/components/annotations/AnnotationOverlay.tsx:95-97 | the indicator sits at the annotation's top; a bookmark's 20 to the left of the box, any other kind's 2 past its right edge |
| AnnotationOverlay.IndicatorOutsideBox | src/frontend/src/components/annotations/AnnotationOverlay.tsx:95-97 | for a box of non-negative width the indicator lies outside it horizontally, on the left for a bookmark and on the right otherwise |
| AnnotationOverlay.PopupSpec | src/frontend/src/components/annotations/AnnotationOverlay.tsx:139-141 | the popup's left edge is at least 10 from the window edge, fits the 330-wide popup when the window is wide enough, equals the annotation's left edge when that fits, and the popup sits 10 below the annotation |
| AnnotationOverlay.PopupPlacement | src/frontend/src/components/annotations/AnnotationOverlay.tsx:139-141 | specified by AnnotationOverlay.PopupSpec: the popup is kept inside the window, 10 from its edges, and placed at the annotation when there is room |
| AnnotationOverlay.Background | src/frontend/src/components/annotations/AnnotationOverlay.tsx:55-57 | only highlights get a background tint; it is the annotation's colour when set and the pale default otherwise, never empty |
| AnnotationOverlay.SavedSpec | src/frontend/src/components/annotations/AnnotationOverlay.tsx:25-34 | saving changes only the content, set to the trimmed edit text, and the update time; every other field is kept |
| AnnotationOverlay.Saved | src/frontend/src/components/annotations/AnnotationOverlay.tsx:25-34 | specified by AnnotationOverlay.SavedSpec and AnnotationOverlay.SavedAgain: only the trimmed content and the update time change |
| AnnotationOverlay.SavedAgain | src/frontend/src/components/annotations/AnnotationOverlay.tsx:25-31 | saving the saved content again changes nothing but the update time |
| AnnotationOverlay.PrivacyFlippedSpec | src/frontend/src/components/annotations/AnnotationOverlay.tsx:253-257 | the privacy button flips the private flag and touches only it and the update time, and flipping twice restores the flag |
| AnnotationOverlay.PrivacyFlipped | src/frontend/src/components/annotations/AnnotationOverlay.tsx:253-257 | specified by AnnotationOverlay.PrivacyFlippedSpec: only privacy, which flips, and the update time change |
| AnnotationOverlay.Overlay.constructor | src/frontend/src/components/annotations/AnnotationOverlay.tsx:21-23 | the overlay starts with details hidden, not editing, and the edit box holding the annotation's content or nothing |
| AnnotationOverlay.Overlay.ToggleDetails | src/frontend/src/components/annotations/AnnotationOverlay.tsx:99 | clicking the indicator flips whether the details are shown |
| AnnotationOverlay.Overlay.HandleSave | src/frontend/src/components/annotations/AnnotationOverlay.tsx:25-34 | the saved annotation is emitted exactly when an update callback exists, and editing ends either way |
| AnnotationOverlay.Overlay.HandleDelete | src/frontend/src/components/annotations/AnnotationOverlay.tsx:36-40 | the annotation's id is emitted for deletion exactly when a delete callback exists and the user confirms |
| AnnotationOverlay.Overlay.TogglePrivacy | src/frontend/src/components/annotations/AnnotationOverlay.tsx:253-257 | emits the annotation with its private flag flipped and the new update time |
| BookReader.Or | src/frontend/src/components/readers/BookReader.tsx:89-91 | JavaScript's `\|\|`: the left value when it is truthy, the right one otherwise |
| BookReader.PackedSpec | src/frontend/src/components/readers/BookReader.tsx:86-95 | every packed location field is truthy or exactly 0, a truthy position fills both start and end, the annotation is private and its content is the event's content or the empty string |
| BookReader.Packed | src/frontend/src/components/readers/BookReader.tsx:86-95 | specified by BookReader.PackedSpec: the page and positions fall back to 0, a single position stands for both ends, and the text fields are passed on |
| BookReader.EpubEventLosesLocation | src/frontend/src/components/readers/BookReader.tsx:89-91 | an event that carries only a CFI packs the same whatever the CFI, with page 0 and positions 0 |
| BookReader.TextEventPacking | src/frontend/src/components/readers/BookReader.tsx:90-91 | a text event carrying only a character offset is packed at page 0 with the offset as both start and end |
| BookReader.PdfEventPacking | src/frontend/src/components/readers/BookReader.tsx:89-91 | a PDF event with a page of 1 or more and a selection box is packed with that page and the box as both start and end |
| BookReader.ReaderFor | src/frontend/src/components/readers/BookReader.tsx:178-202 | the EPUB reader exactly for "epub" and the PDF reader exactly for "pdf", in any letter case; the text reader for everything else |
| BookReader.ReaderForIgnoresCase | src/frontend/src/components/readers/BookReader.tsx:178 | lowering the file type first picks the same reader |
| BookReader.EpubStart | src/frontend/src/components/readers/BookReader.tsx:183 | the EPUB reader starts at the initial location only when it is a string |
| BookReader.PdfStart | src/frontend/src/components/readers/BookReader.tsx:190 | the PDF reader starts at the initial location when it is a number and at page 1 otherwise |
| BookReader.TextStart | src/frontend/src/components/readers/BookReader.tsx:198 | the text reader starts at the initial location when it is a number and at offset 0 otherwise |
| BookReader.MergeSettingsLaws | src/frontend/src/components/readers/BookReader.tsx:55-57 | each setting the partial update carries replaces the current one and the others stay, and merging two updates in turn equals merging their combination |
| BookReader.MergeSettings | src/frontend/src/components/readers/BookReader.tsx:55-57 | specified by BookReader.MergeSettingsLaws: each setting in the patch replaces the old one, the rest are kept, and merging two patches in turn is merging their combination |
| BookReader.ShortcutFor | src/frontend/src/components/readers/BookReader.tsx:118-160 | no shortcut inside an input field; Escape and F11 always; settings with "s" exactly when Ctrl or Meta is held; a theme key only with Alt and only light, dark or sepia |
| BookReader.ThemeKeys | src/frontend/src/components/readers/BookReader.tsx:142-159 | Alt with 1, 2 and 3 picks light, dark and sepia, and 1 without Alt does nothing |
| BookReader.Reader.constructor | src/frontend/src/components/readers/BookReader.tsx:31-39 | the reader starts with the default settings, settings hidden, the given fullscreen flag, not closed and nothing stored |
| BookReader.Reader.LoadSaved | src/frontend/src/components/readers/BookReader.tsx:42-52 | stored settings are merged over the current ones; nothing stored changes nothing |
| BookReader.Reader.UpdateSettings | src/frontend/src/components/readers/BookReader.tsx:55-59 | the settings become the merged settings and exactly those are stored |
| BookReader.Reader.ToggleFullscreen | src/frontend/src/components/readers/BookReader.tsx:106-114 | the document's fullscreen state flips and the component's flag follows it |
| BookReader.Reader.KeyDown | src/frontend/src/components/readers/BookReader.tsx:117-165 | the reader closes only on Escape outside fullscreen with a close handler; fullscreen flips on F11 or on Escape in fullscreen; Ctrl or Meta with "s" flips the settings panel; a theme key sets and stores only the theme; nothing else changes |
| EnhancedReader.RecordSpec | src/frontend/src/components/readers/EnhancedBookReader.tsx:76-87 | the record sent for a new annotation is at page 0, starts at 0 and ends at the length of the selected text, is private, belongs to the book and carries the request's type, text, content, colour and tags unchanged, so different requests give different records |
| EnhancedReader.Record | src/frontend/src/components/readers/EnhancedBookReader.tsx:76-87 | specified by EnhancedReader.RecordSpec: the request's fields are kept, the record is private at page 0 and spans the selected text's length |
| EnhancedReader.Visible | src/frontend/src/components/readers/EnhancedBookReader.tsx:114-119 | every annotation of the book counts as visible, in order |
| EnhancedReader.Reader.constructor | src/frontend/src/components/readers/EnhancedBookReader.tsx:28-29 | no pending selection, the panel hidden and the overlays shown |
| EnhancedReader.Reader.HandleTextSelection | src/frontend/src/components/readers/EnhancedBookReader.tsx:42-63 | without a selection range nothing changes; an empty trimmed selection hides the toolbar; any other selection shows the toolbar on its trimmed text |
| EnhancedReader.Reader.HandleCreateAnnotation | src/frontend/src/components/readers/EnhancedBookReader.tsx:66-91 | sends the record for the request; the store appends the server's copy when the call succeeds, keeps its filter and loading flag and is no longer creating; the toolbar is hidden either way |
| EnhancedReader.Reader.CloseToolbar | src/frontend/src/components/readers/EnhancedBookReader.tsx:199 | closing the toolbar clears the pending selection |
| EnhancedReader.Reader.ToggleOverlays | src/frontend/src/components/readers/EnhancedBookReader.tsx:150 | the overlay button flips whether overlays are drawn |
| EnhancedReader.Reader.TogglePanel | src/frontend/src/components/readers/EnhancedBookReader.tsx:157 | the panel button flips whether the annotation panel is shown |
| TextReader.Round | src/frontend/src/components/readers/TextReader.tsx:152 | JavaScript's Math.round: the nearest integer, halves rounding up, so within one half of the value |
| TextReader.Captured | src/frontend/src/components/readers/TextReader.tsx:104-137 | a selection is captured exactly when its trimmed text is non-empty; it holds the trimmed text, starts at the length of the text before it and spans exactly the text |
| TextReader.EmittedSpec | src/frontend/src/components/readers/TextReader.tsx:139-150 | no event exactly when there is no selection and the kind is not a bookmark; an event carries the kind, the selection's start or else the scroll position, the text except for bookmarks, and empty content only for notes |
| TextReader.Emitted | src/frontend/src/components/readers/TextReader.tsx:139-150 | specified by TextReader.EmittedSpec: an event unless there is no selection and it is not a bookmark; it sits at the selection's start or the scroll position |
| TextReader.PackedAtStart | src/frontend/src/components/readers/TextReader.tsx:142-148 | a highlight or note from the text reader reaches the server at page 0 with the selection's start as both start and end position and the selected text |
| TextReader.Reader.constructor | src/frontend/src/components/readers/TextReader.tsx:44-47 | no selection, menu hidden, no bookmarks and scrolled to the top |
| TextReader.Reader.Scrolled | src/frontend/src/components/readers/TextReader.tsx:91-101 | the scroll position becomes the reported percentage |
| TextReader.Reader.HandleTextSelection | src/frontend/src/components/readers/TextReader.tsx:104-137 | a range with non-blank text becomes the captured selection and opens the menu; anything else changes nothing |
| TextReader.Reader.CreateAnnotation | src/frontend/src/components/readers/TextReader.tsx:139-158 | emits the event for the kind and the old selection; when something is emitted the menu closes, the selection is dropped, and a bookmark appends the rounded scroll position; otherwise nothing changes |
| PdfReader.NavigationSpec | src/frontend/src/components/readers/PdfReader.tsx:96-118 | from a page within the document every move stays within it; previous goes back one unless on page 1, next goes forward one unless on the last page, and going to a page jumps there exactly when it exists |
| PdfReader.AfterPrev | src/frontend/src/components/readers/PdfReader.tsx:95-101 | specified by PdfReader.NavigationSpec and PdfReader.PrevNextInverse: one page back, but never before page 1 |
| PdfReader.AfterNext | src/frontend/src/components/readers/PdfReader.tsx:103-109 | specified by PdfReader.NavigationSpec and PdfReader.PrevNextInverse: one page on, but never past the last page |
| PdfReader.AfterGoTo | src/frontend/src/components/readers/PdfReader.tsx:111-116 | specified by PdfReader.NavigationSpec: a target within the document is taken, any other leaves the page as it was |
| PdfReader.PrevNextInverse | src/frontend/src/components/readers/PdfReader.tsx:96-110 | next then previous, away from the last page, and previous then next, away from the first, return to the same page |
| PdfReader.GoToThenMoves | src/frontend/src/components/readers/PdfReader.tsx:112-118 | after a jump to an existing page, any series of previous and next moves stays within the document |
| PdfReader.MovesInRange | src/frontend/src/components/readers/PdfReader.tsx:96-110 | any series of previous and next moves from a page within the document stays within it |
| PdfReader.EmittedSpec | src/frontend/src/components/readers/PdfReader.tsx:161-170 | no event exactly when there is no selection and the kind is not a bookmark; an event carries the kind, the current page, the selection box or the zero box, the text except for bookmarks and empty content only for notes |
| PdfReader.Emitted | src/frontend/src/components/readers/PdfReader.tsx:161-170 | specified by PdfReader.EmittedSpec: an event unless there is no selection and it is not a bookmark; it carries the page and the selection's rectangle or a zero one |
| PdfReader.PackedWithRectangle | src/frontend/src/components/readers/PdfReader.tsx:164-170 | a PDF annotation reaches the server with its page and the selection box as both start and end position |
| PdfReader.Reader.constructor | src/frontend/src/components/readers/PdfReader.tsx:42-48 | no pages known yet, the initial page, no selection and the menu hidden |
| PdfReader.Reader.DocumentLoaded | src/frontend/src/components/readers/PdfReader.tsx:54-58 | records the page count and reports the current page with it |
| PdfReader.Reader.PrevPage | src/frontend/src/components/readers/PdfReader.tsx:96-102 | moves back one page unless on page 1, and reports the new page exactly when it changed |
| PdfReader.Reader.NextPage | src/frontend/src/components/readers/PdfReader.tsx:104-110 | moves forward one page unless on the last page, and reports the new page exactly when it changed |
| PdfReader.Reader.GoToPage | src/frontend/src/components/readers/PdfReader.tsx:112-118 | jumps to the target exactly when it is a page of the document, and reports it |
| PdfReader.Reader.KeyDown | src/frontend/src/components/readers/PdfReader.tsx:181-188 | the left arrow goes back, the right arrow goes forward, and every other key leaves the page as it is |
| PdfReader.Reader.HandleTextSelection | src/frontend/src/components/readers/PdfReader.tsx:133-158 | a range with non-blank text becomes the selection on the current page with its box and opens the menu; anything else changes nothing |
| PdfReader.Reader.CreateAnnotation | src/frontend/src/components/readers/PdfReader.tsx:161-177 | emits the event for the kind, the old selection and the current page; when something is emitted the menu closes and the selection is dropped; otherwise nothing changes |
| EpubReader.Percentage | src/frontend/src/components/readers/EpubReader.tsx:117 | a missing percentage reads as 0 |
| EpubReader.Relocated | src/frontend/src/components/readers/EpubReader.tsx:115-124 | the stored location keeps both CFIs, and each end takes its reported percentage, or 0 when none is reported |
| EpubReader.EmittedSpec | src/frontend/src/components/readers/EpubReader.tsx:218-229 | an event exactly when text is selected and a location is known; it carries the kind, the start CFI of the location, the text except for bookmarks and empty content only for notes |
| EpubReader.Emitted | src/frontend/src/components/readers/EpubReader.tsx:218-229 | specified by EpubReader.EmittedSpec: an event exactly when text is selected and a location is known, placed at the location's start |
| EpubReader.PackedWithoutLocation | src/frontend/src/components/readers/EpubReader.tsx:221-226 | the CFI never reaches the server: two events that differ only in their location are packed identically, at page 0 and positions 0 |
| EpubReader.Reader.constructor | src/frontend/src/components/readers/EpubReader.tsx:55-58 | no location, no selected text and the menu hidden |
| EpubReader.Reader.OnRelocated | src/frontend/src/components/readers/EpubReader.tsx:113-126 | stores the new start and end location with missing percentages as 0, and reports the start CFI with its percentage |
| EpubReader.Reader.OnSelected | src/frontend/src/components/readers/EpubReader.tsx:129-146 | non-empty selected text is kept and opens the menu; an empty selection changes nothing |
| EpubReader.Reader.CreateAnnotation | src/frontend/src/components/readers/EpubReader.tsx:218-230 | emits the event for the kind, the selected text and the location; when something is emitted the menu closes and the text is cleared; otherwise nothing changes |
| AnnotationsPage.TabTypes | src/frontend/src/app/annotations/page.tsx:86 | the plural tab names lose their final letter and ask for highlight, note and bookmark; the "all" tab asks for no type |
| AnnotationsPage.PageFilterSpec | src/frontend/src/app/annotations/page.tsx:246-255 | the page lists exactly the fetched annotations whose type starts with the tab's type, unless the tab is "all", and whose text or content contains the search, in their original order |
| AnnotationsPage.PageFilter | src/frontend/src/app/annotations/page.tsx:246-255 | specified by AnnotationsPage.PageFilterSpec: keeps, in order, exactly the annotations of the tab that match the query |
| AnnotationsPage.PageFilterMatchesHook | src/frontend/src/app/annotations/page.tsx:246-255 | on the page's own tabs and valid kinds, the page filter equals the annotation hook's filter with the matching type and query |
| AnnotationsPage.TabMatchesKind | src/frontend/src/app/annotations/page.tsx:247 | for a valid kind, starting with the tab's type is the same as being that type, since the three kinds differ in their first letter |
| AnnotationsPage.PageWindowSpec | src/frontend/src/app/annotations/page.tsx:597-615 | the row of page buttons holds min(5, pages) consecutive page numbers, all of existing pages, and includes the current page whenever it exists |
| AnnotationsPage.PageWindow | src/frontend/src/app/annotations/page.tsx:597-615 | specified by AnnotationsPage.PageWindowSpec: up to five consecutive existing pages that include the current one |
| AnnotationsPage.PrevNextSpec | src/frontend/src/app/annotations/page.tsx:561-569 | from an existing page, previous and next stay within the pages and move by one unless already at that end |
| AnnotationsPage.ShowingSpec | src/frontend/src/app/annotations/page.tsx:578-580 | on an existing page the "showing from to" range is non-empty, within the total, at most twenty long, and exactly twenty on every page but the last |
| AnnotationsPage.CheckboxIsToggle | src/frontend/src/app/annotations/page.tsx:433-440 | since the box shows whether the id is selected, a click toggles it just as the annotation panel's selection does |
| AnnotationsPage.Page.constructor | src/frontend/src/app/annotations/page.tsx:45-59 | no annotations, totals of zero, page 1, nothing selected, the "all" tab and an empty search |
| AnnotationsPage.Page.Fetched | src/frontend/src/app/annotations/page.tsx:95-100 | a successful answer replaces the list and the total, a missing one counting as empty or zero, and sets the page count to the total divided by twenty rounded up; a failed one keeps everything |
| AnnotationsPage.Page.SetTab | src/frontend/src/app/annotations/page.tsx:362 | a tab click sets the active tab and keeps the current page |
| AnnotationsPage.Page.Prev | src/frontend/src/app/annotations/page.tsx:561 | the page becomes the previous page, staying within the pages |
| AnnotationsPage.Page.Next | src/frontend/src/app/annotations/page.tsx:568 | the page becomes the next page, staying within the pages |
| AnnotationsPage.Page.PageClicked | src/frontend/src/app/annotations/page.tsx:597-615 | the page becomes the number on the clicked button, which is an existing page |
| AnnotationsPage.Page.CheckboxChanged | src/frontend/src/app/annotations/page.tsx:434-440 | checking appends the id to the selection and unchecking removes every copy of it |
| AnnotationsPage.Page.DeleteSelected | src/frontend/src/app/annotations/page.tsx:156-183 | after confirmation every selected id is sent for deletion, and the selection is cleared once all were sent; without confirmation nothing is sent or changed |
| SearchHandlers.ContainsItem | src/server/internal/handlers/search_handlers.go:703-710 | true exactly when the item is an element of the slice |
| SearchHandlers.FirstHit | src/server/internal/handlers/search_handlers.go:720-722 | the first search term, in query order, that occurs in the lowered text, with its first index there; none when no term occurs |
| SearchHandlers.FirstHitIsFirst | src/server/internal/handlers/search_handlers.go:720-722 | no term before the one found occurs in the text |
| SearchHandlers.SnippetWithoutMatch | src/server/internal/handlers/search_handlers.go:713-748 | an empty text or query gives the empty snippet; when no term occurs, the snippet is the text itself up to 100 characters, or its first 100 followed by an ellipsis |
| SearchHandlers.SnippetAroundMatch | src/server/internal/handlers/search_handlers.go:720-740 | when a term occurs, with i the first hit of the first term that occurs, the snippet is exactly text[max(0, i-50) .. min(len, i+len(term)+50)], preceded by "..." when that start is after 0 and followed by "..." when that end is before the text's end; the hit matches the term case-insensitively |
| SearchHandlers.Snippet | src/server/internal/handlers/search_handlers.go:713-748 | specified by SearchHandlers.SnippetWithoutMatch and SearchHandlers.SnippetAroundMatch: empty for empty text or query, the text's first 100 characters when no term occurs, and otherwise exactly the text from 50 before the first hit to 50 after it, clipped to the text, with "..." on each clipped side |
| SearchHandlers.WindowBounds | src/server/internal/handlers/search_handlers.go:723-739 | the window around a match at i of length n is exactly text[max(0, i-50) .. min(len, i+n+50)], with "..." before it when its start is after 0 and after it when its end is before the text's end |
| SearchHandlers.GenerateSnippet | src/server/internal/handlers/search_handlers.go:712-749 | the loop over the terms returns SearchHandlers.Snippet, the exact window around the first hit described by SearchHandlers.SnippetAroundMatch |
| SearchHandlers.Cut | src/server/internal/handlers/search_handlers.go:723-740 | the slicing step returns the window around the match, which SearchHandlers.WindowBounds states exactly |
| SearchHandlers.TermsScorePositive | src/server/internal/handlers/search_handlers.go:764-767 | for non-empty terms, one text scores above zero exactly when some term occurs in it |
| SearchHandlers.TextsScorePositive | src/server/internal/handlers/search_handlers.go:759-768 | for non-empty terms, the texts score above zero exactly when some term occurs in some text |
| SearchHandlers.RelevanceSpec | src/server/internal/handlers/search_handlers.go:751-771 | an empty query scores zero; otherwise the score is positive exactly when some word of the lowered query occurs in some lowered text |
| SearchHandlers.Relevance | src/server/internal/handlers/search_handlers.go:751-771 | specified by SearchHandlers.RelevanceSpec: zero for an empty query, and otherwise positive exactly when some query term occurs in some text |
| SearchHandlers.CalculateRelevance | src/server/internal/handlers/search_handlers.go:751-771 | the loop's total is the relevance, the sum over the non-empty texts and the terms of the number of occurrences |
| SearchHandlers.TextScore | src/server/internal/handlers/search_handlers.go:764-767 | the inner loop's total is the text's score over all terms |
| SearchHandlers.WithDefaultsSpec | src/server/internal/handlers/search_handlers.go:138-153 | no types become all four ("books", "annotations", "highlights", "notes"); a page of 0 or less becomes 1; a page size outside 1..100 becomes 20 and one inside is kept; an empty sort field becomes "relevance" and an empty sort order "desc"; every other value is kept, the query never changes, and the defaults are idempotent |
| SearchHandlers.WithDefaults | src/server/internal/handlers/search_handlers.go:138-153 | specified by SearchHandlers.WithDefaultsSpec: each missing or out-of-range field takes its stated default and the rest of the request is kept |
| Paging.CeilDiv | src/server/internal/services/book_service.go:279 | the page count for a total: the least whole number of pages of the given size that holds the total, zero for no items and at least one otherwise |
| Paging.PagesCover | src/server/internal/handlers/annotation_management.go:630-636 | every page from 1 to the page count starts inside the list, and every page past it starts at or after its end |
| Paging.Offset | src/server/internal/services/book_service.go:270 | specified by Paging.PagesCover: each existing page starts inside the list and the page after the last starts at or past its end |
| Paging.CeilUnique | src/server/internal/handlers/search_handlers.go:162 | only one whole number satisfies the rounding-up bounds, so any two formulas meeting them agree |
| Paging.TotalPagesIsCeil | src/server/internal/handlers/search_handlers.go:162 | adding one less than the page size and dividing gives exactly the rounded-up page count |
| Paging.TotalPages | src/server/internal/handlers/search_handlers.go:162 | specified by Paging.TotalPagesIsCeil: the page count rounded up |
| Strings.Lower | src/server/internal/services/book_service.go:527 | lower-casing keeps the length and lowers each character in place |
| Strings.Trim | src/server/internal/services/text_extraction.go:234 | the trimmed text lies within the original, neither starts nor ends with a space, and is empty exactly when the text is all spaces |
| Strings.TrimIdempotent | src/server/internal/services/text_extraction.go:205 | trimming twice equals trimming once |
| Strings.Index | src/server/internal/services/text_extraction.go:216 | the first index at which the substring occurs, and none exactly when it does not occur |
| Strings.CountOccPositive | src/server/internal/handlers/search_handlers.go:765 | a non-empty term's count in a text is positive exactly when it occurs there |
| Strings.CountOccFits | src/server/internal/handlers/search_handlers.go:765 | non-overlapping occurrences of a non-empty term take at most the text's length |
| Strings.Fields | src/server/internal/services/text_extraction.go:239 | every field is a non-empty run of non-space characters |
| Strings.FieldsTrim | src/server/internal/services/text_extraction.go:234-239 | trimming a text first does not change its fields |
| Strings.FieldsEmptyIffBlank | src/server/internal/services/text_extraction.go:239 | a text has no fields exactly when it is all spaces |
| Strings.ReplaceAll | src/server/internal/services/text_extraction.go:204 | a text without the pattern is returned as it is |
| Strings.JoinSplit | src/device/core/TextPaginator.cpp:203-210 | splitting at a character and joining with it gives the text back |
| Strings.SplitJoin | src/device/core/TextPaginator.cpp:208-210 | parts without the separator, joined and split again, give the same parts |
| Strings.ParseInt | src/server/internal/utils/response.go:50 | a parsed number lies in the 64-bit signed range |
| Strings.ParseIntToString | src/server/internal/utils/response.go:50 | every 64-bit number written in decimal parses back to itself |
| Sorting.SortBySpec | src/frontend/src/components/annotations/AnnotationPanel.tsx:62-78 | the stable sort returns a permutation of the list, ordered by the key in the asked direction, with the items of each key in their original order |
| Sorting.SortByConstantKey | src/frontend/src/components/annotations/AnnotationPanel.tsx:63-77 | a comparator that finds everything equal leaves the list unchanged |
| Seqs.Find | src/frontend/src/components/annotations/AnnotationToolbar.tsx:52-62 | a found element is in the list and satisfies the test; none is found only when no element does |
| Seqs.FindFirst | src/frontend/src/components/annotations/AnnotationToolbar.tsx:52-56 | the element found is the first that satisfies the test |
| Seqs.FilterIdempotent | src/frontend/src/hooks/useAnnotations.ts:147 | filtering twice by the same test equals filtering once |
| AnnotationManagement.WithDefaultsSpec | src/server/internal/handlers/annotation_management.go:156-167 | a page of 0 or less becomes 1 and another is kept; a page size outside 1..100 becomes 20 and one inside is kept; an empty sort field becomes "date" and an empty sort order "desc"; the query and stats flag are kept, and a request already in range is unchanged |
| AnnotationManagement.WithDefaults | src/server/internal/handlers/annotation_management.go:156-167 | specified by AnnotationManagement.WithDefaultsSpec: a page below 1 becomes 1, a page size outside 1..100 becomes 20, empty sort fields become "date" and "desc", and the rest of the request is kept |
| AnnotationManagement.PaginationSpec | src/server/internal/handlers/annotation_management.go:630-638 | the page count is the ceiling of total over the page size; "has next" holds exactly when the next page's offset is below the total, "has previous" exactly when the page is past the first |
| AnnotationManagement.ListSpec | src/server/internal/handlers/annotation_management.go:156-187 | the listing reads between 1 and 100 rows from a non-negative offset; filter options come back exactly for a query-less request of the first page, statistics exactly when asked for |
| AnnotationManagement.List | src/server/internal/handlers/annotation_management.go:156-187 | specified by AnnotationManagement.ListSpec: the query's limit and offset come from the normalised page, filters are returned only on an unfiltered first page and statistics only when asked for |
| AnnotationManagement.CreateStatusSpec | src/server/internal/handlers/annotation_management.go:213-260 | creation answers 201 exactly when the type is highlight, note or bookmark, the book is in the user's library and both the insert and the reload succeed; another type answers 400, a book outside the library 403 |
| AnnotationManagement.CreateStatus | src/server/internal/handlers/annotation_management.go:213-260 | specified by AnnotationManagement.CreateStatusSpec: 400 for an unknown type, 403 for a book the user cannot reach, 201 only when the row is created and reloaded |
| AnnotationManagement.UpdateDataSpec | src/server/internal/handlers/annotation_management.go:304-316 | the update map holds content and color exactly when non-empty, tags and privacy exactly when sent, and no other key; it is empty exactly when nothing was sent |
| AnnotationManagement.ApplyUpdateSpec | src/server/internal/handlers/annotation_management.go:304-321 | applying the map sets each sent field and keeps every other one, so non-empty content can never be cleared |
| AnnotationManagement.UpdateSpec | src/server/internal/handlers/annotation_management.go:264-337 | the annotation changes only through a successful write of a non-empty map; 200 exactly when the id is given, the annotation found, the map non-empty and the save and reload succeed, and then the sent fields were written; an empty update of a found annotation answers 400 and changes nothing |
| AnnotationManagement.Update | src/server/internal/handlers/annotation_management.go:264-337 | specified by AnnotationManagement.UpdateSpec: the stored row changes only for a found id with a non-empty update that saves, and the reply is 200 exactly when it also reloads |
| AnnotationManagement.StringsOfSpec | src/server/internal/handlers/annotation_management.go:804-809 | the tag list holds exactly the string entries of the parameter, in their order, and as many as the parameter when every entry is a string |
| AnnotationManagement.TagStrings | src/server/internal/handlers/annotation_management.go:804-809 | the loop's list equals the string entries of the parameter in order |
| AnnotationManagement.OwnedCountSpec | src/server/internal/handlers/annotation_management.go:781-786 | the ownership count equals the number of ids exactly when the ids are distinct and all belong to the user |
| AnnotationManagement.RefusalSpec | src/server/internal/handlers/annotation_management.go:402-410 | no ids or more than 100 are refused; otherwise an id that is not the user's, or an id sent twice, refuses the whole request; otherwise only the action and its parameter decide, and only an action outside the four known ones is unsupported |
| AnnotationManagement.ToggleErrorsCount | src/server/internal/handlers/annotation_management.go:835-850 | the toggle loop records one error message per id that was not flipped |
| AnnotationManagement.FlipAllSpec | src/server/internal/handlers/annotation_management.go:833-850 | for distinct ids the loop flips privacy on exactly the ids whose update succeeded; every other annotation and the set of ids stored are unchanged |
| AnnotationManagement.Table.constructor | src/server/internal/handlers/annotation_management.go:775-778 | the table starts with the given rows |
| AnnotationManagement.Table.TogglePrivate | src/server/internal/handlers/annotation_management.go:833-850 | success counts the flipped ids, success plus failed is the number of ids, there is one error per failure, and the rows are those of the flip specification |
| AnnotationManagement.Table.ToggleOne | src/server/internal/handlers/annotation_management.go:836-849 | one id: a missing or unsaved annotation adds a failure and its message, a flipped one adds a success and flips that row only |
| AnnotationManagement.Table.BulkAction | src/server/internal/handlers/annotation_management.go:775-857 | a refused request answers its refusal and changes nothing; a delete, tag or colour update either writes every id and reports them all successful, or fails as a whole and changes nothing; toggle_private reports the loop's counts and errors |
| AnnotationManagement.Table.WriteAll | src/server/internal/handlers/annotation_management.go:791-831 | the rows after the single write equal the written-rows specification |
| AnnotationManagement.WrittenSpec | src/server/internal/handlers/annotation_management.go:791-831 | a delete removes exactly the ids and keeps every other row as it was; an update keeps the set of rows, touches only the ids and sets only the colour, or only the string tags |
| AnnotationManagement.Written | src/server/internal/handlers/annotation_management.go:791-831 | specified by AnnotationManagement.WrittenSpec: a bulk delete removes exactly the named rows, the other actions rewrite only the named rows' field and keep every key |
| AnnotationManagement.CsvRowSpec | src/server/internal/handlers/annotation_management.go:892-903 | every row has the header's nine fields; the page field reads back as the page number and the tags field is the tags joined by ", " |
| AnnotationManagement.CsvRow | src/server/internal/handlers/annotation_management.go:892-903 | specified by AnnotationManagement.CsvRowSpec: nine cells in header order, the page number as decimal text that parses back, the tags joined with a comma and a space |
| AnnotationManagement.ExportCsv | src/server/internal/handlers/annotation_management.go:887-904 | the records are the header followed by one nine-field row per annotation, in order |
| TextExtraction.DispatchSpec | src/server/internal/services/text_extraction.go:31-42 | exactly "pdf", "epub" and "txt" reach an extractor, each its own; every other type is refused with "unsupported file type: " followed by the type |
| TextExtraction.Dispatch | src/server/internal/services/text_extraction.go:31-42 | specified by TextExtraction.DispatchSpec: pdf, epub and txt each go to their own extractor and any other type is refused with its name in the message |
| TextExtraction.StripTagChars | src/server/internal/services/text_extraction.go:185-200 | the character loop's output equals the tag-stripping scan of the whole text |
| TextExtraction.ScanNoBrackets | src/server/internal/services/text_extraction.go:188-200 | the scan never writes '<' or '>' |
| TextExtraction.ScanPlain | src/server/internal/services/text_extraction.go:197-199 | outside a tag, text without brackets is copied unchanged and the scan stays outside |
| TextExtraction.ScanTag | src/server/internal/services/text_extraction.go:189-196 | a whole tag contributes nothing to the output, and the scan resumes outside it |
| TextExtraction.InsideTag | src/server/internal/services/text_extraction.go:193-197 | inside a tag everything up to the next '>' is dropped |
| TextExtraction.StrayClose | src/server/internal/services/text_extraction.go:193-196 | a '>' outside any tag is dropped and changes nothing else |
| TextExtraction.StripTagsSpec | src/server/internal/services/text_extraction.go:185-200 | the result holds no bracket, text without brackets is unchanged, and stripping twice equals stripping once |
| TextExtraction.NextCut | src/server/internal/services/text_extraction.go:216-226 | a cut, when there is one, is a non-empty range within the text |
| TextExtraction.CutPiece | src/server/internal/services/text_extraction.go:216-226 | a cut starts at the first case-insensitive occurrence of the opening tag and ends just after the first closing tag at or after that start; no earlier opening tag, and no closing tag between them, occurs |
| TextExtraction.CutFound | src/server/internal/services/text_extraction.go:216-226 | a cut found is the first opening tag in the lower-cased text and the first closing tag in the lower-cased rest after it, and ends just after that closing tag |
| TextExtraction.FirstAfter | src/server/internal/services/text_extraction.go:222 | the first occurrence in the text after a start is an occurrence in the whole text, with none between that start and it |
| TextExtraction.OccursShift | src/server/internal/services/text_extraction.go:222 | an occurrence in a suffix is exactly an occurrence in the whole text, shifted by where the suffix starts |
| TextExtraction.RemoveTagContent | src/server/internal/services/text_extraction.go:211-230 | the loop's text equals the removal specification |
| TextExtraction.FindCut | src/server/internal/services/text_extraction.go:216-224 | the two searches find the cut of the specification, or none |
| TextExtraction.RemoveTagSpec | src/server/internal/services/text_extraction.go:211-230 | the removal never lengthens the text, leaves no opening tag that has a closing tag after it, and removing again changes nothing |
| TextExtraction.RemoveTag | src/server/internal/services/text_extraction.go:211-230 | specified by TextExtraction.RemoveTagSpec and TextExtraction.RemoveTagAbsent: every element of the tag is cut out, nothing is added, a second pass changes nothing, and text without the tag is kept |
| TextExtraction.RemoveTagAbsent | src/server/internal/services/text_extraction.go:216-219 | a text without the opening tag, in any case, is returned unchanged |
| TextExtraction.StripHtmlTags | src/server/internal/services/text_extraction.go:179-208 | the function's result equals the stripping specification: scripts and styles removed, tags dropped, triple newlines shortened, spaces trimmed |
| TextExtraction.StripHtmlSpec | src/server/internal/services/text_extraction.go:179-208 | the stripped text holds no bracket and neither starts nor ends with white space |
| TextExtraction.StripHtml | src/server/internal/services/text_extraction.go:179-208 | specified by TextExtraction.StripHtmlSpec: the text has no angle brackets left and no leading or trailing white space |
| TextExtraction.OnePass | src/server/internal/services/text_extraction.go:204 | the newline shortening is a single pass: four newlines in a row come out as three |
| TextExtraction.CountWordsSpec | src/server/internal/services/text_extraction.go:233-241 | the word count is the number of white-space separated fields, and zero exactly when the text is blank |
| TextExtraction.CountWords | src/server/internal/services/text_extraction.go:233-241 | specified by TextExtraction.CountWordsSpec: the number of white-space separated fields, zero exactly for blank text |
| TextExtraction.ExtractTxtSpec | src/server/internal/services/text_extraction.go:158-176 | a readable file is extracted with its text unchanged, its field count as the word count and the ceiling of words over 500 as the page count, which is zero exactly when the text is blank |
| TextExtraction.ExtractTxt | src/server/internal/services/text_extraction.go:158-176 | specified by TextExtraction.ExtractTxtSpec: the file's text is kept as read, with its word count and a page count of words per page rounded up |
| BookModel.FileExtension | src/server/internal/models/book.go:146-161 | a stored file's extension is empty exactly for a type outside the six accepted ones, and otherwise starts with a dot |
| BookModel.ExtensionIsDottedType | src/server/internal/models/book.go:146-161 | an accepted type's extension is the type after a dot, except that "azw" is stored as ".azw3" |
| BookModel.ExtensionNamesType | src/server/internal/models/book.go:164-190 | two accepted types share an extension exactly when they are equal or are the two Kindle types, and then they share the MIME type too |
| BookModel.MimeType | src/server/internal/models/book.go:177-190 | the MIME type is never empty, and it is the octet-stream fallback exactly for a type outside the accepted six |
| BookModel.AssignId | src/server/internal/models/book.go:128-133 | the hook always leaves a non-nil ID: a book that already has one keeps it, and a nil ID becomes the generated one |
| BookModel.AssignIdIdempotent | src/server/internal/models/book.go:128-133 | running the hook a second time changes nothing, whatever ID it generates then |
| BookService.Ext | src/server/internal/services/book_service.go:527 | the extension is a suffix of the path that starts with a dot and holds no further dot and no slash; it is empty when there is none |
| BookService.ExtOfSuffix | src/server/internal/services/book_service.go:527 | a dotted suffix without dots or slashes is exactly the extension found on any stem it follows |
| BookService.Stem | src/server/internal/services/book_service.go:650 | the name without its extension, followed by the extension, is the name again |
| BookService.TypeOfExtension | src/server/internal/services/book_service.go:528-541 | exactly the six accepted extensions are detected, each as an accepted type other than "azw"; any other extension is reported back as it was |
| BookService.DetectThenExtension | src/server/internal/services/book_service.go:528-541 | the extension stored for a detected type is the detected extension, ".azw" becoming ".azw3" |
| BookService.ExtensionDetected | src/server/internal/services/book_service.go:528-541 | the extension stored for an accepted type is detected as that type, "azw" as "azw3" |
| BookService.ExtensionThenDetect | src/server/internal/services/book_service.go:526-542 | any file name ending in an accepted type's stored extension is detected as that type, whatever the case of the stem |
| BookService.DetectFileType | src/server/internal/services/book_service.go:526-542 | specified by BookService.TypeOfExtension and BookService.ExtensionThenDetect: the type is read from the lower-cased extension, `.azw` counts as `azw3`, and any other extension is refused |
| BookService.SanitizeFilename | src/server/internal/services/book_service.go:648-667 | the sanitized name is as long as the name without its extension, holds none of the ten unsafe characters, and differs from it only where it had one |
| BookService.SanitizeSafeStem | src/server/internal/services/book_service.go:648-667 | a name whose stem holds no unsafe character is returned as its stem |
| BookService.StoredNameIsOneElement | src/server/internal/services/book_service.go:81 | the stored file name holds no path separator, so it stays inside the user's directory |
| BookService.StoredName | src/server/internal/services/book_service.go:81 | specified by BookService.StoredNameIsOneElement and BookService.StoredNameRedetects: the stored file name is one path element and carries the detected type's extension |
| BookService.StoredNameRedetects | src/server/internal/services/book_service.go:72-81 | the stored file name is detected as the same type as the uploaded name |
| BookService.TagRunSpec | src/server/internal/services/book_service.go:595-627 | on success, the book is linked to every non-blank name in order and the tags created are among them in order; a failure names a non-blank tag of the request |
| BookService.TagRunSucceeds | src/server/internal/services/book_service.go:595-627 | when every lookup, creation and link succeeds, the run succeeds and links exactly the non-blank names |
| BookService.HandleBookTags | src/server/internal/services/book_service.go:595-627 | the loop's outcome equals the tag-run specification |
| BookService.TagRun | src/server/internal/services/book_service.go:595-627 | specified by BookService.TagRunSpec, BookService.TagRunSucceeds and BookService.TagRunAt: blank names are skipped, the first failing lookup, create or link stops the run with that name's error, and otherwise every non-blank name is linked and the absent ones created |
| BookService.UploadBook | src/server/internal/services/book_service.go:65-165 | an oversized file and an unsupported extension are refused first; the upload succeeds exactly when the type is detected and the directory, save, insert, tags and commit all succeed; the book then has the detected type, the stored file name, the type's MIME type, the given language or "en", the processing status and the file's size |
| BookService.OrderBy | src/server/internal/services/book_service.go:243-259 | the order clause is one of the allowed ones: a valid sort column with DESC exactly when "desc" was asked for, or the newest-first default |
| BookService.NormalPage | src/server/internal/services/book_service.go:263-265 | the page is at least 1, a page already at least 1 is kept and any other becomes 1 |
| BookService.NormalPerPage | src/server/internal/services/book_service.go:266-268 | the page size lies in 1..100, a size in range is kept and any other becomes 20 |
| BookService.NormalIdempotent | src/server/internal/services/book_service.go:263-268 | normalising a page or a page size twice equals normalising it once |
| BookService.BookFilter.constructor | src/server/internal/models/book.go:97-115 | the filter holds the given sort and paging fields |
| BookService.BookFilter.GetBooks | src/server/internal/services/book_service.go:236-287 | a failed count changes nothing; otherwise the filter's page and size are normalised, and a found page reports the total, the normalised page and size, the ceiling page count, the order clause, the offset and the limit |
| BookService.ListingCovers | src/server/internal/services/book_service.go:263-279 | after normalisation a page within the page count starts inside the results, and a page past it starts at or after the end |
| Response.SuccessResponse | src/server/internal/utils/response.go:19-26 | a success envelope always answers 200, is successful, carries the message and data given and no error |
| Response.ErrorResponse | src/server/internal/utils/response.go:29-41 | an error envelope answers the given status, is unsuccessful, carries the message and no data, and carries the error text exactly when an error was passed |
| Response.PaginatedSuccessResponse | src/server/internal/utils/response.go:95-105 | a paginated success answers 200 and carries the page together with its pagination figures |
| Response.EnvelopesDiffer | src/server/internal/utils/response.go:19-41 | no success envelope equals an error envelope |
| Response.GetIntQuery | src/server/internal/utils/response.go:44-63 | an absent or unparsable value gives the default as it is; a parsed value is clamped into the bounds, kept when inside them |
| Response.GetIntQueryRoundTrip | src/server/internal/utils/response.go:50 | an in-range 64-bit number written in decimal is read back unchanged |
| Response.ParseBool | src/server/internal/utils/response.go:72 | exactly the six true spellings read as true and the six false spellings as false; anything else is unparsable |
| Response.GetBoolQuery | src/server/internal/utils/response.go:66-78 | an absent or unparsable value gives the default, a parsed value is returned |
| Response.GetBoolQueryRoundTrip | src/server/internal/utils/response.go:72 | a formatted boolean is read back, whatever the default |
| LocalLlm.NewService | src/server/internal/services/local_llm_service.go:74-108 | the service's base URL and model are never empty: each is the configured text value or its default; the token limit and temperature are the configured values of the right kind, or their defaults |
| LocalLlm.EmptyConfig | src/server/internal/services/local_llm_service.go:74-108 | an empty configuration gives the default base URL, model, token limit and temperature and no API key |
| LocalLlm.BuildRequest | src/server/internal/services/local_llm_service.go:111-140 | the request names the service's model, is not streamed, carries the three stop tokens and the system context followed by the user question; a zero temperature or token limit is replaced by the service's, any other is kept |
| LocalLlm.DefaultsFillZeros | src/server/internal/services/local_llm_service.go:123-131 | with the default configuration the request never has a zero temperature or token limit |
| LocalLlm.Headers | src/server/internal/services/local_llm_service.go:162-165 | the content type is always set, and the bearer authorization is added exactly when there is an API key |
| LocalLlm.Try | src/server/internal/services/local_llm_service.go:156-201 | an endpoint answers exactly when the reply arrives with 200, decodes, carries no API error and has a choice; the answer is then the first choice's text with the reply's model, and the tokens used are the reply's total, 0 when it reports none; a failure names the endpoint |
| LocalLlm.FirstAnswerAnswered | src/server/internal/services/local_llm_service.go:155-218 | when some endpoint answers and none before it does, the result is that endpoint's answer |
| LocalLlm.FirstAnswerFails | src/server/internal/services/local_llm_service.go:155-221 | the call fails exactly when no endpoint answers, and then it reports the last endpoint's error |
| LocalLlm.FirstAnswer | src/server/internal/services/local_llm_service.go:155-221 | specified by LocalLlm.FirstAnswerAnswered and LocalLlm.FirstAnswerFails: the first endpoint that answers wins, and when none does the last endpoint's error is reported |
| LocalLlm.Ask | src/server/internal/services/local_llm_service.go:148-221 | trying the three endpoints in order gives the first-answer specification over the replies received |
| LocalLlm.ContextLength | src/server/internal/services/local_llm_service.go:288-305 | the context length is 4096 exactly when the name mentions 7b or 13b, or mentions 70b without 30b, in either case of b; otherwise it is 2048 |
| LocalLlm.ModelContextLength | src/server/internal/services/local_llm_service.go:288-305 | the checks in order give the context-length specification |
| LocalLlm.LowerHasSize | src/server/internal/services/local_llm_service.go:290-299 | a lowered name mentions a size with a lower-case b exactly when the name mentions it with either case of b |
| LocalLlm.ContextLengthIgnoresCase | src/server/internal/services/local_llm_service.go:288-305 | lowering the model name never changes its context length |
| LocalLlm.HasSubstring | src/server/internal/services/local_llm_service.go:308-315 | the prefix, suffix and scan shortcuts together find the substring exactly when it occurs |
| LocalLlm.ContainsEdges | src/server/internal/services/local_llm_service.go:308-315 | every string contains the empty one, and a substring as long as the string occurs exactly when they are equal |
| LocalLlm.ScanSubstring | src/server/internal/services/local_llm_service.go:318-325 | the scan finds the substring exactly when it occurs somewhere |

## Left out

- Persistence: SQL text, table creation, the database connection, and the export and import files on the device are not modelled. Each save, delete or load is an input saying whether it succeeded, or giving the rows it returned.
- Network and HTTP plumbing: the frontend's fetch calls, the gin context, routing, authentication and middleware are not modelled. Remote calls are inputs giving success or the returned record.
- Floating point: reading-progress ratios, scroll percentages, PDF zoom and font line-height metrics are outside the model. Coordinates and percentages are integers or reals, and the font's line height is a positive integer input.
- Text layout: `QTextLayout` wrapping and the paragraph-splitting regular expression are not modelled. The wrapped lines of each paragraph are an input.
- TextPaginator's `adjustForReadability` has an empty body, so it is not modelled.
- Case folding and white space are ASCII only. Lower-casing, `strings.Fields` and trimming on non-ASCII text are not modelled.
- Browser geometry is not modelled: DOM ranges, bounding rectangles, epub.js and react-pdf. Selections arrive as inputs with their offsets, rectangle or CFI.
- The overlays' random positions in the enhanced reader are not modelled.
- Local storage of reader settings is not modelled; the saved settings are an input.
- Native fullscreen exit on Escape is not modelled; only the reader's own flag is.
- Dates are integers (creation times compared as numbers). Time formatting in the CSV export is an input string.
- Async ordering is outside the model: each handler is one atomic step, and a `Promise.all` bulk operation either applies completely or not at all. Requests that partly succeed before another fails are not modelled.
- The annotations hook's by-month statistics are not modelled, and neither is the JSON export.
- The export query's construction is not modelled.
- CSV quoting and escaping are not modelled; a row is its list of fields.
- The reader's progress POST on location change is not modelled.
- The GORM queries of the server handlers are not modelled. Their answers are inputs: the user's live rows, the row counts and success flags.
- The PDF and EPUB text extractors are not modelled. They depend on foreign readers, and only their dispatch is modelled.
- The book service's `extractMetadata`, `processBookInBackground` and directory and path handling are not modelled. Neither are `GetBook`, `UpdateBook`, `DeleteBook` and `GetBookStats`, which are database queries.
- The local language-model client's `IsHealthy`, `GetCapabilities` and `GetProviderInfo`, JSON encoding and response timing are not modelled.
- The book engine's database, `loadBook`'s file reading, saving and loading progress, metadata tables and the stub operations that are still to be written are not modelled.
- AnnotationManager.AsString: a valid date-time reads as the empty string, where Qt 5's `QVariant::toString` gives its ISO 8601 text. That text depends on the local time zone, which the model does not have. `FromVariant` and `ApplyUpdates` inherit this for every text field (`fromVariant`, and `updateAnnotation`'s content and colour).
- AnnotationManager.AsDateTime: a date-time given as a string is not parsed and reads as the null date-time, so `fromVariant` and `updateAnnotation` do not model the ISO text form of a date-time.
- Qt signals are not modelled. The model has no observers, so it does not state when a signal is emitted or with what arguments. This covers `annotationCreated` and `annotationCountChanged` in AnnotationManager.Manager.CreateHighlight, CreateNote and CreateBookmark; `annotationDeleted` and `annotationCountChanged` in DeleteAnnotation; `annotationUpdated` in UpdateAnnotation; `annotationCountChanged` after loading, clearing and importing; `error` wherever it is raised; TextPaginator.Paginator's `paginationComplete` and `paginationProgress`; and BookEngine.Engine's `bookLoaded`, `textChanged`, `pageChanged` and `progressChanged` in OnPaginationComplete, SetCurrentPage, TurnPage and GoToPage.
- SearchHandlers.SnippetWithoutMatch: the 100-character cut counts characters, where Go's `len` and slicing count UTF-8 bytes. The two agree on ASCII text; on other text the model's cut can fall at a different place.
- SearchHandlers.Snippet: the 50-character margins and the 100-character head count characters, not Go's UTF-8 bytes. The same holds for SearchHandlers.SnippetAroundMatch, SearchHandlers.WindowBounds, SearchHandlers.GenerateSnippet and SearchHandlers.Cut.
- EnhancedReader.RecordSpec: the end position is the selected text's length in characters, where JavaScript's `.length` counts UTF-16 code units. They differ for characters outside the Basic Multilingual Plane.
- EnhancedReader.Record: inherits the unit of EnhancedReader.RecordSpec, so its end position counts characters, not UTF-16 code units.
- TextReader.Captured: the start offset and the length of a selection count characters, not JavaScript's UTF-16 code units.
- AnnotationPanel.Codes: type names compare in code-point order, where the panel's sort by type uses `localeCompare`. The two orders agree on lower-case ASCII names, such as the three annotation types, but not in general.
- AnnotationPanel.DisplaySpec: its sort by type uses the code-point order of AnnotationPanel.Codes, not `localeCompare`.
- AnnotationPanel.DisplayAnnotations: inherits that order from AnnotationPanel.DisplaySpec.
- Go's 64-bit integer overflow in offsets and page products is not modelled, because integers are unbounded here.
- LocalLlm.Endpoints: its contract states only that there are three endpoints. The URLs are given by its body and used only through `LocalLlm.Ask`.

## Findings

| source | as written | input that shows it | evidently intended | confidence | as-written member | corrected member |
|---|---|---|---|---|---|---|
| src/device/core/AnnotationManager.cpp:634-635 | the import writes each annotation with INSERT OR REPLACE and then appends it to the cache | importing an annotation whose id is already cached leaves two cached copies of that id, and the index points at the new one | the cache replaces the cached entry, as the database does | not executed | AnnotationManager.AppendCachedDuplicates | AnnotationManager.Manager.UpsertToCache |
