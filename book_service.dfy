/** The server's book service: recognising an uploaded file's type from
    its name, the name the file is stored under, the checks and steps of an
    upload, linking a book to its tags, and the sorting and paging of the
    library listing. The file system and the database are not modelled:
    their answers (a directory that could not be made, a save or a commit
    that failed, whether a tag exists) are inputs. */
module BookService {
  import opened Wrappers
  import opened Strings
  import opened Seqs
  import opened Paging
  import opened BookModel

  // ------------------------------------------------------ file name parts

  /** `filepath.Ext` on a slash-separated path: the suffix from the last
      dot of the final path element, or "" when that element has no dot. */
  function Ext(path: string): (e: string)
    ensures |e| <= |path| && e == path[|path| - |e|..]
    ensures e != "" ==> e[0] == '.'
    ensures forall i :: 1 <= i < |e| ==> e[i] != '.'
    ensures forall i :: 0 <= i < |e| ==> e[i] != '/'
    decreases |path|
  {
    if |path| == 0 || path[|path| - 1] == '/' then ""
    else if path[|path| - 1] == '.' then "."
    else
      var e := Ext(path[..|path| - 1]);
      if e == "" then "" else e + [path[|path| - 1]]
  }

  /** A dot followed by characters that are neither dots nor slashes is
      recognised as the extension of any path it ends. */
  lemma {:induction false} ExtOfSuffix(stem: string, ext: string)
    requires |ext| > 0 && ext[0] == '.'
    requires forall i :: 1 <= i < |ext| ==> ext[i] != '.' && ext[i] != '/'
    ensures Ext(stem + ext) == ext
    decreases |ext|
  {
    var path := stem + ext;
    if |ext| > 1 {
      var front := ext[..|ext| - 1];
      assert path[..|path| - 1] == stem + front;
      ExtOfSuffix(stem, front);
      assert ext == front + [path[|path| - 1]];
    }
  }

  /** `strings.TrimSuffix(filename, filepath.Ext(filename))`. */
  function Stem(filename: string): (r: string)
    ensures filename == r + Ext(filename)
  {
    filename[..|filename| - |Ext(filename)|]
  }

  // ------------------------------------------------------- file type

  /** The outcome of `detectFileType`. */
  datatype Detection = Detected(fileType: string) | UnsupportedExtension(ext: string)

  /** The type a lower-cased extension stands for. */
  function TypeOfExtension(ext: string): (r: Detection)
    ensures r.Detected? ==> IsValidFileType(r.fileType) && r.fileType != "azw"
    ensures r.UnsupportedExtension? ==> r.ext == ext
    ensures r.Detected? <==> ext in {".epub", ".pdf", ".txt", ".mobi", ".azw", ".azw3"}
  {
    if ext == ".epub" then Detected("epub")
    else if ext == ".pdf" then Detected("pdf")
    else if ext == ".txt" then Detected("txt")
    else if ext == ".mobi" then Detected("mobi")
    else if ext == ".azw" || ext == ".azw3" then Detected("azw3")
    else UnsupportedExtension(ext)
  }

  /** `detectFileType`: the lower-cased extension decides the type; ".azw"
      and ".azw3" both give "azw3", any other extension is refused. */
  function DetectFileType(filename: string): Detection {
    TypeOfExtension(Lower(Ext(filename)))
  }

  /** Detection followed by `GetFileExtension` gives back the lower-cased
      extension, except that ".azw" comes back as ".azw3". */
  lemma DetectThenExtension(ext: string)
    requires TypeOfExtension(ext).Detected?
    ensures FileExtension(TypeOfExtension(ext).fileType) == if ext == ".azw" then ".azw3" else ext
  {
  }

  predicate NoUpper(s: string) {
    forall i :: 0 <= i < |s| ==> !('A' <= s[i] <= 'Z')
  }

  lemma LowerNoUpper(s: string)
    requires NoUpper(s)
    ensures Lower(s) == s
  {
  }

  /** Every extension is a dot and lower-case letters or digits. */
  lemma ExtensionChars(fileType: string)
    requires IsValidFileType(fileType)
    ensures var e := FileExtension(fileType);
      |e| > 1 && e[0] == '.' && forall i :: 1 <= i < |e| ==> 'a' <= e[i] <= 'z' || '0' <= e[i] <= '9'
  {
    if fileType == "epub" {
      assert FileExtension(fileType) == ".epub";
    } else if fileType == "pdf" {
      assert FileExtension(fileType) == ".pdf";
    } else if fileType == "txt" {
      assert FileExtension(fileType) == ".txt";
    } else if fileType == "mobi" {
      assert FileExtension(fileType) == ".mobi";
    } else {
      assert FileExtension(fileType) == ".azw3";
    }
  }

  /** Each type's own extension is recognised as that type. */
  lemma ExtensionDetected(fileType: string)
    requires IsValidFileType(fileType)
    ensures TypeOfExtension(FileExtension(fileType)) == Detected(if fileType == "azw" then "azw3" else fileType)
  {
    if fileType == "epub" {
      assert FileExtension(fileType) == ".epub";
    } else if fileType == "pdf" {
      assert FileExtension(fileType) == ".pdf";
    } else if fileType == "txt" {
      assert FileExtension(fileType) == ".txt";
    } else if fileType == "mobi" {
      assert FileExtension(fileType) == ".mobi";
    } else {
      assert FileExtension(fileType) == ".azw3";
    }
  }

  /** A name ending in a type's extension is detected as that type, with
      "azw" read back as "azw3". */
  lemma ExtensionThenDetect(stem: string, fileType: string)
    requires IsValidFileType(fileType)
    ensures DetectFileType(stem + FileExtension(fileType)) ==
      Detected(if fileType == "azw" then "azw3" else fileType)
  {
    var ext := FileExtension(fileType);
    ExtensionChars(fileType);
    ExtOfSuffix(stem, ext);
    assert NoUpper(ext);
    LowerNoUpper(ext);
    assert DetectFileType(stem + ext) == TypeOfExtension(ext);
    ExtensionDetected(fileType);
  }

  // --------------------------------------------------- stored file name

  /** The ten characters `sanitizeFilename` replaces. */
  const UNSAFE: set<char> := {' ', '/', '\\', ':', '*', '?', '"', '<', '>', '|'}

  function SanitizeChar(c: char): char {
    if c in UNSAFE then '_' else c
  }

  /** `sanitizeFilename`: the name without its extension, with each
      unsafe character replaced by '_'. */
  function SanitizeFilename(filename: string): (r: string)
    ensures |r| == |Stem(filename)|
    ensures forall i :: 0 <= i < |r| ==> r[i] !in UNSAFE
    ensures forall i :: 0 <= i < |r| ==> r[i] == Stem(filename)[i] || Stem(filename)[i] in UNSAFE
  {
    Map(Stem(filename), SanitizeChar)
  }

  /** A stem with nothing to replace is kept as it is. */
  lemma SanitizeSafeStem(filename: string)
    requires forall i :: 0 <= i < |Stem(filename)| ==> Stem(filename)[i] !in UNSAFE
    ensures SanitizeFilename(filename) == Stem(filename)
  {
  }

  /** The name an upload is stored under: book ID, '_', sanitised stem and
      the type's extension. */
  function StoredName(id: string, filename: string, fileType: string): string {
    id + "_" + SanitizeFilename(filename) + FileExtension(fileType)
  }

  /** The stored name is a single path element whatever the uploaded name
      holds: it has no slash or backslash when the ID has none. */
  lemma StoredNameIsOneElement(id: string, filename: string, fileType: string)
    requires '/' !in id && '\\' !in id
    ensures '/' !in StoredName(id, filename, fileType)
    ensures '\\' !in StoredName(id, filename, fileType)
  {
    var s := SanitizeFilename(filename);
    var ext := FileExtension(fileType);
    assert forall i :: 0 <= i < |s| ==> s[i] != '/' && s[i] != '\\';
    if IsValidFileType(fileType) {
      ExtensionChars(fileType);
      assert forall i :: 0 <= i < |ext| ==> ext[i] != '/' && ext[i] != '\\';
    }
    assert '/' !in s && '\\' !in s && '/' !in ext && '\\' !in ext;
    assert StoredName(id, filename, fileType) == id + "_" + s + ext;
  }

  /** The stored file is detected as the same type as the upload. */
  lemma StoredNameRedetects(id: string, filename: string)
    requires DetectFileType(filename).Detected?
    ensures var t := DetectFileType(filename).fileType;
      DetectFileType(StoredName(id, filename, t)) == Detected(t)
  {
    var t := DetectFileType(filename).fileType;
    ExtensionThenDetect(id + "_" + SanitizeFilename(filename), t);
  }

  // ------------------------------------------------------------- tags

  /** The database's answers while linking one tag: whether the lookup
      found it, missed it or failed, whether creating it succeeded, and
      whether inserting the link succeeded. */
  datatype TagLookup = Existing | Absent | LookupFailed
  datatype TagStep = TagStep(lookup: TagLookup, createOk: bool, linkOk: bool)

  datatype TagErrorKind = CreateTagFailed | FindTagFailed | LinkTagFailed
  datatype TagError = TagError(kind: TagErrorKind, name: string)

  /** The tags linked and, among them, the tags created; or the first
      error, which aborts the upload. */
  datatype TagOutcome = TagsLinked(linked: seq<string>, created: seq<string>) | TagsFailed(error: TagError)

  /** The error one non-blank tag runs into, if any. */
  function StepError(name: string, step: TagStep): Option<TagError> {
    match step.lookup
    case LookupFailed => Some(TagError(FindTagFailed, name))
    case Absent =>
      if !step.createOk then Some(TagError(CreateTagFailed, name))
      else if !step.linkOk then Some(TagError(LinkTagFailed, name))
      else None
    case Existing =>
      if !step.linkOk then Some(TagError(LinkTagFailed, name)) else None
  }

  /** `outcome` after the tags in `linked` and `created` were already
      handled. */
  function After(linked: seq<string>, created: seq<string>, outcome: TagOutcome): TagOutcome {
    match outcome
    case TagsLinked(l, c) => TagsLinked(linked + l, created + c)
    case TagsFailed(e) => outcome
  }

  /** `handleBookTags`: blank names are skipped, every other name is found
      or created and then linked, and the first failure stops the run. */
  function TagRun(names: seq<string>, steps: seq<TagStep>): TagOutcome
    requires |steps| == |names|
    decreases |names|
  {
    if |names| == 0 then TagsLinked([], [])
    else if IsBlank(names[0]) then TagRun(names[1..], steps[1..])
    else match StepError(names[0], steps[0])
      case Some(e) => TagsFailed(e)
      case None =>
        After([names[0]], if steps[0].lookup == Absent then [names[0]] else [], TagRun(names[1..], steps[1..]))
  }

  predicate NonBlank(s: string) {
    !IsBlank(s)
  }

  /** A run that succeeds links exactly the non-blank names, in order,
      and creates only names it links; a run that fails names a non-blank
      tag of the request. */
  lemma {:induction false} TagRunSpec(names: seq<string>, steps: seq<TagStep>)
    requires |steps| == |names|
    ensures TagRun(names, steps).TagsLinked? ==> TagRun(names, steps).linked == Filter(names, NonBlank)
    ensures TagRun(names, steps).TagsLinked? ==> IsSubsequence(TagRun(names, steps).created, TagRun(names, steps).linked)
    ensures TagRun(names, steps).TagsFailed? ==>
      TagRun(names, steps).error.name in names && !IsBlank(TagRun(names, steps).error.name)
    decreases |names|
  {
    if |names| > 0 {
      TagRunSpec(names[1..], steps[1..]);
      var rest := TagRun(names[1..], steps[1..]);
      if !IsBlank(names[0]) && StepError(names[0], steps[0]).None? && rest.TagsLinked? {
        var c := if steps[0].lookup == Absent then [names[0]] else [];
        SubsequenceCons(names[0], c, rest.created, rest.linked);
      }
    }
  }

  /** Prefixing the same element keeps a subsequence; prefixing it to the
      longer side only also does. */
  lemma SubsequenceCons(x: string, c: seq<string>, r: seq<string>, s: seq<string>)
    requires IsSubsequence(r, s)
    requires c == [] || c == [x]
    ensures IsSubsequence(c + r, [x] + s)
  {
    assert ([x] + s)[1..] == s;
    if c == [x] {
      assert (c + r)[1..] == r;
    } else {
      assert c + r == r;
      SubsequenceDropHead(r, [x] + s);
    }
  }

  /** When the database answers every step well, every non-blank tag gets
      linked. */
  lemma {:induction false} TagRunSucceeds(names: seq<string>, steps: seq<TagStep>)
    requires |steps| == |names|
    requires forall i :: 0 <= i < |steps| ==> steps[i].lookup != LookupFailed && steps[i].createOk && steps[i].linkOk
    ensures TagRun(names, steps).TagsLinked? && TagRun(names, steps).linked == Filter(names, NonBlank)
    decreases |names|
  {
    if |names| > 0 {
      TagRunSucceeds(names[1..], steps[1..]);
    }
  }

  /** One step of `TagRun` at position `i`. */
  lemma TagRunAt(names: seq<string>, steps: seq<TagStep>, i: nat)
    requires |steps| == |names| && i < |names|
    ensures TagRun(names[i..], steps[i..]) ==
      if IsBlank(names[i]) then TagRun(names[i + 1..], steps[i + 1..])
      else match StepError(names[i], steps[i])
        case Some(e) => TagsFailed(e)
        case None =>
          After([names[i]], if steps[i].lookup == Absent then [names[i]] else [], TagRun(names[i + 1..], steps[i + 1..]))
  {
    assert names[i..][1..] == names[i + 1..] && steps[i..][1..] == steps[i + 1..];
  }

  lemma AfterAfter(l: seq<string>, c: seq<string>, l2: seq<string>, c2: seq<string>, o: TagOutcome)
    ensures After(l, c, After(l2, c2, o)) == After(l + l2, c + c2, o)
  {
    if o.TagsLinked? {
      assert l + (l2 + o.linked) == (l + l2) + o.linked;
      assert c + (c2 + o.created) == (c + c2) + o.created;
    }
  }

  /** The loop of `handleBookTags`, proved to compute `TagRun`. */
  method HandleBookTags(names: seq<string>, steps: seq<TagStep>) returns (outcome: TagOutcome)
    requires |steps| == |names|
    ensures outcome == TagRun(names, steps)
  {
    var linked: seq<string> := [];
    var created: seq<string> := [];
    var i := 0;
    while i < |names|
      invariant 0 <= i <= |names|
      invariant TagRun(names, steps) == After(linked, created, TagRun(names[i..], steps[i..]))
    {
      TagRunAt(names, steps, i);
      if IsBlank(names[i]) {
        i := i + 1;
        continue;
      }
      var e := StepError(names[i], steps[i]);
      if e.Some? {
        return TagsFailed(e.value);
      }
      var c := if steps[i].lookup == Absent then [names[i]] else [];
      AfterAfter(linked, created, [names[i]], c, TagRun(names[i + 1..], steps[i + 1..]));
      linked := linked + [names[i]];
      created := created + c;
      i := i + 1;
    }
    assert names[i..] == [];
    outcome := TagsLinked(linked, created);
  }

  // ----------------------------------------------------------- upload

  const DEFAULT_LANGUAGE := "en"
  const STATUS_PROCESSING := "processing"

  datatype UploadRequest = UploadRequest(
    title: string,
    author: string,
    language: string,
    tags: seq<string>,
    isPublic: bool)

  /** The answers of the file system and the database during an upload,
      one tag step per requested tag. */
  datatype UploadIo = UploadIo(
    dirOk: bool,
    saveOk: bool,
    createOk: bool,
    tagSteps: seq<TagStep>,
    commitOk: bool)

  datatype UploadError =
    | FileTooLarge(size: int, maxSize: int)
    | UnsupportedType(ext: string)
    | DirectoryFailed
    | SaveFailed
    | DatabaseFailed
    | TagsRejected(error: TagError)
    | CommitFailed

  datatype NewBook = NewBook(
    id: string,
    title: string,
    author: string,
    fileName: string,
    fileType: string,
    mimeType: string,
    fileSize: int,
    language: string,
    status: string,
    isPublic: bool)

  datatype Upload = Uploaded(book: NewBook) | UploadFailed(error: UploadError)

  /** `UploadBook`: the size check comes first, then the type; the file
      is stored under `StoredName`, the record starts as "processing" with
      the language defaulting to "en", and a failed write, tag or commit
      aborts the upload. */
  function UploadBook(id: string, size: int, maxSize: int, filename: string, req: UploadRequest, io: UploadIo): (r: Upload)
    requires |io.tagSteps| == |req.tags|
    ensures size > maxSize ==> r == UploadFailed(FileTooLarge(size, maxSize))
    ensures size <= maxSize && DetectFileType(filename).UnsupportedExtension? ==>
      r == UploadFailed(UnsupportedType(Lower(Ext(filename))))
    ensures r.Uploaded? <==>
      size <= maxSize && DetectFileType(filename).Detected? && io.dirOk && io.saveOk && io.createOk &&
      TagRun(req.tags, io.tagSteps).TagsLinked? && io.commitOk
    ensures r.Uploaded? ==>
      DetectFileType(filename) == Detected(r.book.fileType) &&
      r.book.fileName == StoredName(id, filename, r.book.fileType) &&
      r.book.mimeType == MimeType(r.book.fileType) && r.book.mimeType != OCTET_STREAM &&
      r.book.language != "" && (req.language != "" ==> r.book.language == req.language) &&
      r.book.status == STATUS_PROCESSING && r.book.fileSize == size
  {
    if size > maxSize then UploadFailed(FileTooLarge(size, maxSize))
    else match DetectFileType(filename)
      case UnsupportedExtension(ext) => UploadFailed(UnsupportedType(ext))
      case Detected(fileType) =>
        if !io.dirOk then UploadFailed(DirectoryFailed)
        else if !io.saveOk then UploadFailed(SaveFailed)
        else
          var book := NewBook(id, req.title, req.author, StoredName(id, filename, fileType), fileType,
            MimeType(fileType), size, if req.language == "" then DEFAULT_LANGUAGE else req.language,
            STATUS_PROCESSING, req.isPublic);
          if !io.createOk then UploadFailed(DatabaseFailed)
          else if |req.tags| > 0 && TagRun(req.tags, io.tagSteps).TagsFailed? then
            UploadFailed(TagsRejected(TagRun(req.tags, io.tagSteps).error))
          else if !io.commitOk then UploadFailed(CommitFailed)
          else Uploaded(book)
  }

  // --------------------------------------------------------- listing

  const MAX_PER_PAGE := 100
  const DEFAULT_PER_PAGE := 20
  const DEFAULT_ORDER := "created_at DESC"

  /** The columns a listing may be sorted by. */
  const VALID_SORTS: set<string> := {"title", "author", "created_at", "updated_at", "file_size"}

  /** Every ORDER BY clause the listing can produce. */
  const ORDER_CLAUSES: set<string> :=
    set field, dir | field in VALID_SORTS && dir in {"ASC", "DESC"} :: field + " " + dir

  /** The ORDER BY clause of `GetBooks`: a whitelisted column, descending
      only for "desc"; anything else sorts by newest first. */
  function OrderBy(sortBy: string, sortOrder: string): (r: string)
    ensures r in ORDER_CLAUSES
    ensures sortBy in VALID_SORTS ==> r == sortBy + " " + (if sortOrder == "desc" then "DESC" else "ASC")
    ensures sortBy !in VALID_SORTS ==> r == DEFAULT_ORDER
  {
    if sortBy != "" && sortBy in VALID_SORTS then
      sortBy + " " + (if sortOrder == "desc" then "DESC" else "ASC")
    else
      assert DEFAULT_ORDER == "created_at" + " " + "DESC";
      DEFAULT_ORDER
  }

  /** Page numbers start at 1. */
  function NormalPage(page: int): (r: int)
    ensures r >= 1
    ensures page >= 1 ==> r == page
    ensures page < 1 ==> r == 1
  {
    if page < 1 then 1 else page
  }

  /** A page size outside 1..100 is replaced by the default 20, not
      clamped. */
  function NormalPerPage(perPage: int): (r: int)
    ensures 1 <= r <= MAX_PER_PAGE
    ensures 1 <= perPage <= MAX_PER_PAGE ==> r == perPage
    ensures !(1 <= perPage <= MAX_PER_PAGE) ==> r == DEFAULT_PER_PAGE
  {
    if perPage < 1 || perPage > MAX_PER_PAGE then DEFAULT_PER_PAGE else perPage
  }

  /** Normalising a normalised request changes nothing. */
  lemma NormalIdempotent(page: int, perPage: int)
    ensures NormalPage(NormalPage(page)) == NormalPage(page)
    ensures NormalPerPage(NormalPerPage(perPage)) == NormalPerPage(perPage)
  {
  }

  datatype SearchError = CountFailed | FindFailed

  /** The listing's query shape and page figures (the rows themselves
      come from the database). */
  datatype Search =
    | Found(total: nat, page: int, perPage: int, totalPages: int, orderBy: string, offset: int, limit: int)
    | SearchFailed(error: SearchError)

  /** `BookFilter`, whose page fields `GetBooks` normalises in place. */
  class BookFilter {
    var sortBy: string
    var sortOrder: string
    var page: int
    var perPage: int

    constructor (sortBy: string, sortOrder: string, page: int, perPage: int)
      ensures this.sortBy == sortBy && this.sortOrder == sortOrder
      ensures this.page == page && this.perPage == perPage
    {
      this.sortBy := sortBy;
      this.sortOrder := sortOrder;
      this.page := page;
      this.perPage := perPage;
    }

    /** `GetBooks`: a failed count returns before the filter is touched;
        otherwise the filter's page fields are normalised in place and the
        page is read at `Offset(page, perPage)` with `perPage` rows. */
    method GetBooks(total: nat, countOk: bool, findOk: bool) returns (r: Search)
      modifies this`page, this`perPage
      ensures !countOk ==> r == SearchFailed(CountFailed) && page == old(page) && perPage == old(perPage)
      ensures countOk ==> page == NormalPage(old(page)) && perPage == NormalPerPage(old(perPage))
      ensures countOk && !findOk ==> r == SearchFailed(FindFailed)
      ensures countOk && findOk ==>
        r == Found(total, page, perPage, CeilDiv(total, perPage), OrderBy(sortBy, sortOrder), Offset(page, perPage), perPage)
    {
      if !countOk {
        return SearchFailed(CountFailed);
      }
      var orderBy := OrderBy(sortBy, sortOrder);
      if page < 1 {
        page := 1;
      }
      if perPage < 1 || perPage > MAX_PER_PAGE {
        perPage := DEFAULT_PER_PAGE;
      }
      var offset := (page - 1) * perPage;
      if !findOk {
        return SearchFailed(FindFailed);
      }
      TotalPagesIsCeil(total, perPage);
      r := Found(total, page, perPage, TotalPages(total, perPage), orderBy, offset, perPage);
    }
  }

  /** The pages of a successful listing cover the matching books: page 1
      through `totalPages` start inside the list, later pages past its end. */
  lemma ListingCovers(total: nat, page: int, perPage: int)
    ensures var p := NormalPage(page); var n := NormalPerPage(perPage);
      (p <= CeilDiv(total, n) ==> Offset(p, n) < total) &&
      (p > CeilDiv(total, n) ==> Offset(p, n) >= total)
  {
    PagesCover(total, NormalPerPage(perPage), NormalPage(page));
  }
}
