/** The server's book record helpers: the file types a book may have, the
    extension and MIME type of each, and the ID assignment done just before
    a book is first saved. */
module BookModel {
  /** The six file types the library accepts. */
  const VALID_TYPES: set<string> := {"epub", "pdf", "txt", "mobi", "azw", "azw3"}

  /** The MIME type served for a file of unknown type. */
  const OCTET_STREAM := "application/octet-stream"

  /** `IsValidFileType`: membership in the table of accepted types. */
  predicate IsValidFileType(fileType: string) {
    fileType in VALID_TYPES
  }

  /** `Book.GetFileExtension`: the extension a stored file of this type
      gets; both Kindle types share ".azw3", and an unknown type gets none. */
  function FileExtension(fileType: string): (ext: string)
    ensures ext == "" <==> !IsValidFileType(fileType)
    ensures ext != "" ==> ext[0] == '.'
  {
    match fileType
    case "epub" => ".epub"
    case "pdf" => ".pdf"
    case "txt" => ".txt"
    case "mobi" => ".mobi"
    case "azw" => ".azw3"
    case "azw3" => ".azw3"
    case _ => ""
  }

  /** `GetMimeType`: the table's MIME type, or the octet-stream fallback. */
  function MimeType(fileType: string): (mime: string)
    ensures mime == OCTET_STREAM <==> !IsValidFileType(fileType)
    ensures mime != ""
  {
    match fileType
    case "epub" => "application/epub+zip"
    case "pdf" => "application/pdf"
    case "txt" => "text/plain"
    case "mobi" => "application/x-mobipocket-ebook"
    case "azw" => "application/vnd.amazon.ebook"
    case "azw3" => "application/vnd.amazon.ebook"
    case _ => OCTET_STREAM
  }

  /** The extension names the type: two valid types share an extension
      exactly when they are the two Kindle types or the same type, and
      then they share the MIME type too. */
  lemma ExtensionNamesType(a: string, b: string)
    requires IsValidFileType(a) && IsValidFileType(b)
    ensures FileExtension(a) == FileExtension(b) <==> a == b || {a, b} == {"azw", "azw3"}
    ensures FileExtension(a) == FileExtension(b) ==> MimeType(a) == MimeType(b)
  {
  }

  /** The extension is the type itself after a dot, except that "azw"
      is stored as ".azw3". */
  lemma ExtensionIsDottedType(fileType: string)
    requires IsValidFileType(fileType)
    ensures FileExtension(fileType) == "." + (if fileType == "azw" then "azw3" else fileType)
  {
  }

  /** Book IDs; the nil UUID is `NIL_ID`. */
  type Id = nat
  const NIL_ID: Id := 0

  /** `BeforeCreate`: a book without an ID receives the freshly generated
      one; a book that has one keeps it. */
  function AssignId(id: Id, generated: Id): (r: Id)
    requires generated != NIL_ID
    ensures r != NIL_ID
    ensures id == NIL_ID ==> r == generated
    ensures id != NIL_ID ==> r == id
  {
    if id == NIL_ID then generated else id
  }

  /** Running the hook again changes nothing, whatever ID it generates
      the second time. */
  lemma AssignIdIdempotent(id: Id, first: Id, second: Id)
    requires first != NIL_ID && second != NIL_ID
    ensures AssignId(AssignId(id, first), second) == AssignId(id, first)
  {
  }
}
