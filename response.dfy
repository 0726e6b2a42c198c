/** The server's response helpers: the envelope every JSON answer is
    wrapped in, and the reading of integer and boolean query parameters
    with defaults. A query parameter that is absent reads as "". */
module Response {
  import opened Wrappers
  import opened Strings

  const STATUS_OK := 200

  /** `APIResponse`; `data` and `error` are omitted from the JSON when
      absent. */
  datatype ApiResponse<T> = ApiResponse(success: bool, message: string, data: Option<T>, error: Option<string>)

  /** What the handler writes: a status code and the envelope. */
  datatype Reply<T> = Reply(status: int, body: ApiResponse<T>)

  /** `SuccessResponse`: always 200, always successful, never an error. */
  function SuccessResponse<T>(message: string, data: Option<T>): (r: Reply<T>)
    ensures r.status == STATUS_OK && r.body.success
    ensures r.body.message == message && r.body.data == data && r.body.error.None?
  {
    Reply(STATUS_OK, ApiResponse(true, message, data, None))
  }

  /** `ErrorResponse`: the given status, unsuccessful, no data, and the
      error text exactly when an error was passed. */
  function ErrorResponse<T>(status: int, message: string, err: Option<string>): (r: Reply<T>)
    ensures r.status == status && !r.body.success
    ensures r.body.message == message && r.body.data.None?
    ensures r.body.error.Some? <==> err.Some?
    ensures err.Some? ==> r.body.error.value == err.value
  {
    var response := ApiResponse(false, message, None, None);
    if err.Some? then Reply(status, response.(error := Some(err.value))) else Reply(status, response)
  }

  datatype Pagination = Pagination(page: int, perPage: int, total: int, totalPages: int)
  datatype Paginated<T> = Paginated(data: T, pagination: Pagination)

  /** `PaginatedSuccessResponse`: a success whose data carries the page
      and its pagination figures. */
  function PaginatedSuccessResponse<T>(message: string, data: T, pagination: Pagination): (r: Reply<Paginated<T>>)
    ensures r.status == STATUS_OK && r.body.success && r.body.error.None?
    ensures r.body.data == Some(Paginated(data, pagination))
  {
    SuccessResponse(message, Some(Paginated(data, pagination)))
  }

  /** The two helpers never produce the same envelope: `success` tells
      them apart. */
  lemma EnvelopesDiffer<T>(message: string, data: Option<T>, status: int, message2: string, err: Option<string>)
    ensures SuccessResponse(message, data).body != ErrorResponse<T>(status, message2, err).body
  {
  }

  // ------------------------------------------------------------ integers

  /** `GetIntQuery`: an absent or unparsable value gives the default, as it
      is; a parsed value is clamped into [min, max] (min winning should
      the bounds cross). */
  function GetIntQuery(raw: string, defaultValue: int, min: int, max: int): (r: int)
    ensures ParseInt(raw).None? ==> r == defaultValue
    ensures ParseInt(raw).Some? && min <= max ==> min <= r <= max
    ensures ParseInt(raw).Some? && min <= ParseInt(raw).value <= max ==> r == ParseInt(raw).value
    ensures ParseInt(raw).Some? && ParseInt(raw).value < min ==> r == min
    ensures ParseInt(raw).Some? && min <= ParseInt(raw).value && max < ParseInt(raw).value ==> r == max
  {
    if raw == "" then defaultValue
    else match ParseInt(raw)
      case None => defaultValue
      case Some(value) =>
        if value < min then min
        else if value > max then max
        else value
  }

  /** An in-range number written out in decimal is read back unchanged. */
  lemma GetIntQueryRoundTrip(i: int, defaultValue: int, min: int, max: int)
    requires MIN_INT64 <= i <= MAX_INT64 && min <= i <= max
    ensures GetIntQuery(IntToString(i), defaultValue, min, max) == i
  {
    ParseIntToString(i);
  }

  // ------------------------------------------------------------ booleans

  /** The spellings `strconv.ParseBool` accepts for each value. */
  const TRUE_WORDS: set<string> := {"1", "t", "T", "TRUE", "true", "True"}
  const FALSE_WORDS: set<string> := {"0", "f", "F", "FALSE", "false", "False"}

  /** `strconv.ParseBool`. */
  function ParseBool(s: string): (r: Option<bool>)
    ensures r == Some(true) <==> s in TRUE_WORDS
    ensures r == Some(false) <==> s in FALSE_WORDS
    ensures r.None? <==> s !in TRUE_WORDS + FALSE_WORDS
  {
    match s
    case "1" => Some(true)
    case "t" => Some(true)
    case "T" => Some(true)
    case "TRUE" => Some(true)
    case "true" => Some(true)
    case "True" => Some(true)
    case "0" => Some(false)
    case "f" => Some(false)
    case "F" => Some(false)
    case "FALSE" => Some(false)
    case "false" => Some(false)
    case "False" => Some(false)
    case _ => None
  }

  /** `strconv.FormatBool`. */
  function FormatBool(b: bool): string {
    if b then "true" else "false"
  }

  /** `GetBoolQuery`: an absent or unparsable value gives the default, a
      parsed one is returned. */
  function GetBoolQuery(raw: string, defaultValue: bool): (r: bool)
    ensures ParseBool(raw).None? ==> r == defaultValue
    ensures ParseBool(raw).Some? ==> r == ParseBool(raw).value
  {
    if raw == "" then defaultValue
    else match ParseBool(raw)
      case None => defaultValue
      case Some(value) => value
  }

  /** A boolean written by `FormatBool` is read back, whatever the
      default. */
  lemma GetBoolQueryRoundTrip(b: bool, defaultValue: bool)
    ensures GetBoolQuery(FormatBool(b), defaultValue) == b
  {
    assert FormatBool(b) in (if b then TRUE_WORDS else FALSE_WORDS);
  }
}
