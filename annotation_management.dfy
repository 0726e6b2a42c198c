/** The server's annotation-management handlers: the defaults and page
    arithmetic of the advanced listing, the type check of creation, the
    partial update, the bulk actions over a user's annotations (with the
    per-annotation `toggle_private` loop) and the rows of the CSV export.
    The user's live annotations are a map from id to stored fields; the
    database's answers (a lookup that fails, a write that fails) are
    inputs. */
module AnnotationManagement {
  import opened Wrappers
  import opened Strings
  import opened Seqs
  import opened Paging

  // --------------------------------------------------------------- listing

  const MAX_PER_PAGE := 100
  const DEFAULT_PER_PAGE := 20

  /** The listing parameters that the handler itself interprets. */
  datatype FilterRequest = FilterRequest(
    query: string,
    page: int,
    perPage: int,
    sortBy: string,
    sortOrder: string,
    includeStats: bool)

  /** `GetAnnotationsAdvanced`'s defaults. */
  function WithDefaults(r: FilterRequest): FilterRequest {
    r.(page := if r.page <= 0 then 1 else r.page,
       perPage := if r.perPage <= 0 || r.perPage > MAX_PER_PAGE then DEFAULT_PER_PAGE else r.perPage,
       sortBy := if r.sortBy == "" then "date" else r.sortBy,
       sortOrder := if r.sortOrder == "" then "desc" else r.sortOrder)
  }

  predicate Normal(r: FilterRequest) {
    r.page >= 1 && 1 <= r.perPage <= MAX_PER_PAGE && r.sortBy != "" && r.sortOrder != ""
  }

  /** After the defaults the request is in range; every parameter already
      in range is kept, and so is the query; a page below 1 becomes 1, a
      page size outside 1 to 100 becomes 20, and an empty sort field and
      order become "date" and "desc". */
  lemma WithDefaultsSpec(r: FilterRequest)
    ensures Normal(WithDefaults(r))
    ensures Normal(r) ==> WithDefaults(r) == r
    ensures WithDefaults(r).query == r.query && WithDefaults(r).includeStats == r.includeStats
    ensures r.page >= 1 ==> WithDefaults(r).page == r.page
    ensures 1 <= r.perPage <= MAX_PER_PAGE ==> WithDefaults(r).perPage == r.perPage
    ensures r.page <= 0 ==> WithDefaults(r).page == 1
    ensures !(1 <= r.perPage <= MAX_PER_PAGE) ==> WithDefaults(r).perPage == DEFAULT_PER_PAGE
    ensures WithDefaults(r).sortBy == if r.sortBy == "" then "date" else r.sortBy
    ensures WithDefaults(r).sortOrder == if r.sortOrder == "" then "desc" else r.sortOrder
  {
  }

  /** The pagination block of a listing. */
  datatype Pagination = Pagination(page: int, perPage: int, total: nat, totalPages: int, hasNext: bool, hasPrev: bool)

  function MakePagination(page: int, perPage: int, total: nat): Pagination
    requires perPage > 0
  {
    var totalPages := TotalPages(total, perPage);
    Pagination(page, perPage, total, totalPages, page < totalPages, page > 1)
  }

  /** The page count is the ceiling of total / perPage; "has next" holds
      exactly when the next page would hold rows, and "has previous"
      exactly when the page is not the first. */
  lemma PaginationSpec(page: int, perPage: int, total: nat)
    requires page >= 1 && perPage > 0
    ensures MakePagination(page, perPage, total).totalPages == CeilDiv(total, perPage)
    ensures MakePagination(page, perPage, total).hasNext <==> Offset(page + 1, perPage) < total
    ensures MakePagination(page, perPage, total).hasPrev <==> page > 1
  {
    TotalPagesIsCeil(total, perPage);
    PagesCover(total, perPage, page + 1);
  }

  /** What a listing asks of the database and what it sends back besides
      the annotations. */
  datatype Listing = Listing(offset: int, limit: int, pagination: Pagination, withFilters: bool, withStats: bool)

  /** The listing of `raw` when the count query reports `total` rows. */
  function List(raw: FilterRequest, total: nat): Listing {
    var r := WithDefaults(raw);
    WithDefaultsSpec(raw);
    Listing(Offset(r.page, r.perPage), r.perPage, MakePagination(r.page, r.perPage, total),
            r.query == "" && r.page == 1, r.includeStats)
  }

  /** The listing reads at most 100 rows from a non-negative offset; the
      filter options come back only for a query-less request of the first
      page (a missing or non-positive page counts as the first), and the
      statistics only when asked for. */
  lemma ListSpec(raw: FilterRequest, total: nat)
    ensures 1 <= List(raw, total).limit <= MAX_PER_PAGE && List(raw, total).offset >= 0
    ensures List(raw, total).withFilters <==> raw.query == "" && raw.page <= 1
    ensures List(raw, total).withStats <==> raw.includeStats
    ensures List(raw, total).pagination.page >= 1
  {
    var r := WithDefaults(raw);
    WithDefaultsSpec(raw);
    assert Offset(r.page, r.perPage) == (r.page - 1) * r.perPage;
  }

  // -------------------------------------------------------------- creation

  const AVAILABLE_TYPES := ["highlight", "note", "bookmark"]

  predicate ValidType(t: string) {
    t == "highlight" || t == "note" || t == "bookmark"
  }

  /** The answer of a GORM `First`: the row, `ErrRecordNotFound`, or any
      other error. */
  datatype Lookup = Found | NotFound | LookupFailed

  /** The status `CreateAnnotationEnhanced` answers with, given whether the
      book is in the user's library, whether the insert succeeded and
      whether the reload succeeded. */
  function CreateStatus(kind: string, access: Lookup, created: bool, reloaded: bool): int {
    if !ValidType(kind) then 400
    else if access == NotFound then 403
    else if access == LookupFailed then 500
    else if !created then 500
    else if !reloaded then 500
    else 201
  }

  /** Creation succeeds exactly for one of the three types, on a book of
      the user's library, when both writes succeed; any other type is
      refused before the database is consulted. */
  lemma CreateStatusSpec(kind: string, access: Lookup, created: bool, reloaded: bool)
    ensures CreateStatus(kind, access, created, reloaded) == 201 <==>
      kind in AVAILABLE_TYPES && access == Found && created && reloaded
    ensures kind !in AVAILABLE_TYPES ==> CreateStatus(kind, access, created, reloaded) == 400
    ensures kind in AVAILABLE_TYPES && access == NotFound ==> CreateStatus(kind, access, created, reloaded) == 403
  {
  }

  // ---------------------------------------------------------------- update

  /** The fields of a stored annotation that an update can change. */
  datatype Stored = Stored(content: string, color: string, tags: seq<string>, isPrivate: bool)

  datatype UpdateRequest = UpdateRequest(content: string, color: string, tags: Option<seq<string>>, isPrivate: Option<bool>)

  /** A value of the update map. */
  datatype Value = Text(text: string) | TagList(list: seq<string>) | Flag(flag: bool)

  /** The update map: content and color when non-empty, tags when sent,
      the privacy flag when sent. */
  function UpdateData(req: UpdateRequest): map<string, Value> {
    var m1: map<string, Value> := if req.content != "" then map["content" := Text(req.content)] else map[];
    var m2 := if req.color != "" then m1["color" := Text(req.color)] else m1;
    var m3 := if req.tags.Some? then m2["tags" := TagList(req.tags.value)] else m2;
    if req.isPrivate.Some? then m3["is_private" := Flag(req.isPrivate.value)] else m3
  }

  /** GORM's `Updates` with a map: each key present sets its column. */
  function Apply(a: Stored, m: map<string, Value>): Stored {
    Stored(
      if "content" in m && m["content"].Text? then m["content"].text else a.content,
      if "color" in m && m["color"].Text? then m["color"].text else a.color,
      if "tags" in m && m["tags"].TagList? then m["tags"].list else a.tags,
      if "is_private" in m && m["is_private"].Flag? then m["is_private"].flag else a.isPrivate)
  }

  /** A key is in the map exactly when its field was sent (non-empty for
      the two strings); the map is empty exactly when nothing was. */
  lemma UpdateDataSpec(req: UpdateRequest)
    ensures "content" in UpdateData(req) <==> req.content != ""
    ensures "color" in UpdateData(req) <==> req.color != ""
    ensures "tags" in UpdateData(req) <==> req.tags.Some?
    ensures "is_private" in UpdateData(req) <==> req.isPrivate.Some?
    ensures UpdateData(req).Keys <= {"content", "color", "tags", "is_private"}
    ensures UpdateData(req) == map[] <==>
      req.content == "" && req.color == "" && req.tags.None? && req.isPrivate.None?
  {
    var m := UpdateData(req);
    if req.content != "" || req.color != "" || req.tags.Some? || req.isPrivate.Some? {
      assert "content" in m || "color" in m || "tags" in m || "is_private" in m;
    }
  }

  /** Applying the map sets exactly the fields that were sent: an empty
      content or color keeps the stored one, so neither can be cleared. */
  lemma ApplyUpdateSpec(a: Stored, req: UpdateRequest)
    ensures Apply(a, UpdateData(req)).content == (if req.content != "" then req.content else a.content)
    ensures Apply(a, UpdateData(req)).color == (if req.color != "" then req.color else a.color)
    ensures Apply(a, UpdateData(req)).tags == (if req.tags.Some? then req.tags.value else a.tags)
    ensures Apply(a, UpdateData(req)).isPrivate == (if req.isPrivate.Some? then req.isPrivate.value else a.isPrivate)
    ensures a.content != "" ==> Apply(a, UpdateData(req)).content != ""
  {
  }

  datatype UpdateResult = UpdateResult(status: int, stored: Stored)

  /** `UpdateAnnotationEnhanced` on the stored annotation `a`, found by
      `lookup`, with the outcome of the write and of the reload. */
  function Update(id: string, lookup: Lookup, a: Stored, req: UpdateRequest, saved: bool, reloaded: bool): UpdateResult {
    if id == "" then UpdateResult(400, a)
    else if lookup == NotFound then UpdateResult(404, a)
    else if lookup == LookupFailed then UpdateResult(500, a)
    else if UpdateData(req) == map[] then UpdateResult(400, a)
    else if !saved then UpdateResult(500, a)
    else UpdateResult(if reloaded then 200 else 500, Apply(a, UpdateData(req)))
  }

  /** The annotation changes only through a successful write of a
      non-empty map; an answer of 200 means the sent fields were written.
      A failed reload answers 500 although the write was kept. */
  lemma UpdateSpec(id: string, lookup: Lookup, a: Stored, req: UpdateRequest, saved: bool, reloaded: bool)
    ensures var r := Update(id, lookup, a, req, saved, reloaded);
      r.stored != a ==> id != "" && lookup == Found && UpdateData(req) != map[] && saved
    ensures var r := Update(id, lookup, a, req, saved, reloaded);
      r.status == 200 <==> id != "" && lookup == Found && UpdateData(req) != map[] && saved && reloaded
    ensures var r := Update(id, lookup, a, req, saved, reloaded);
      r.status == 200 ==> r.stored == Apply(a, UpdateData(req))
    ensures req.content == "" && req.color == "" && req.tags.None? && req.isPrivate.None? && id != "" && lookup == Found ==>
      Update(id, lookup, a, req, saved, reloaded) == UpdateResult(400, a)
  {
    UpdateDataSpec(req);
  }

  // ------------------------------------------------------------ bulk input

  /** A decoded JSON parameter value. */
  datatype Json = JStr(s: string) | JNum(n: int) | JBool(b: bool) | JNull | JArr(items: seq<Json>)

  predicate IsText(v: Json) {
    v.JStr?
  }

  function TextOf(v: Json): string {
    if v.JStr? then v.s else ""
  }

  /** The string entries of a tag list, in their order. */
  function StringsOf(tags: seq<Json>): seq<string> {
    Map(Filter(tags, IsText), TextOf)
  }

  lemma MapAppend<T, U>(a: seq<T>, b: seq<T>, f: T -> U)
    ensures Map(a + b, f) == Map(a, f) + Map(b, f)
  {
  }

  /** The loop of `update_tags` that keeps the string entries. */
  method TagStrings(tags: seq<Json>) returns (tagStrings: seq<string>)
    ensures tagStrings == StringsOf(tags)
  {
    tagStrings := [];
    var k := 0;
    while k < |tags|
      invariant 0 <= k <= |tags|
      invariant tagStrings == StringsOf(tags[..k])
    {
      assert tags[..k + 1] == tags[..k] + [tags[k]];
      FilterSnoc(tags[..k], tags[k], IsText);
      FilterSingleton(tags[k], IsText);
      MapAppend(Filter(tags[..k], IsText), Filter([tags[k]], IsText), TextOf);
      if tags[k].JStr? {
        tagStrings := tagStrings + [tags[k].s];
      }
      k := k + 1;
    }
    assert tags[..k] == tags;
  }

  /** A string is kept exactly when the list holds it as a string entry;
      the kept entries are in the list's order, and nothing is dropped from
      a list of strings. */
  lemma StringsOfSpec(tags: seq<Json>)
    ensures forall s :: s in StringsOf(tags) <==> JStr(s) in tags
    ensures IsSubsequence(Filter(tags, IsText), tags)
    ensures |StringsOf(tags)| <= |tags|
    ensures (forall v :: v in tags ==> v.JStr?) ==> |StringsOf(tags)| == |tags|
  {
    FilterSound(tags, IsText);
    FilterComplete(tags, IsText);
    FilterSubsequence(tags, IsText);
    FilterLength(tags, IsText);
    var kept := Filter(tags, IsText);
    forall s
      ensures s in StringsOf(tags) <==> JStr(s) in tags
    {
      if s in StringsOf(tags) {
        var i :| 0 <= i < |kept| && StringsOf(tags)[i] == s;
        assert kept[i] in kept;
        assert kept[i] == JStr(s);
      }
      if JStr(s) in tags {
        assert JStr(s) in kept;
        var i :| 0 <= i < |kept| && kept[i] == JStr(s);
        assert StringsOf(tags)[i] == s;
      }
    }
    if forall v :: v in tags ==> v.JStr? {
      FilterAll(tags, IsText);
    }
  }

  // ----------------------------------------------------- bulk: refusals

  const MAX_BULK := 100

  datatype BulkRequest = BulkRequest(ids: seq<string>, action: string, parameters: map<string, Json>)

  datatype BulkError =
    | NoAnnotations          // 400 from the handler
    | TooMany                // 400 from the handler
    | NotAccessible          // some id is not a live annotation of the user
    | InvalidTags
    | InvalidColor
    | WriteFailed
    | Unsupported(action: string)

  datatype BulkOutcome = BulkOk(success: nat, failed: nat, errors: seq<string>) | BulkErr(error: BulkError)

  /** The status the handler answers a refusal with. */
  function ErrorStatus(e: BulkError): int {
    if e == NoAnnotations || e == TooMany then 400 else 500
  }

  /** The ownership check's count: the user's live rows whose id is among
      the ids (an `IN` list, so an id sent twice counts once). */
  function OwnedCount(ids: seq<string>, owned: set<string>): nat {
    |Elements(ids) * owned|
  }

  /** The count equals the number of ids exactly when the ids are distinct
      and all owned. */
  lemma OwnedCountSpec(ids: seq<string>, owned: set<string>)
    ensures OwnedCount(ids, owned) == |ids| <==>
      Distinct(ids) && forall i :: 0 <= i < |ids| ==> ids[i] in owned
  {
    var e := Elements(ids);
    ElementsCard(ids);
    SubsetCard(e * owned, e);
    if forall i :: 0 <= i < |ids| ==> ids[i] in owned {
      assert e * owned == e;
    } else {
      var i :| 0 <= i < |ids| && ids[i] !in owned;
      SubsetCard(e * owned, e - {ids[i]});
      assert |e - {ids[i]}| == |e| - 1;
    }
    if OwnedCount(ids, owned) == |ids| {
      assert e * owned == e;
      forall i | 0 <= i < |ids| ensures ids[i] in owned {
        assert ids[i] in e;
      }
    }
  }

  /** The parameter of an action, or the refusal of an unknown action. */
  function ActionRefusal(action: string, parameters: map<string, Json>): Option<BulkError> {
    if action == "delete" || action == "toggle_private" then None
    else if action == "update_tags" then
      (if "tags" in parameters && parameters["tags"].JArr? then None else Some(InvalidTags))
    else if action == "update_color" then
      (if "color" in parameters && parameters["color"].JStr? then None else Some(InvalidColor))
    else Some(Unsupported(action))
  }

  /** Why a bulk request is refused before anything changes, in the order
      the handler and `performBulkAction` check. */
  function Refusal(req: BulkRequest, owned: set<string>): Option<BulkError> {
    if |req.ids| == 0 then Some(NoAnnotations)
    else if |req.ids| > MAX_BULK then Some(TooMany)
    else if OwnedCount(req.ids, owned) != |req.ids| then Some(NotAccessible)
    else ActionRefusal(req.action, req.parameters)
  }

  /** No ids or more than 100 are refused with 400; an id that is not the
      user's, or the same id twice, refuses the whole request; otherwise
      only the action and its parameter decide. */
  lemma RefusalSpec(req: BulkRequest, owned: set<string>)
    ensures |req.ids| == 0 ==> Refusal(req, owned) == Some(NoAnnotations)
    ensures |req.ids| > MAX_BULK ==> Refusal(req, owned) == Some(TooMany)
    ensures 1 <= |req.ids| <= MAX_BULK && (exists i :: 0 <= i < |req.ids| && req.ids[i] !in owned) ==>
      Refusal(req, owned) == Some(NotAccessible)
    ensures 1 <= |req.ids| <= MAX_BULK && !Distinct(req.ids) ==> Refusal(req, owned) == Some(NotAccessible)
    ensures 1 <= |req.ids| <= MAX_BULK && Distinct(req.ids) && (forall i :: 0 <= i < |req.ids| ==> req.ids[i] in owned) ==>
      Refusal(req, owned) == ActionRefusal(req.action, req.parameters)
    ensures Refusal(req, owned).Some? && Refusal(req, owned).value.Unsupported? ==>
      req.action !in {"delete", "update_tags", "update_color", "toggle_private"}
  {
    OwnedCountSpec(req.ids, owned);
  }

  // ------------------------------------------------- bulk: toggle_private

  /** What happened to one id in the `toggle_private` loop. */
  datatype Step = Missing | Unsaved | Flipped

  function StepError(id: string, step: Step): seq<string> {
    match step
    case Missing => ["Failed to find annotation " + id]
    case Unsaved => ["Failed to update annotation " + id]
    case Flipped => []
  }

  /** The error messages of the loop, one per failed id, in id order. */
  function ToggleErrors(ids: seq<string>, steps: seq<Step>): seq<string>
    requires |steps| == |ids|
  {
    if |ids| == 0 then []
    else ToggleErrors(ids[..|ids| - 1], steps[..|ids| - 1]) + StepError(ids[|ids| - 1], steps[|ids| - 1])
  }

  function IsFlipped(step: Step): bool {
    step == Flipped
  }

  function Flip(rows: map<string, Stored>, id: string): map<string, Stored> {
    if id in rows then rows[id := rows[id].(isPrivate := !rows[id].isPrivate)] else rows
  }

  /** The rows after the loop: each flipped id's flag negated, in turn. */
  function FlipAll(rows: map<string, Stored>, ids: seq<string>, steps: seq<Step>): map<string, Stored>
    requires |steps| == |ids|
  {
    if |ids| == 0 then rows
    else
      var before := FlipAll(rows, ids[..|ids| - 1], steps[..|ids| - 1]);
      if steps[|ids| - 1] == Flipped then Flip(before, ids[|ids| - 1]) else before
  }

  /** Every failed id has exactly one message. */
  lemma {:induction false} ToggleErrorsCount(ids: seq<string>, steps: seq<Step>)
    requires |steps| == |ids|
    ensures |ToggleErrors(ids, steps)| == |ids| - Count(steps, IsFlipped)
    decreases |ids|
  {
    if |ids| > 0 {
      ToggleErrorsCount(ids[..|ids| - 1], steps[..|ids| - 1]);
    }
  }

  /** For distinct ids, the loop negates the flag of exactly the flipped
      ids and leaves every other annotation, and the set of ids, as it
      was. */
  lemma {:induction false} FlipAllSpec(rows: map<string, Stored>, ids: seq<string>, steps: seq<Step>)
    requires |steps| == |ids| && Distinct(ids)
    ensures FlipAll(rows, ids, steps).Keys == rows.Keys
    ensures forall i :: 0 <= i < |ids| && ids[i] in rows ==>
      FlipAll(rows, ids, steps)[ids[i]] == rows[ids[i]].(isPrivate := rows[ids[i]].isPrivate != (steps[i] == Flipped))
    ensures forall id :: id in rows && id !in ids ==> FlipAll(rows, ids, steps)[id] == rows[id]
    decreases |ids|
  {
    if |ids| > 0 {
      var n := |ids| - 1;
      var front, fsteps := ids[..n], steps[..n];
      assert Distinct(front);
      FlipAllSpec(rows, front, fsteps);
      var before := FlipAll(rows, front, fsteps);
      assert ids[n] !in front;
      forall i | 0 <= i < |ids| && ids[i] in rows
        ensures FlipAll(rows, ids, steps)[ids[i]] == rows[ids[i]].(isPrivate := rows[ids[i]].isPrivate != (steps[i] == Flipped))
      {
        if i < n {
          assert front[i] == ids[i] && fsteps[i] == steps[i];
          assert ids[i] != ids[n];
        }
      }
      forall id | id in rows && id !in ids
        ensures FlipAll(rows, ids, steps)[id] == rows[id]
      {
        assert forall x :: x in front ==> x in ids;
      }
    }
  }

  // ----------------------------------------------------------- the table

  /** The user's live annotations, by id. */
  class Table {
    var rows: map<string, Stored>

    constructor(rows0: map<string, Stored>)
      ensures rows == rows0
    {
      rows := rows0;
    }

    /** The `toggle_private` loop: each id is looked up and its flag
        negated; a failed lookup or write is counted and reported, and the
        loop goes on. */
    method TogglePrivate(ids: seq<string>, steps: seq<Step>) returns (success: nat, failed: nat, errors: seq<string>)
      requires |steps| == |ids|
      modifies this`rows
      ensures success == Count(steps, IsFlipped)
      ensures success + failed == |ids| && |errors| == failed
      ensures errors == ToggleErrors(ids, steps)
      ensures rows == FlipAll(old(rows), ids, steps)
    {
      success, failed, errors := 0, 0, [];
      var k := 0;
      while k < |ids|
        invariant 0 <= k <= |ids|
        invariant success == Count(steps[..k], IsFlipped) && success + failed == k
        invariant errors == ToggleErrors(ids[..k], steps[..k])
        invariant rows == FlipAll(old(rows), ids[..k], steps[..k])
      {
        assert ids[..k + 1][..k] == ids[..k] && steps[..k + 1][..k] == steps[..k];
        ToggleErrorsCount(ids[..k], steps[..k]);
        success, failed, errors := ToggleOne(ids[k], steps[k], success, failed, errors);
        k := k + 1;
      }
      assert ids[..k] == ids && steps[..k] == steps;
      ToggleErrorsCount(ids, steps);
    }

    /** One pass of the loop. */
    method ToggleOne(id: string, step: Step, success: nat, failed: nat, errors: seq<string>)
      returns (success': nat, failed': nat, errors': seq<string>)
      modifies this`rows
      ensures success' == success + (if step == Flipped then 1 else 0)
      ensures failed' == failed + (if step == Flipped then 0 else 1)
      ensures errors' == errors + StepError(id, step)
      ensures rows == if step == Flipped then Flip(old(rows), id) else old(rows)
    {
      success', failed', errors' := success, failed, errors;
      match step {
        case Missing =>
          failed' := failed + 1;
          errors' := errors + ["Failed to find annotation " + id];
        case Unsaved =>
          failed' := failed + 1;
          errors' := errors + ["Failed to update annotation " + id];
        case Flipped =>
          if id in rows {
            rows := rows[id := rows[id].(isPrivate := !rows[id].isPrivate)];
          }
          success' := success + 1;
      }
    }

    /** `BulkAnnotationActions` with `performBulkAction`: after the
        refusals, a delete, tag or colour update writes every id at once
        (or fails as a whole when the write fails), and `toggle_private`
        runs its loop. */
    method BulkAction(req: BulkRequest, writeOk: bool, steps: seq<Step>) returns (outcome: BulkOutcome)
      requires |steps| == |req.ids|
      modifies this`rows
      ensures Refusal(req, old(rows).Keys).Some? ==>
        outcome == BulkErr(Refusal(req, old(rows).Keys).value) && rows == old(rows)
      ensures Refusal(req, old(rows).Keys).None? && req.action != "toggle_private" ==>
        if writeOk then outcome == BulkOk(|req.ids|, 0, []) && rows == Written(old(rows), req)
        else outcome == BulkErr(WriteFailed) && rows == old(rows)
      ensures Refusal(req, old(rows).Keys).None? && req.action == "toggle_private" ==>
        outcome.BulkOk? && outcome.success == Count(steps, IsFlipped) && outcome.success + outcome.failed == |req.ids|
        && outcome.errors == ToggleErrors(req.ids, steps) && rows == FlipAll(old(rows), req.ids, steps)
    {
      var refusal := Refusal(req, rows.Keys);
      if refusal.Some? {
        return BulkErr(refusal.value);
      }
      RefusalSpec(req, rows.Keys);
      if req.action == "toggle_private" {
        var success, failed, errors := TogglePrivate(req.ids, steps);
        return BulkOk(success, failed, errors);
      }
      if !writeOk {
        return BulkErr(WriteFailed);
      }
      var written := WriteAll(req);
      rows := written;
      outcome := BulkOk(|req.ids|, 0, []);
    }

    /** The single statement of a delete, tag or colour update; the tag
        list is the string entries of the parameter. */
    method WriteAll(req: BulkRequest) returns (written: map<string, Stored>)
      ensures written == Written(rows, req)
    {
      if req.action == "delete" {
        written := rows - Elements(req.ids);
      } else if req.action == "update_tags" && "tags" in req.parameters && req.parameters["tags"].JArr? {
        var tags := TagStrings(req.parameters["tags"].items);
        written := map id | id in rows :: if id in req.ids then rows[id].(tags := tags) else rows[id];
      } else if req.action == "update_color" && "color" in req.parameters && req.parameters["color"].JStr? {
        var color := req.parameters["color"].s;
        written := map id | id in rows :: if id in req.ids then rows[id].(color := color) else rows[id];
      } else {
        written := rows;
      }
    }
  }

  /** The rows after a successful delete, tag or colour update of every
      id of the request. */
  function Written(rows: map<string, Stored>, req: BulkRequest): map<string, Stored> {
    if req.action == "delete" then rows - Elements(req.ids)
    else if req.action == "update_tags" && "tags" in req.parameters && req.parameters["tags"].JArr? then
      map id | id in rows :: if id in req.ids then rows[id].(tags := StringsOf(req.parameters["tags"].items)) else rows[id]
    else if req.action == "update_color" && "color" in req.parameters && req.parameters["color"].JStr? then
      map id | id in rows :: if id in req.ids then rows[id].(color := req.parameters["color"].s) else rows[id]
    else rows
  }

  /** A delete removes exactly the ids; an update changes only the one
      field, and only on the ids; nothing else is touched. */
  lemma WrittenSpec(rows: map<string, Stored>, req: BulkRequest)
    ensures req.action == "delete" ==>
      Written(rows, req).Keys == rows.Keys - Elements(req.ids)
      && forall id :: id in Written(rows, req) ==> Written(rows, req)[id] == rows[id]
    ensures req.action != "delete" ==> Written(rows, req).Keys == rows.Keys
    ensures req.action != "delete" ==> forall id :: id in rows && id !in req.ids ==> Written(rows, req)[id] == rows[id]
    ensures req.action == "update_color" && Refusal(req, rows.Keys).None? ==>
      forall id :: id in rows && id in req.ids ==>
        Written(rows, req)[id] == rows[id].(color := req.parameters["color"].s)
    ensures req.action == "update_tags" && Refusal(req, rows.Keys).None? ==>
      forall id :: id in rows && id in req.ids ==>
        Written(rows, req)[id] == rows[id].(tags := StringsOf(req.parameters["tags"].items))
  {
  }

  // ------------------------------------------------------------ CSV export

  /** A row of the export query; the creation time comes formatted. */
  datatype ExportAnnotation = ExportAnnotation(
    bookTitle: string,
    bookAuthor: string,
    kind: string,
    pageNumber: int,
    selectedText: string,
    content: string,
    color: string,
    tags: seq<string>,
    createdAt: string)

  const CSV_HEADER := ["Book Title", "Author", "Type", "Page", "Selected Text", "Content", "Color", "Tags", "Created At"]

  function CsvRow(a: ExportAnnotation): seq<string> {
    [a.bookTitle, a.bookAuthor, a.kind, IntToString(a.pageNumber), a.selectedText,
     a.content, a.color, Join(a.tags, ", "), a.createdAt]
  }

  /** Every row has the header's nine fields; the page field reads back as
      the page number and the tags field is the tags joined by ", ". */
  lemma CsvRowSpec(a: ExportAnnotation)
    ensures |CsvRow(a)| == |CSV_HEADER| == 9
    ensures MIN_INT64 <= a.pageNumber <= MAX_INT64 ==> ParseInt(CsvRow(a)[3]) == Some(a.pageNumber)
    ensures CsvRow(a)[7] == Join(a.tags, ", ")
    ensures CsvRow(a)[0] == a.bookTitle && CsvRow(a)[2] == a.kind && CsvRow(a)[8] == a.createdAt
  {
    if MIN_INT64 <= a.pageNumber <= MAX_INT64 {
      ParseIntToString(a.pageNumber);
    }
  }

  /** `exportAnnotationsCSV`'s records: the header, then one row per
      annotation, in order. */
  method ExportCsv(annotations: seq<ExportAnnotation>) returns (records: seq<seq<string>>)
    ensures |records| == |annotations| + 1 && records[0] == CSV_HEADER
    ensures forall i :: 0 <= i < |annotations| ==> records[i + 1] == CsvRow(annotations[i])
    ensures forall i :: 0 <= i < |records| ==> |records[i]| == 9
  {
    records := [CSV_HEADER];
    var k := 0;
    while k < |annotations|
      invariant 0 <= k <= |annotations|
      invariant |records| == k + 1 && records[0] == CSV_HEADER
      invariant forall i :: 0 <= i < k ==> records[i + 1] == CsvRow(annotations[i])
      invariant forall i :: 0 <= i < |records| ==> |records[i]| == 9
    {
      CsvRowSpec(annotations[k]);
      records := records + [CsvRow(annotations[k])];
      k := k + 1;
    }
  }
}
