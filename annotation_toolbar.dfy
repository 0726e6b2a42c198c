/** The toolbar shown over a text selection in the web reader: it detects
    annotations that already exist for the selection, edits a list of tags
    for a new note, and sends highlight, note and bookmark requests to the
    reader, guarded by a `creating` flag while a request is pending. */
module AnnotationToolbar {
  import opened Wrappers
  import opened Strings
  import opened Seqs
  import opened UseAnnotations

  /** The first colour of the highlight palette, selected initially. */
  const FIRST_HIGHLIGHT_COLOR := "#fef3c7"

  /** What the toolbar hands to its `onCreateAnnotation` callback. */
  datatype CreateRequest = CreateRequest(
    kind: string,
    selectedText: string,
    content: Option<string>,
    color: Option<string>,
    tags: Option<seq<string>>)

  // ------------------------------------------------------ existing entries

  predicate SameSelection(selectedText: string, kind: string, a: Annotation) {
    a.selectedText == Some(selectedText) && a.kind == kind
  }

  /** `existingAnnotations.find(...)` for a kind: the first annotation with
      exactly this selected text and that kind. */
  function Existing(existing: seq<Annotation>, selectedText: string, kind: string): Option<Annotation> {
    Find(existing, a => SameSelection(selectedText, kind, a))
  }

  /** An annotation is reported exactly when one with the same selected text
      and kind exists, and it is the first such. The highlight button and
      colour picker are shown only when no highlight exists. */
  lemma ExistingSpec(existing: seq<Annotation>, selectedText: string, kind: string)
    ensures Existing(existing, selectedText, kind).Some? <==>
      exists a :: a in existing && a.selectedText == Some(selectedText) && a.kind == kind
    ensures Existing(existing, selectedText, kind).Some? ==>
      exists i :: 0 <= i < |existing| && existing[i] == Existing(existing, selectedText, kind).value
        && existing[i].selectedText == Some(selectedText) && existing[i].kind == kind
        && forall j :: 0 <= j < i ==> !SameSelection(selectedText, kind, existing[j])
  {
    FindFirst(existing, a => SameSelection(selectedText, kind, a));
  }

  /** A highlight over other text, or a note over this text, does not hide
      the highlight button. */
  lemma ExistingNeedsKindAndText(selectedText: string, other: string, a: Annotation)
    requires other != selectedText
    requires a.selectedText == Some(other) || a.kind == NOTE
    ensures Existing([a], selectedText, HIGHLIGHT).None?
  {
    assert [a][1..] == [];
  }

  // ------------------------------------------------------------------ tags

  /** Non-empty, without white space at either end, no duplicates. */
  predicate CleanTags(tags: seq<string>) {
    Distinct(tags) && forall i :: 0 <= i < |tags| ==> tags[i] != "" && !IsSpace(tags[i][0]) && !IsSpace(tags[i][|tags[i]| - 1])
  }

  /** `handleAddTag`: the trimmed input is appended when it is non-empty and
      not yet in the list. */
  function AddTag(tags: seq<string>, input: string): seq<string> {
    var tag := Trim(input);
    if tag != "" && tag !in tags then tags + [tag] else tags
  }

  /** `handleRemoveTag`. */
  function RemoveTag(tags: seq<string>, tag: string): seq<string> {
    Filter(tags, (t: string) => t != tag)
  }

  /** Adding keeps the list clean and adds exactly the trimmed input when
      it is new; removing a freshly added tag gives the list back. */
  lemma AddTagSpec(tags: seq<string>, input: string)
    requires CleanTags(tags)
    ensures CleanTags(AddTag(tags, input))
    ensures forall t :: t in AddTag(tags, input) <==> t in tags || (t == Trim(input) && t != "")
    ensures Trim(input) !in tags ==> RemoveTag(AddTag(tags, input), Trim(input)) == tags
  {
    var tag := Trim(input);
    if tag != "" && tag !in tags {
      AppendClean(tags, tag);
    }
    if tag !in tags {
      RemoveAppended(tags, tag);
    }
  }

  lemma AppendClean(tags: seq<string>, tag: string)
    requires CleanTags(tags) && tag !in tags
    requires tag != "" && !IsSpace(tag[0]) && !IsSpace(tag[|tag| - 1])
    ensures CleanTags(tags + [tag])
  {
    var r := tags + [tag];
    forall i, j | 0 <= i < j < |r|
      ensures r[i] != r[j]
    {
      if j == |tags| {
        assert r[i] in tags;
      }
    }
  }

  lemma RemoveAppended(tags: seq<string>, tag: string)
    requires tag !in tags
    ensures RemoveTag(if tag != "" then tags + [tag] else tags, tag) == tags
  {
    var p := (t: string) => t != tag;
    FilterAll(tags, p);
    if tag != "" {
      FilterSnoc(tags, tag, p);
      FilterSingleton(tag, p);
    }
  }

  /** Removing drops every copy of the tag and keeps the others in order. */
  lemma RemoveTagSpec(tags: seq<string>, tag: string)
    ensures forall t :: t in RemoveTag(tags, tag) <==> t in tags && t != tag
    ensures IsSubsequence(RemoveTag(tags, tag), tags)
    ensures CleanTags(tags) ==> CleanTags(RemoveTag(tags, tag))
  {
    var p := (t: string) => t != tag;
    FilterSound(tags, p);
    FilterComplete(tags, p);
    FilterSubsequence(tags, p);
    if CleanTags(tags) {
      FilterDistinct(tags, p);
      var r := RemoveTag(tags, tag);
      forall i | 0 <= i < |r|
        ensures r[i] != "" && !IsSpace(r[i][0]) && !IsSpace(r[i][|r[i]| - 1])
      {
        assert r[i] in tags;
      }
    }
  }

  // ----------------------------------------------------------------- state

  /** The toolbar. A create handler runs in two steps around the awaited
      callback: it sends the request and sets `creating`, then the callback
      resolves or rejects. */
  class Toolbar {
    const selectedText: string
    var selectedColor: string
    var noteContent: string
    var tags: seq<string>
    var tagInput: string
    var creating: bool
    var closed: bool

    constructor(selectedText: string)
      ensures this.selectedText == selectedText && selectedColor == FIRST_HIGHLIGHT_COLOR
      ensures noteContent == "" && tags == [] && tagInput == "" && !creating && !closed
    {
      this.selectedText := selectedText;
      selectedColor := FIRST_HIGHLIGHT_COLOR;
      noteContent := "";
      tags := [];
      tagInput := "";
      creating := false;
      closed := false;
    }

    /** `handleCreateHighlight`: nothing while a request is pending. */
    method CreateHighlight() returns (sent: Option<CreateRequest>)
      modifies this`creating
      ensures old(creating) ==> sent.None? && creating
      ensures !old(creating) ==> sent == Some(CreateRequest(HIGHLIGHT, selectedText, None, Some(selectedColor), None)) && creating
    {
      if creating {
        return None;
      }
      creating := true;
      sent := Some(CreateRequest(HIGHLIGHT, selectedText, None, Some(selectedColor), None));
    }

    /** `handleCreateNote`: nothing while a request is pending or when the
        note is blank; the content is trimmed and the tags are sent only
        when there are some. */
    method CreateNote() returns (sent: Option<CreateRequest>)
      modifies this`creating
      ensures old(creating) || IsBlank(noteContent) ==> sent.None? && creating == old(creating)
      ensures !old(creating) && !IsBlank(noteContent) ==>
        (creating && sent.Some?
         && sent.value.kind == NOTE && sent.value.selectedText == selectedText
         && sent.value.content == Some(Trim(noteContent)) && Trim(noteContent) != ""
         && sent.value.color == Some(selectedColor)
         && sent.value.tags == (if |tags| > 0 then Some(tags) else None))
    {
      if creating || Trim(noteContent) == "" {
        return None;
      }
      creating := true;
      sent := Some(CreateRequest(NOTE, selectedText, Some(Trim(noteContent)), Some(selectedColor),
                                 if |tags| > 0 then Some(tags) else None));
    }

    /** `handleCreateBookmark`: nothing while a request is pending. */
    method CreateBookmark() returns (sent: Option<CreateRequest>)
      modifies this`creating
      ensures old(creating) ==> sent.None? && creating
      ensures !old(creating) ==> sent == Some(CreateRequest(BOOKMARK, selectedText, None, None, None)) && creating
    {
      if creating {
        return None;
      }
      creating := true;
      sent := Some(CreateRequest(BOOKMARK, selectedText, None, None, None));
    }

    /** The awaited callback settles: the toolbar closes only when it
        resolved, and `creating` is reset either way. */
    method CreateSettled(resolved: bool)
      modifies this`creating, this`closed
      ensures !creating && closed == (old(closed) || resolved)
    {
      if resolved {
        closed := true;
      }
      creating := false;
    }

    /** Keyboard shortcuts: Escape closes, Ctrl+Enter creates the note when
        it is not blank. */
    method KeyDown(key: string, ctrl: bool) returns (sent: Option<CreateRequest>)
      modifies this`creating, this`closed
      ensures key == "Escape" ==> closed && sent.None? && creating == old(creating)
      ensures key != "Escape" && !(key == "Enter" && ctrl) ==> sent.None? && closed == old(closed) && creating == old(creating)
      ensures sent.Some? ==> key == "Enter" && ctrl && sent.value.kind == NOTE && sent.value.content == Some(Trim(noteContent))
      ensures key == "Enter" && ctrl && !IsBlank(noteContent) && !old(creating) ==> sent.Some?
    {
      sent := None;
      if key == "Escape" {
        closed := true;
      } else if key == "Enter" && ctrl && Trim(noteContent) != "" {
        sent := CreateNote();
      }
    }

    /** The "Add" button or Enter in the tag box. */
    method HandleAddTag()
      modifies this`tags, this`tagInput
      ensures tags == AddTag(old(tags), old(tagInput))
      ensures tagInput == if tags != old(tags) then "" else old(tagInput)
      ensures CleanTags(old(tags)) ==> CleanTags(tags)
    {
      if CleanTags(tags) {
        AddTagSpec(tags, tagInput);
      }
      var tag := Trim(tagInput);
      if tag != "" && tag !in tags {
        tags := tags + [tag];
        tagInput := "";
      }
    }

    /** The remove button of one tag. */
    method HandleRemoveTag(tag: string)
      modifies this`tags
      ensures tags == RemoveTag(old(tags), tag)
      ensures CleanTags(old(tags)) ==> CleanTags(tags)
    {
      RemoveTagSpec(tags, tag);
      tags := RemoveTag(tags, tag);
    }
  }
}
