/** The marker drawn over an annotation in the web reader: where its
    indicator and its detail popup go (integer screen geometry), the tinted
    background of highlights, and the records it hands back when the reader
    edits the content, flips the privacy or deletes the annotation. The
    current time is an input. */
module AnnotationOverlay {
  import opened Wrappers
  import opened Strings
  import opened UseAnnotations

  const HIGHLIGHT_TINT := "#fef3c7"
  const POPUP_WIDTH_MARGIN := 330
  const EDGE_MARGIN := 10

  datatype Rect = Rect(x: int, y: int, width: int, height: int)
  datatype Placement = Placement(left: int, top: int)

  // -------------------------------------------------------------- geometry

  /** The indicator sits left of a bookmark and right of anything else, on
      the annotation's top edge. */
  function IndicatorPlacement(kind: string, r: Rect): (p: Placement)
    ensures p.top == r.y
    ensures kind == BOOKMARK ==> p.left == r.x - 20
    ensures kind != BOOKMARK ==> p.left == r.x + r.width + 2
  {
    Placement(if kind == BOOKMARK then r.x - 20 else r.x + r.width + 2, r.y)
  }

  /** The indicator never covers the annotated box: it ends before a
      bookmark's left edge (it is 20 wide at most) and starts after the
      right edge of anything else. */
  lemma IndicatorOutsideBox(kind: string, r: Rect)
    requires r.width >= 0
    ensures var p := IndicatorPlacement(kind, r);
      if kind == BOOKMARK then p.left + 20 <= r.x else p.left > r.x + r.width
  {
  }

  function Max(a: int, b: int): int { if a >= b then a else b }
  function Min(a: int, b: int): int { if a <= b then a else b }

  /** The detail popup: `max(10, min(x, innerWidth - 330))` across, ten
      below the annotation's bottom edge. */
  function PopupPlacement(r: Rect, innerWidth: int): Placement {
    Placement(Max(EDGE_MARGIN, Min(r.x, innerWidth - POPUP_WIDTH_MARGIN)), r.y + r.height + EDGE_MARGIN)
  }

  /** The popup is never closer than 10 to the left edge; in a window at
      least 340 wide it also ends inside the window; it starts at the
      annotation when there is room; and it sits below the annotation. */
  lemma PopupSpec(r: Rect, innerWidth: int)
    ensures var p := PopupPlacement(r, innerWidth);
      p.left >= EDGE_MARGIN
      && (innerWidth >= POPUP_WIDTH_MARGIN + EDGE_MARGIN ==> p.left + POPUP_WIDTH_MARGIN <= innerWidth)
      && (EDGE_MARGIN <= r.x <= innerWidth - POPUP_WIDTH_MARGIN ==> p.left == r.x)
      && (r.height >= 0 ==> p.top > r.y + r.height)
  {
  }

  /** The tint drawn under a highlight: its colour, or the default when it
      has none (or an empty one). Other kinds get no tint. */
  function Background(a: Annotation): (tint: Option<string>)
    ensures tint.Some? <==> a.kind == HIGHLIGHT
    ensures tint.Some? ==> tint.value != ""
    ensures tint.Some? && a.color.Some? && a.color.value != "" ==> tint.value == a.color.value
  {
    if a.kind != HIGHLIGHT then None
    else if a.color.Some? && a.color.value != "" then Some(a.color.value)
    else Some(HIGHLIGHT_TINT)
  }

  // --------------------------------------------------------------- records

  /** What `handleSave` hands to `onUpdate`: the content trimmed, the
      update time refreshed. */
  function Saved(a: Annotation, editContent: string, now: int): Annotation {
    a.(content := Some(Trim(editContent)), updatedAt := now)
  }

  /** What the privacy button hands to `onUpdate`. */
  function PrivacyFlipped(a: Annotation, now: int): Annotation {
    a.(isPrivate := !a.isPrivate, updatedAt := now)
  }

  /** Saving changes only the content, to text without white space at
      either end, and the update time. */
  lemma SavedSpec(a: Annotation, editContent: string, now: int)
    ensures var s := Saved(a, editContent, now);
      s.(content := a.content, updatedAt := a.updatedAt) == a
      && s.content.Some? && s.updatedAt == now
      && (s.content.value == "" || (!IsSpace(s.content.value[0]) && !IsSpace(s.content.value[|s.content.value| - 1])))
  {
    var t := Trim(editContent);
    assert t == "" || (!IsSpace(t[0]) && !IsSpace(t[|t| - 1]));
  }

  /** Saving the saved text again changes nothing but the update time. */
  lemma SavedAgain(a: Annotation, editContent: string, now: int, later: int)
    ensures var s := Saved(a, editContent, now);
      Saved(s, s.content.value, later) == s.(updatedAt := later)
  {
    var t := Trim(editContent);
    TrimIdempotent(editContent);
    assert Trim(t) == t;
  }

  /** Flipping privacy changes only the flag and the update time, and
      flipping twice restores the flag. */
  lemma PrivacyFlippedSpec(a: Annotation, now: int, later: int)
    ensures PrivacyFlipped(a, now).isPrivate != a.isPrivate
    ensures PrivacyFlipped(a, now).(isPrivate := a.isPrivate, updatedAt := a.updatedAt) == a
    ensures PrivacyFlipped(PrivacyFlipped(a, now), later) == a.(updatedAt := later)
  {
  }

  // ----------------------------------------------------------------- state

  class Overlay {
    const annotation: Annotation
    var showDetails: bool
    var isEditing: bool
    var editContent: string

    /** The edit box starts with the content, or empty. */
    constructor(annotation: Annotation)
      ensures this.annotation == annotation && !showDetails && !isEditing
      ensures editContent == if annotation.content.Some? then annotation.content.value else ""
    {
      this.annotation := annotation;
      showDetails := false;
      isEditing := false;
      editContent := if annotation.content.Some? then annotation.content.value else "";
    }

    /** A click on the indicator shows or hides the popup. */
    method ToggleDetails()
      modifies this`showDetails
      ensures showDetails == !old(showDetails)
    {
      showDetails := !showDetails;
    }

    /** `handleSave`: emits the saved record when an update handler is
        wired, and leaves editing either way. */
    method HandleSave(hasOnUpdate: bool, now: int) returns (emitted: Option<Annotation>)
      modifies this`isEditing
      ensures emitted == if hasOnUpdate then Some(Saved(annotation, editContent, now)) else None
      ensures !isEditing
    {
      emitted := None;
      if hasOnUpdate {
        emitted := Some(annotation.(content := Some(Trim(editContent)), updatedAt := now));
      }
      isEditing := false;
    }

    /** `handleDelete`: the id is emitted only when a delete handler is
        wired and the reader confirms. */
    method HandleDelete(hasOnDelete: bool, confirmed: bool) returns (deleted: Option<string>)
      ensures deleted.Some? <==> hasOnDelete && confirmed
      ensures deleted.Some? ==> deleted.value == annotation.id
    {
      deleted := None;
      if hasOnDelete && confirmed {
        deleted := Some(annotation.id);
      }
    }

    /** The privacy button. */
    method TogglePrivacy(now: int) returns (emitted: Annotation)
      ensures emitted == PrivacyFlipped(annotation, now)
    {
      emitted := annotation.(isPrivate := !annotation.isPrivate, updatedAt := now);
    }
  }
}
