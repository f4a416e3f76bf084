/** The slide editor's state outside the canvas: the slide being edited,
    its index and list, saving the edit back into the list and the
    history, closing the editor, the byte copy of `dataURLToBlob`, and the
    labels of the object list. */
module Editor {
  import opened Values
  import opened Text
  import opened History
  import opened App

  newtype byte = x: int | 0 <= x < 256

  /** `Uint8Array` element assignment: the value modulo 256. */
  function ByteOf(c: char): byte
  {
    ((c as int) % 256) as byte
  }

  /** The string `atob` yields holds only code units below 256, and those
      are copied exactly. */
  lemma ByteOfLatin1(c: char)
    requires (c as int) < 256
    ensures ByteOf(c) as int == c as int
  {
  }

  /** The copy loop of `dataURLToBlob`: `while (n--) u8arr[n] =
      bstr.charCodeAt(n)`, from the last index down to 0. */
  method CopyBytes(bstr: string) returns (u8arr: array<byte>)
    ensures u8arr.Length == |bstr|
    ensures forall i :: 0 <= i < |bstr| ==> u8arr[i] == ByteOf(bstr[i])
  {
    var n := |bstr|;
    u8arr := new byte[n];
    while n > 0
      invariant 0 <= n <= |bstr|
      invariant forall i :: n <= i < |bstr| ==> u8arr[i] == ByteOf(bstr[i])
      decreases n
    {
      n := n - 1;
      u8arr[n] := ByteOf(bstr[n]);
    }
  }

  /** `{...slide, edited: true, edited_url: dataURL, edited_at: now}`. */
  function EditedSlide(slide: Json, dataUrl: string, editedAt: string): map<string, Json>
  {
    Spread(slide)["edited" := JBool(true)]["edited_url" := JStr(dataUrl)]["edited_at" := JStr(editedAt)]
  }

  /** The edited slide keeps every field of the original other than the
      three it sets, and sets those three. */
  lemma EditedSlideFields(slide: Json, dataUrl: string, editedAt: string)
    requires slide.JObj?
    ensures var e := EditedSlide(slide, dataUrl, editedAt);
      && e.Keys == slide.fields.Keys + {"edited", "edited_url", "edited_at"}
      && e["edited"] == JBool(true) && e["edited_url"] == JStr(dataUrl) && e["edited_at"] == JStr(editedAt)
      && (forall k :: k in slide.fields && k !in {"edited", "edited_url", "edited_at"} ==> e[k] == slide.fields[k])
  {
  }

  /** `slide.download_url || slide.url`. */
  function OriginalUrl(slide: Json): Access
  {
    match Get(slide, "download_url")
    case TypeError => TypeError
    case Value(v) => if Truthy(v) then Value(v) else Get(slide, "url")
    case Undefined => Get(slide, "url")
  }

  /** How saving ends. */
  datatype SaveOutcome =
    | NoCanvas           // returns at once
    | DecodeFailed       // dataURLToBlob rejected: caught, nothing changes
    | NothingToSave      // the slot is missing or empty: the editor closes
    | HistoryThrew       // updating the history threw: caught, the editor stays open
    | SavedEdit          // written everywhere, the editor closes

  class EditSession {
    var slide: Json           // currentEditSlide
    var index: int            // currentEditIndex
    var slides: array<Json>   // currentEditSlides
    var originalUrl: Access   // originalSlideUrl

    predicate Closed()
      reads this
    {
      slide == JNull && index == 0 && slides.Length == 0 && originalUrl == Value(JStr(""))
    }

    constructor ()
      ensures Closed()
    {
      slide := JNull;
      index := 0;
      slides := new Json[0];
      originalUrl := Value(JStr(""));
    }

    /** The state `openEditSlide(slide, index, slides)` records (the canvas
        work that follows is not modelled); a null slide throws after the
        first three assignments. */
    method OpenEditSlide(s: Json, i: int, list: array<Json>)
      modifies this
      ensures slide == s && index == i && slides == list
      ensures s != JNull ==> originalUrl == OriginalUrl(s)
      ensures s == JNull ==> originalUrl == old(originalUrl)
    {
      slide := s;
      index := i;
      slides := list;
      var url := OriginalUrl(s);
      if url.TypeError? {
        return;
      }
      originalUrl := url;
    }

    /** `closeEditModal()`. */
    method CloseEditModal()
      modifies this
      ensures Closed() && fresh(slides)
    {
      slide := JNull;
      index := 0;
      slides := new Json[0];
      originalUrl := Value(JStr(""));
    }

    /** `saveEditedSlide()`, with the canvas image `dataUrl`, whether it
        decodes, the time of the edit, and whether the list being edited is
        the very array `appState.currentSlides` holds (the edit buttons of
        the result view pass that array), so that writing its slot changes
        `appState.currentSlides` too. */
    method SaveEditedSlide(app: AppState, hasCanvas: bool, dataUrl: string, decodes: bool,
                           editedAt: string, rule: MatchRule, first: WriteOutcome, retry: WriteOutcome,
                           sharesCurrentSlides: bool)
      returns (outcome: SaveOutcome)
      requires sharesCurrentSlides ==> app.currentSlides == slides[..]
      modifies this, slides, app
      ensures !hasCanvas ==> outcome == NoCanvas
      ensures hasCanvas && !decodes ==> outcome == DecodeFailed
      ensures outcome in {NoCanvas, DecodeFailed} ==>
        && slide == old(slide) && index == old(index) && slides == old(slides)
        && originalUrl == old(originalUrl)
        && slides[..] == old(slides[..]) && app.Snapshot() == old(app.Snapshot())
      ensures hasCanvas && decodes && !(0 <= old(index) < old(slides).Length && Truthy(old(slides[index]))) ==>
        && outcome == NothingToSave && Closed()
        && old(slides)[..] == old(slides[..]) && app.Snapshot() == old(app.Snapshot())
      ensures hasCanvas && decodes && 0 <= old(index) < old(slides).Length && Truthy(old(slides[index])) ==>
        outcome in {HistoryThrew, SavedEdit}
      ensures outcome in {HistoryThrew, SavedEdit} ==>
        && 0 <= old(index) < old(slides).Length && Truthy(old(slides[index]))
        && var e := EditedSlide(old(slides[index]), dataUrl, editedAt);
        && old(slides)[..] == old(slides[..])[old(index) := JObj(e)]
        && app.currentSlides == (if sharesCurrentSlides then old(slides)[..] else old(app.currentSlides))
        && app.Generation() == old(app.Generation())
        && (outcome == HistoryThrew <==> EditedHistory(old(app.history), e, rule).None?)
        && (outcome == HistoryThrew ==>
              && slide == old(slide) && index == old(index) && slides == old(slides)
              && originalUrl == old(originalUrl)
              && app.history == old(app.history) && app.storage == old(app.storage))
        && (outcome == SavedEdit ==>
              var saved := History.SaveHistory(EditedHistory(old(app.history), e, rule).value,
                                               old(app.storage), first, retry);
              && Closed() && app.history == saved.history && app.storage == saved.storage)
    {
      if !hasCanvas {
        return NoCanvas;
      }
      if !decodes {
        return DecodeFailed;
      }
      if 0 <= index < slides.Length && Truthy(slides[index]) {
        var e := EditedSlide(slides[index], dataUrl, editedAt);
        slides[index] := JObj(e);
        if sharesCurrentSlides {
          // the slot written is a slot of `appState.currentSlides`
          app.currentSlides := slides[..];
        }
        var threw := UpdateHistoryWithEditedSlide(app, e, rule, first, retry);
        if threw {
          return HistoryThrew;
        }
        CloseEditModal();
        return SavedEdit;
      }
      CloseEditModal();
      return NothingToSave;
    }
  }

  /** `type.charAt(0).toUpperCase() + type.slice(1)` for ASCII letters. */
  function Capitalize(s: string): (r: string)
    ensures |r| == |s| && (|s| > 0 ==> r[1..] == s[1..])
  {
    if s == [] then []
    else if 'a' <= s[0] <= 'z' then [(s[0] as int - 32) as char] + s[1..]
    else s
  }

  /** The name shown for an editable object: a textbox's own text (or
      "Text" when empty), otherwise its capitalized type. */
  function ObjectName(objectType: string, text: string): string
  {
    if objectType == "textbox" then (if text == "" then "Text" else text)
    else Capitalize(objectType)
  }

  /** The label in the object list: 15 characters of the name, with "..."
      only when the name is longer. */
  function ObjectLabel(objectType: string, text: string): (r: string)
    ensures var name := ObjectName(objectType, text);
      && (|name| <= 15 ==> r == name)
      && (|name| > 15 ==> |r| == 18 && r[..15] == name[..15] && r[15..] == "...")
  {
    Truncate(ObjectName(objectType, text), 15)
  }

  lemma ObjectLabelExamples()
    ensures ObjectLabel("textbox", "") == "Text"
    ensures ObjectLabel("rect", "") == "Rect"
    ensures ObjectLabel("textbox", "A caption longer than fifteen") == "A caption longe..."
  {
    assert "A caption longer than fifteen"[..15] == "A caption longe";
  }
}
