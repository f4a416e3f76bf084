/** The full-screen slide preview: the list on show, the current index,
    and the wrap-around of the arrow keys (`navigateSlide`,
    `closePreview`, `handlePreviewKeyboard`). */
module Preview {
  import opened Values

  /** The index after a step, as navigateSlide corrects it: below 0 goes to
      the last slide, past the end goes to the first. */
  function Wrap(j: int, len: nat): int
  {
    if j < 0 then len - 1 else if j >= len then 0 else j
  }

  /** One correction puts any index at all back into range. */
  lemma WrapInRange(j: int, len: nat)
    requires len > 0
    ensures 0 <= Wrap(j, len) < len
    ensures 0 <= j < len ==> Wrap(j, len) == j
  {
  }

  /** From an index in range, a step of one either way is a step modulo the
      length. */
  lemma WrapIsModular(i: int, direction: int, len: nat)
    requires 0 <= i < len && (direction == 1 || direction == -1)
    ensures Wrap(i + direction, len) == (i + direction) % len
  {
    if i + direction == len {
      assert (i + direction) % len == 0;
    } else if i + direction == -1 {
      assert -1 == (-1) * len + (len - 1);
    }
  }

  /** A step right undoes a step left and the other way round. */
  lemma WrapStepsCancel(i: int, len: nat)
    requires 0 <= i < len
    ensures Wrap(Wrap(i + 1, len) - 1, len) == i
    ensures Wrap(Wrap(i - 1, len) + 1, len) == i
  {
  }

  class PreviewModal {
    var slides: seq<Json>   // currentPreviewSlides
    var index: int          // currentPreviewIndex

    constructor ()
      ensures slides == [] && index == 0
    {
      slides := [];
      index := 0;
    }

    /** The state `openPreview(slides, index)` records. */
    method Open(s: seq<Json>, i: int)
      modifies this
      ensures slides == s && index == i
    {
      slides := s;
      index := i;
    }

    /** `closePreview()`. */
    method Close()
      modifies this
      ensures slides == [] && index == 0
    {
      slides := [];
      index := 0;
    }

    /** `navigateSlide(direction)`: nothing on an empty list; otherwise the
      index moves and wraps, and ends in range whatever it was. */
    method Navigate(direction: int)
      modifies this
      ensures slides == old(slides)
      ensures |slides| == 0 ==> index == old(index)
      ensures |slides| > 0 ==> index == Wrap(old(index) + direction, |slides|) && 0 <= index < |slides|
    {
      if |slides| == 0 {
        return;
      }
      index := index + direction;
      if index < 0 {
        index := |slides| - 1;
      } else if index >= |slides| {
        index := 0;
      }
    }

    /** `handlePreviewKeyboard(event)`. */
    method HandleKey(key: string)
      modifies this
      ensures key == "Escape" ==> slides == [] && index == 0
      ensures key == "ArrowLeft" ==>
        && slides == old(slides)
        && index == (if |slides| == 0 then old(index) else Wrap(old(index) - 1, |slides|))
      ensures key == "ArrowRight" ==>
        && slides == old(slides)
        && index == (if |slides| == 0 then old(index) else Wrap(old(index) + 1, |slides|))
      ensures key !in {"Escape", "ArrowLeft", "ArrowRight"} ==> slides == old(slides) && index == old(index)
    {
      if key == "Escape" {
        Close();
      } else if key == "ArrowLeft" {
        Navigate(-1);
      } else if key == "ArrowRight" {
        Navigate(1);
      }
    }
  }
}
