/**
 * The floating buttons' element styles. Scroll-trigger handlers write the
 * element's inline `style.position` and `style.bottom` (docking it at the
 * end of a section, or pinning it to the viewport again), and some of them
 * animate it in or out.
 */
module Docking {
  import opened Text

  /** The inline `style.position`; `Unset` leaves the class list's value. */
  datatype Position = Unset | Fixed | Absolute

  /** Viewport widths below this are the mobile layout. */
  const MobileBreakpoint: int := 768

  /** `window.innerWidth < 768 ? small : large`, for rem offsets. */
  function ByWidth(width: int, small: nat, large: nat): (rem: nat)
    ensures width < MobileBreakpoint ==> rem == small
    ensures width >= MobileBreakpoint ==> rem == large
  {
    if width < MobileBreakpoint then small else large
  }

  class ButtonElement {
    var position: Position
    /** `style.bottom` in rem; `None` until a handler writes it. */
    var bottomRem: Option<nat>
    /** Whether the button is animated in (opacity 1). */
    var shown: bool

    constructor (shown: bool)
      ensures position == Unset && bottomRem == None && this.shown == shown
    {
      position := Unset;
      bottomRem := None;
      this.shown := shown;
    }

    /** Writes position and bottom offset together; visibility is kept. */
    method Place(p: Position, rem: nat)
      modifies this
      ensures position == p && bottomRem == Some(rem)
      ensures shown == old(shown)
    {
      position := p;
      bottomRem := Some(rem);
    }

    method Show()
      modifies this
      ensures shown
      ensures position == old(position) && bottomRem == old(bottomRem)
    {
      shown := true;
    }

    method Hide()
      modifies this
      ensures !shown
      ensures position == old(position) && bottomRem == old(bottomRem)
    {
      shown := false;
    }
  }
}
