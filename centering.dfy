/** The icon padding calculator of `updatePadding(int)`, on plain values:
    the view width, the intrinsic widths of the left and right compound
    drawables (absent when the slot is `null`), the measured text width, the
    compound-drawable padding and the padding floors. */
module Centering {
  import opened JavaLang
  import opened Slots

  /** A view's padding, in the order `setPadding` takes it. */
  datatype Padding = Padding(left: Int32, top: Int32, right: Int32, bottom: Int32)

  /** `Math.max(getCompoundDrawablePadding(), 1)`: the gap between an icon
      and the text, never below one pixel. */
  function IconGap(drawablePadding: Int32): (g: Int32)
    ensures g >= 1 && g >= drawablePadding
    ensures g == 1 || g == drawablePadding
  {
    Max(drawablePadding, 1)
  }

  /** `paddingSize`, with Java's wrapping `int` arithmetic and truncating
      division, one branch per occupied combination of icon slots. */
  function PaddingSize(width: Int32, left: Option<Int32>, right: Option<Int32>,
                       textWidth: Int32, gap: Int32): Int32
    requires left.Some? || right.Some?
  {
    if left.Some? && right.Some? then
      JavaHalf(Wrap32(width - left.value - right.value - textWidth - gap * 4))
    else if left.Some? then
      JavaHalf(Wrap32(width - left.value - gap * 2 - textWidth))
    else
      JavaHalf(Wrap32(width - right.value - gap * 2 - textWidth))
  }

  /** Reference layout `padding | icon | gap | text | gap | icon | padding`:
      the width of everything but the two paddings.  Each present icon
      brings its own width and one gap on each side of it. */
  function IconShare(icon: Option<Int32>, gap: int): int {
    if icon.Some? then icon.value + 2 * gap else 0
  }

  function ContentWidth(left: Option<Int32>, right: Option<Int32>, textWidth: int, gap: int): int {
    IconShare(left, gap) + textWidth + IconShare(right, gap)
  }

  /** The three branches are one formula: half the room the content leaves. */
  lemma PaddingSizeIsHalfSlack(width: Int32, left: Option<Int32>, right: Option<Int32>,
                              textWidth: Int32, gap: Int32)
    requires left.Some? || right.Some?
    ensures PaddingSize(width, left, right, textWidth, gap) ==
            JavaHalf(Wrap32(width - ContentWidth(left, right, textWidth, gap)))
  {
  }

  /** Without overflow, the two paddings centre the content: what is left
      over is at most one pixel, and a content that fits gets a
      non-negative padding and stays within the width. */
  lemma PaddingSizeCentres(width: Int32, left: Option<Int32>, right: Option<Int32>,
                           textWidth: Int32, gap: Int32)
    requires left.Some? || right.Some?
    requires MinInt32 <= width - ContentWidth(left, right, textWidth, gap) <= MaxInt32
    ensures var p := PaddingSize(width, left, right, textWidth, gap);
            var rest := width - ContentWidth(left, right, textWidth, gap) - 2 * p;
            -1 <= rest <= 1
    ensures var p := PaddingSize(width, left, right, textWidth, gap);
            width >= ContentWidth(left, right, textWidth, gap) ==>
              p >= 0 && ContentWidth(left, right, textWidth, gap) + 2 * p <= width
  {
    PaddingSizeIsHalfSlack(width, left, right, textWidth, gap);
  }

  /** The intrinsic width of a compound-drawable slot, `null` staying absent. */
  function SlotWidth<D>(slot: Option<D>, widthOf: D -> Int32): Option<Int32> {
    if slot.Some? then Some(widthOf(slot.value)) else None
  }

  /** The guard clauses of `updatePadding(int)`: a zero width, a drawable
      array that does not have four slots, or no left and no right icon. */
  predicate Skips<D>(width: Int32, slots: seq<Option<D>>) {
    width == 0 || |slots| != DrawablesLength ||
    (slots[LeftPosition].None? && slots[RightPosition].None?)
  }

  /** The padding one pass of `updatePadding(int)` leaves, or the exception
      measuring the text throws.  `textWidth` is what `getTextWidth()` would
      give; it is only consulted once the guards pass. */
  function Pass<D>(cur: Padding, leftFloor: Int32, rightFloor: Int32, width: Int32,
                   slots: seq<Option<D>>, widthOf: D -> Int32,
                   textWidth: Result<Int32>, drawablePadding: Int32): Result<Padding>
  {
    if Skips(width, slots) then Ok(cur)
    else if textWidth.Threw? then Threw(textWidth.exception)
    else
      var p := PaddingSize(width, SlotWidth(slots[LeftPosition], widthOf), SlotWidth(slots[RightPosition], widthOf),
                           textWidth.value, IconGap(drawablePadding));
      Ok(Padding(Max(leftFloor, p), cur.top, Max(p, rightFloor), cur.bottom))
  }

  /** A skipped pass changes no padding. */
  lemma PassSkipped<D>(cur: Padding, leftFloor: Int32, rightFloor: Int32, width: Int32,
                       slots: seq<Option<D>>, widthOf: D -> Int32,
                       textWidth: Result<Int32>, drawablePadding: Int32)
    requires Skips(width, slots)
    ensures Pass(cur, leftFloor, rightFloor, width, slots, widthOf, textWidth, drawablePadding) == Ok(cur)
  {
  }

  /** A pass throws exactly when it is not skipped and measuring throws. */
  lemma PassThrowsIff<D>(cur: Padding, leftFloor: Int32, rightFloor: Int32, width: Int32,
                         slots: seq<Option<D>>, widthOf: D -> Int32,
                         textWidth: Result<Int32>, drawablePadding: Int32)
    ensures Pass(cur, leftFloor, rightFloor, width, slots, widthOf, textWidth, drawablePadding).Threw?
            <==> !Skips(width, slots) && textWidth.Threw?
  {
  }

  /** A completed pass keeps top and bottom, never goes below the floors,
      and clamps a too small `paddingSize` to the floor on each side. */
  lemma PassRespectsFloors<D>(cur: Padding, leftFloor: Int32, rightFloor: Int32, width: Int32,
                              slots: seq<Option<D>>, widthOf: D -> Int32,
                              textWidth: Result<Int32>, drawablePadding: Int32)
    requires !Skips(width, slots) && textWidth.Ok?
    ensures var r := Pass(cur, leftFloor, rightFloor, width, slots, widthOf, textWidth, drawablePadding);
            var p := PaddingSize(width, SlotWidth(slots[LeftPosition], widthOf), SlotWidth(slots[RightPosition], widthOf),
                                 textWidth.value, IconGap(drawablePadding));
            r.Ok? && r.value.top == cur.top && r.value.bottom == cur.bottom &&
            r.value.left >= leftFloor && r.value.right >= rightFloor &&
            r.value.left >= p && r.value.right >= p &&
            (r.value.left == leftFloor || r.value.left == p) &&
            (r.value.right == rightFloor || r.value.right == p)
  {
  }

  /** How a pass ends: with the padding it computed installed and normal
      completion, or with the padding unchanged and the exception thrown. */
  predicate Installed(r: Result<Padding>, before: Padding, after: Padding, c: Completion) {
    if r.Ok? then after == r.value && c == Normal
    else after == before && c == Abrupt(r.exception)
  }

  /** Running the pass again on its own result changes nothing. */
  lemma PassIdempotent<D>(cur: Padding, leftFloor: Int32, rightFloor: Int32, width: Int32,
                          slots: seq<Option<D>>, widthOf: D -> Int32,
                          textWidth: Result<Int32>, drawablePadding: Int32)
    requires Pass(cur, leftFloor, rightFloor, width, slots, widthOf, textWidth, drawablePadding).Ok?
    ensures var once := Pass(cur, leftFloor, rightFloor, width, slots, widthOf, textWidth, drawablePadding);
            Pass(once.value, leftFloor, rightFloor, width, slots, widthOf, textWidth, drawablePadding) == once
  {
  }
}
