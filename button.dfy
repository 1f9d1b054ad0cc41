/** The `OmegaCenterIconButton` widget: the view's padding, the padding
    floors `mLeftPadding`/`mRightPadding`, the compound drawables, and the
    methods that recompute the centring padding. */
module Button {
  import opened JavaLang
  import opened DominantLine
  import opened Centering
  import opened Decoration
  import opened Slots

  /** The styled attributes `init` reads: `drawableTint`, `drawableSize`
      and `android:drawablePadding`, already resolved to pixels. */
  datatype Attributes = Attributes(tintColor: Int32, drawableSize: Int32, drawablePadding: Int32)

  /** `getTextWidth()`: the measured width of the dominant line. */
  function TextWidth(text: string, allCaps: bool, upper: string -> string,
                     measure: string -> Int32): Result<Int32>
  {
    match DividedText(text, allCaps, upper)
    case Ok(line) => Ok(measure(line))
    case Threw(e) => Threw(e)
  }

  /** Measuring the text throws exactly for a non-empty text made only of
      line feeds; otherwise, for non-empty text, the width is that of one of
      its tokens, upper-cased under all-caps. */
  lemma TextWidthThrowsIff(text: string, allCaps: bool, upper: string -> string,
                           measure: string -> Int32)
    ensures TextWidth(text, allCaps, upper, measure).Threw? <==>
            text != [] && forall i :: 0 <= i < |text| ==> text[i] == LineFeed
    ensures text != [] && TextWidth(text, allCaps, upper, measure).Ok? ==>
            exists k :: (0 <= k < |Tokens(text)| &&
              TextWidth(text, allCaps, upper, measure).value ==
                measure(if allCaps then upper(Tokens(text)[k]) else Tokens(text)[k]))
  {
    DividedTextThrowsIff(text, allCaps, upper);
    if text != [] && TextWidth(text, allCaps, upper, measure).Ok? {
      var k := DominantIndex(Tokens(text));
      assert TextWidth(text, allCaps, upper, measure).value ==
             measure(if allCaps then upper(Tokens(text)[k]) else Tokens(text)[k]);
    }
  }

  /** `D` is the platform's drawable type.  The collaborators the widget
      calls but does not define are constant functions: `widthOf` is
      `getIntrinsicWidth()`, `measure` is `Paint.getTextBounds(..).width()`,
      `upper` is `toUpperCase()`, `tint` is `getTintedDrawable` and `scale`
      gives the drawable `getScaleDrawable` can build, if any. */
  class OmegaCenterIconButton<D> {
    var padding: Padding
    var leftFloor: Int32
    var rightFloor: Int32
    var compound: seq<Option<D>>
    var text: string
    var allCaps: bool
    var measuredWidth: Int32
    var drawablePadding: Int32
    var tintColor: Int32
    var drawableSize: Int32

    const widthOf: D -> Int32
    const measure: string -> Int32
    const upper: string -> string
    const tint: (D, Int32) -> D
    const scale: (D, Int32) -> Option<D>

    /** The centring padding never lies below the floors. */
    ghost predicate Valid()
      reads this
    {
      padding.left >= leftFloor && padding.right >= rightFloor
    }

    /** The constructors and `init`: the framework has already set the
        padding, the compound drawables, the text and the drawable padding;
        a layout has not happened yet, so the measured width is 0.  With
        attributes, `init` stores tint and size, sets the drawable padding
        and decorates the drawables; in every case the current left and
        right padding become the floors. */
    constructor (attrs: Option<Attributes>, framePadding: Padding, drawables: seq<Option<D>>,
                 frameDrawablePadding: Int32, text: string, allCaps: bool,
                 widthOf: D -> Int32, measure: string -> Int32, upper: string -> string,
                 tint: (D, Int32) -> D, scale: (D, Int32) -> Option<D>)
      ensures Valid()
      ensures padding == framePadding && measuredWidth == 0
      ensures leftFloor == framePadding.left && rightFloor == framePadding.right
      ensures this.text == text && this.allCaps == allCaps
      ensures this.widthOf == widthOf && this.measure == measure && this.upper == upper
      ensures this.tint == tint && this.scale == scale
      ensures attrs.None? ==>
                tintColor == Transparent && drawableSize == 0 &&
                drawablePadding == frameDrawablePadding && compound == drawables
      ensures attrs.Some? ==>
                tintColor == attrs.value.tintColor && drawableSize == attrs.value.drawableSize &&
                drawablePadding == attrs.value.drawablePadding &&
                compound == if Decorates(tintColor, drawableSize) && |drawables| == DrawablesLength
                            then Decorated(drawables, tintColor, drawableSize, tint, scale)
                            else drawables
    {
      padding := framePadding;
      leftFloor, rightFloor := framePadding.left, framePadding.right;
      compound := drawables;
      this.text := text;
      this.allCaps := allCaps;
      measuredWidth := 0;
      this.widthOf, this.measure, this.upper := widthOf, measure, upper;
      this.tint, this.scale := tint, scale;
      if attrs.Some? {
        tintColor, drawableSize := attrs.value.tintColor, attrs.value.drawableSize;
        drawablePadding := attrs.value.drawablePadding;
      } else {
        tintColor, drawableSize := Transparent, 0;
        drawablePadding := frameDrawablePadding;
      }
      new;
      if attrs.Some? {
        var _ := UpdateDrawables();
      }
      leftFloor, rightFloor := padding.left, padding.right;
    }

    /** `getTextWidth()` on the current text and all-caps state. */
    method GetTextWidth() returns (r: Result<Int32>)
      ensures r == TextWidth(text, allCaps, upper, measure)
    {
      var line := DivideText(text, allCaps, upper);
      if line.Threw? {
        return Threw(line.exception);
      }
      r := Ok(measure(line.value));
    }

    /** `updatePadding(int)`. */
    method UpdatePadding(width: Int32) returns (c: Completion)
      requires Valid()
      modifies this`padding
      ensures Valid()
      ensures Installed(Pass(old(padding), leftFloor, rightFloor, width, compound, widthOf,
                             TextWidth(text, allCaps, upper, measure), drawablePadding),
                        old(padding), padding, c)
    {
      if width == 0 {
        return Normal;
      }
      var compoundDrawables := compound;
      if |compoundDrawables| == 0 || |compoundDrawables| != DrawablesLength {
        return Normal;
      }
      var leftDrawable := compoundDrawables[LeftPosition];
      var rightDrawable := compoundDrawables[RightPosition];
      if leftDrawable.None? && rightDrawable.None? {
        return Normal;
      }
      var textWidth := GetTextWidth();
      if textWidth.Threw? {
        return Abrupt(textWidth.exception);
      }
      var iconPadding := IconGap(drawablePadding);
      var paddingSize := PaddingSize(width, SlotWidth(leftDrawable, widthOf), SlotWidth(rightDrawable, widthOf),
                                     textWidth.value, iconPadding);
      padding := Padding(Max(leftFloor, paddingSize), padding.top, Max(paddingSize, rightFloor), padding.bottom);
      c := Normal;
    }

    /** `setPadding`: the given padding is installed, its left and right
        become the new floors, and the padding is recomputed for the
        measured width. */
    method SetPadding(left: Int32, top: Int32, right: Int32, bottom: Int32) returns (c: Completion)
      modifies this`padding, this`leftFloor, this`rightFloor
      ensures Valid()
      ensures leftFloor == left && rightFloor == right
      ensures padding.left >= left && padding.right >= right
      ensures Installed(Pass(Padding(left, top, right, bottom), left, right, measuredWidth, compound, widthOf,
                             TextWidth(text, allCaps, upper, measure), drawablePadding),
                        Padding(left, top, right, bottom), padding, c)
    {
      padding := Padding(left, top, right, bottom);
      leftFloor, rightFloor := left, right;
      c := UpdatePadding(measuredWidth);
    }

    /** `setCompoundDrawablesWithIntrinsicBounds(Drawable, ...)`: the four
        drawables are installed and the padding is recomputed. */
    method SetCompoundDrawables(left: Option<D>, top: Option<D>, right: Option<D>, bottom: Option<D>)
      returns (c: Completion)
      requires Valid()
      modifies this`compound, this`padding
      ensures Valid()
      ensures compound == [left, top, right, bottom]
      ensures Installed(Pass(old(padding), leftFloor, rightFloor, measuredWidth, compound, widthOf,
                             TextWidth(text, allCaps, upper, measure), drawablePadding),
                        old(padding), padding, c)
    {
      compound := [left, top, right, bottom];
      c := UpdatePadding(measuredWidth);
    }

    /** `updateDrawables()`: with a tint or a size configured and four
        slots, the decorated drawables are installed (which recomputes the
        padding); otherwise nothing changes. */
    method UpdateDrawables() returns (c: Completion)
      requires Valid()
      modifies this`compound, this`padding
      ensures Valid()
      ensures !Decorates(tintColor, drawableSize) || |old(compound)| != DrawablesLength ==>
                compound == old(compound) && padding == old(padding) && c == Normal
      ensures Decorates(tintColor, drawableSize) && |old(compound)| == DrawablesLength ==>
                compound == Decorated(old(compound), tintColor, drawableSize, tint, scale) &&
                Installed(Pass(old(padding), leftFloor, rightFloor, measuredWidth, compound, widthOf,
                               TextWidth(text, allCaps, upper, measure), drawablePadding),
                          old(padding), padding, c)
    {
      if tintColor != Transparent || drawableSize != NoSize {
        var drawables := compound;
        if |drawables| != DrawablesLength {
          return Normal;
        }
        var wrappedDrawables := DecorateSlots(drawables, tintColor, drawableSize, tint, scale);
        c := SetCompoundDrawables(wrappedDrawables[LeftPosition], wrappedDrawables[TopPosition],
                                  wrappedDrawables[RightPosition], wrappedDrawables[BottomPosition]);
        assert compound == wrappedDrawables;
      } else {
        c := Normal;
      }
    }
  }
}
