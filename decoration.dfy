/** The drawable decorator of `updateDrawables`: each non-null compound
    drawable is tinted (when a tint is set) and then scaled (when a size is
    set).  `D` is an opaque drawable type; the platform's tinting and
    scaling are the function parameters `tint` and `scale`. */
module Decoration {
  import opened JavaLang
  import opened Slots

  /** `Color.TRANSPARENT`, the "no tint" value of `mTintColor`. */
  const Transparent: Int32 := 0
  /** The "no fixed size" value of `mDrawableSize`. */
  const NoSize: Int32 := -1

  /** `updateDrawables` does any work only when a tint or a size is set. */
  predicate Decorates(tintColor: Int32, drawableSize: Int32) {
    tintColor != Transparent || drawableSize != NoSize
  }

  /** `getScaleDrawable`: the scaled drawable the platform makes, or the
      drawable itself when it cannot make one. */
  function ScaleOrKeep<D>(d: D, drawableSize: Int32, scale: (D, Int32) -> Option<D>): D
  {
    match scale(d, drawableSize)
    case Some(scaled) => scaled
    case None => d
  }

  /** A drawable after the optional tint. */
  function Tinted<D>(d: D, tintColor: Int32, tint: (D, Int32) -> D): D {
    if tintColor != Transparent then tint(d, tintColor) else d
  }

  /** One non-null drawable through the optional tint, then the optional
      scale. */
  function DecorateOne<D>(d: D, tintColor: Int32, drawableSize: Int32,
                          tint: (D, Int32) -> D, scale: (D, Int32) -> Option<D>): D
  {
    var tinted := Tinted(d, tintColor, tint);
    if drawableSize != NoSize then ScaleOrKeep(tinted, drawableSize, scale) else tinted
  }

  /** A slot of `wrappedDrawables`: `null` stays `null`. */
  function DecorateSlot<D>(slot: Option<D>, tintColor: Int32, drawableSize: Int32,
                           tint: (D, Int32) -> D, scale: (D, Int32) -> Option<D>): Option<D>
  {
    if slot.Some? then Some(DecorateOne(slot.value, tintColor, drawableSize, tint, scale)) else None
  }

  /** Every slot decorated. */
  function Decorated<D>(drawables: seq<Option<D>>, tintColor: Int32, drawableSize: Int32,
                        tint: (D, Int32) -> D, scale: (D, Int32) -> Option<D>): seq<Option<D>>
  {
    seq(|drawables|, i requires 0 <= i < |drawables| =>
      DecorateSlot(drawables[i], tintColor, drawableSize, tint, scale))
  }

  /** Tint happens before scale, each only when configured. */
  lemma DecorateOneOrder<D>(d: D, tintColor: Int32, drawableSize: Int32,
                            tint: (D, Int32) -> D, scale: (D, Int32) -> Option<D>)
    ensures tintColor != Transparent && drawableSize == NoSize ==>
            DecorateOne(d, tintColor, drawableSize, tint, scale) == tint(d, tintColor)
    ensures tintColor == Transparent && drawableSize != NoSize ==>
            DecorateOne(d, tintColor, drawableSize, tint, scale) == ScaleOrKeep(d, drawableSize, scale)
    ensures tintColor != Transparent && drawableSize != NoSize ==>
            DecorateOne(d, tintColor, drawableSize, tint, scale) ==
            ScaleOrKeep(tint(d, tintColor), drawableSize, scale)
  {
  }

  /** Line 127's fall-back, slot by slot: a non-null slot whose (possibly
      tinted) drawable the platform cannot scale holds that drawable. */
  lemma DecoratedScaleFallback<D>(drawables: seq<Option<D>>, tintColor: Int32, drawableSize: Int32,
                                  tint: (D, Int32) -> D, scale: (D, Int32) -> Option<D>, i: nat)
    requires i < |drawables| && drawables[i].Some?
    requires scale(Tinted(drawables[i].value, tintColor, tint), drawableSize).None?
    ensures Decorated(drawables, tintColor, drawableSize, tint, scale)[i] ==
            Some(Tinted(drawables[i].value, tintColor, tint))
  {
  }

  /** The `for` loop that fills a fresh `wrappedDrawables` array from the
      four compound drawables; the array's contents are returned. */
  method DecorateSlots<D>(drawables: seq<Option<D>>, tintColor: Int32, drawableSize: Int32,
                          tint: (D, Int32) -> D, scale: (D, Int32) -> Option<D>)
    returns (wrapped: seq<Option<D>>)
    requires |drawables| == DrawablesLength
    ensures |wrapped| == DrawablesLength
    ensures forall i :: 0 <= i < DrawablesLength ==> (wrapped[i].None? <==> drawables[i].None?)
    ensures forall i :: 0 <= i < DrawablesLength && drawables[i].Some? ==>
              wrapped[i].value == DecorateOne(drawables[i].value, tintColor, drawableSize, tint, scale)
    ensures wrapped == Decorated(drawables, tintColor, drawableSize, tint, scale)
  {
    var wrappedDrawables := new Option<D>[DrawablesLength](_ => None);
    for i := 0 to DrawablesLength
      invariant forall j :: 0 <= j < i ==>
                  wrappedDrawables[j] == DecorateSlot(drawables[j], tintColor, drawableSize, tint, scale)
      invariant forall j :: i <= j < DrawablesLength ==> wrappedDrawables[j].None?
    {
      var drawable := drawables[i];
      if drawable.Some? {
        var wrappedDrawable := drawable.value;
        if tintColor != Transparent {
          wrappedDrawable := tint(wrappedDrawable, tintColor);
        }
        if drawableSize != NoSize {
          wrappedDrawable := ScaleOrKeep(wrappedDrawable, drawableSize, scale);
        }
        wrappedDrawables[i] := Some(wrappedDrawable);
      }
    }
    wrapped := wrappedDrawables[..];
  }
}
