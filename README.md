# OmegaCenterIconButton, modelled in Dafny

`OmegaCenterIconButton` is an Android button. It keeps its text centred between a left and a right compound icon by recomputing its left and right padding. This project models the three pieces of sequential logic in its one source file:

* **Icon padding calculator** (`updatePadding(int)`, `setPadding`). From the view width, the intrinsic widths of the left and right icons, the width of the dominant text line and the compound-drawable gap, it computes `paddingSize` with Java's 32-bit arithmetic and truncating division. It then installs `max(floor, paddingSize)` on the left and the right and keeps top and bottom. `setPadding` stores its left and right arguments as the new floors.
* **Dominant-line selector** (`divideText`). It splits the text on line feeds the way `StringTokenizer` does, then picks the last token that is strictly longer than the token before it, or the first token when there is none. Under all-caps the chosen token is upper-cased.
* **Drawable decorator** (`updateDrawables`). It fills a fresh four-slot array. Null slots stay null, and each drawable is tinted when a tint is set and then scaled when a size is set. It installs the result, and that recomputes the padding.

Files:

* `java_lang.dfy` (module `JavaLang`): `Int32`, wrap-around, truncating `/ 2`, `Math.max`, `null` as `Option`, and thrown exceptions as `Result`/`Completion`.
* `slots.dfy` (`Slots`): `DRAWABLES_LENGTH` and the positions of the four compound-drawable slots.
* `dominant_line.dfy` (`DominantLine`): the tokenizer, the selection rule and `divideText`.
* `centering.dfy` (`Centering`): the `paddingSize` formula and one padding pass as a pure function.
* `decoration.dfy` (`Decoration`): the decoration loop.
* `button.dfy` (`Button`): the widget class. Its fields are the padding, the floors `mLeftPadding`/`mRightPadding`, the compound drawables, the text, the tint, the size and the drawable padding. Its methods are proved against the pure functions above. Its invariant `Valid()` says the padding never lies below the floors.

Facts about the code that the model keeps:

* `StringTokenizer` does not trim tokens.
* The selection compares each token only with the one before it (`list.get(i + 1)` against `list.get(i)`). So for the lines `abc`, `a`, `ab` it picks `ab`, not the longest line; see `DominantLine.DominantExamples`.
* A non-empty text made only of line feeds has no tokens, and `list.get(0)` then throws. The model returns `Threw(IndexOutOfBounds)`. The exception leaves `updatePadding` before anything is installed, so the padding is unchanged.

## Model

| member | source | states |
|---|---|---|
| `JavaLang.Wrap32` | center_icon_button/src/main/java/com/omega_r/libs/OmegaCenterIconButton.java:181-185 | a Java `int` result is the exact result modulo 2^32, and equals it when there is no overflow |
| `JavaLang.JavaHalf` | center_icon_button/src/main/java/com/omega_r/libs/OmegaCenterIconButton.java:181-185 | `x / 2` truncates toward zero: the remainder is -1, 0 or 1 and has the sign of `x` |
| `JavaLang.Max` | center_icon_button/src/main/java/com/omega_r/libs/OmegaCenterIconButton.java:189 | `Math.max` is one of its arguments and at least both |
| `Centering.IconGap` | center_icon_button/src/main/java/com/omega_r/libs/OmegaCenterIconButton.java:177 | the gap is at least 1 and at least the drawable padding, and is one of the two |
| `Centering.PaddingSizeIsHalfSlack` | center_icon_button/src/main/java/com/omega_r/libs/OmegaCenterIconButton.java:180-186 | the three branches of `paddingSize` equal half of the width minus the content of the layout `icon gap text gap icon`, with wrap-around and truncation |
| `Centering.PaddingSizeCentres` | center_icon_button/src/main/java/com/omega_r/libs/OmegaCenterIconButton.java:180-186 | without overflow, the width minus content minus both paddings is -1, 0 or 1; content that fits gets a non-negative padding and stays within the width |
| `Centering.PassSkipped` | center_icon_button/src/main/java/com/omega_r/libs/OmegaCenterIconButton.java:166-174 | with width 0, a slot count other than 4, or no left and no right drawable, the pass changes no padding |
| `Centering.PassThrowsIff` | center_icon_button/src/main/java/com/omega_r/libs/OmegaCenterIconButton.java:166-176 | a pass throws exactly when it passes the guards and measuring the text throws |
| `Centering.PassRespectsFloors` | center_icon_button/src/main/java/com/omega_r/libs/OmegaCenterIconButton.java:189 | a completed pass keeps top and bottom; left is at least its floor and `paddingSize`, and equals one of them; the same holds on the right |
| `Centering.PassIdempotent` | center_icon_button/src/main/java/com/omega_r/libs/OmegaCenterIconButton.java:166-190 | a second pass with the same inputs leaves the padding the first pass produced |
| `DominantLine.RunLength` | center_icon_button/src/main/java/com/omega_r/libs/OmegaCenterIconButton.java:208-211 | the token scan stops exactly at the first line feed or at the end of the text |
| `DominantLine.Tokens` | center_icon_button/src/main/java/com/omega_r/libs/OmegaCenterIconButton.java:208-211 | every token is non-empty and holds no line feed |
| `DominantLine.TokensKeepCharacters` | center_icon_button/src/main/java/com/omega_r/libs/OmegaCenterIconButton.java:208-211 | laid end to end, the tokens are the text with its line feeds deleted, in text order |
| `DominantLine.TokensEmptyIff` | center_icon_button/src/main/java/com/omega_r/libs/OmegaCenterIconButton.java:208-211 | there are no tokens exactly when the text consists of line feeds only |
| `DominantLine.TokensOfJoinLines` | center_icon_button/src/main/java/com/omega_r/libs/OmegaCenterIconButton.java:208-211 | tokenizing non-empty, line-feed-free lines joined by line feeds gives the lines back |
| `DominantLine.TokensSplit` | center_icon_button/src/main/java/com/omega_r/libs/OmegaCenterIconButton.java:208-211 | every line feed is a token boundary: the tokens of `a`, a line feed and `b` are the tokens of `a` followed by those of `b`, so leading, trailing and repeated line feeds add no token and join nothing |
| `DominantLine.DominantIndex` | center_icon_button/src/main/java/com/omega_r/libs/OmegaCenterIconButton.java:215-220 | the chosen index is 0 or a strict rise over its predecessor, and no later index is a strict rise |
| `DominantLine.DominantIndexUnique` | center_icon_button/src/main/java/com/omega_r/libs/OmegaCenterIconButton.java:215-220 | those two conditions determine the chosen index |
| `DominantLine.DominantExamples` | center_icon_button/src/main/java/com/omega_r/libs/OmegaCenterIconButton.java:215-220 | `a, abc, ab` gives `abc`; `abc, xy` gives `abc`; `abc, a, ab` gives `ab` |
| `DominantLine.DividedTextOfEmpty` | center_icon_button/src/main/java/com/omega_r/libs/OmegaCenterIconButton.java:203-206 | the empty text gives the empty line |
| `DominantLine.DividedTextThrowsIff` | center_icon_button/src/main/java/com/omega_r/libs/OmegaCenterIconButton.java:207-215 | `divideText` throws exactly for a non-empty text of line feeds only |
| `DominantLine.DividedTextOfOneLine` | center_icon_button/src/main/java/com/omega_r/libs/OmegaCenterIconButton.java:212-213 | a single token is returned, upper-cased under all-caps |
| `DominantLine.DividedTextIsAToken` | center_icon_button/src/main/java/com/omega_r/libs/OmegaCenterIconButton.java:212-222 | for non-empty text, a returned line is one of the tokens, upper-cased under all-caps |
| `DominantLine.SplitTokens` | center_icon_button/src/main/java/com/omega_r/libs/OmegaCenterIconButton.java:207-211 | the tokenizer loop collects exactly `Tokens(text)` |
| `DominantLine.SelectDominant` | center_icon_button/src/main/java/com/omega_r/libs/OmegaCenterIconButton.java:215-220 | the `longPart` loop ends with the token at `DominantIndex` |
| `DominantLine.DivideText` | center_icon_button/src/main/java/com/omega_r/libs/OmegaCenterIconButton.java:202-223 | `divideText` returns `DividedText`: the empty line, an exception, or the dominant token, upper-cased under all-caps |
| `Decoration.DecorateOneOrder` | center_icon_button/src/main/java/com/omega_r/libs/OmegaCenterIconButton.java:86-93 | a drawable is tinted only when a tint is set and scaled only when a size is set, tint first |
| `Decoration.DecoratedScaleFallback` | center_icon_button/src/main/java/com/omega_r/libs/OmegaCenterIconButton.java:111-128 | a non-null slot whose drawable, after the optional tint, the platform cannot scale holds that tinted (or untouched) drawable |
| `Decoration.DecorateSlots` | center_icon_button/src/main/java/com/omega_r/libs/OmegaCenterIconButton.java:83-96 | the loop fills four slots; null slots stay null and every other slot holds its drawable decorated |
| `Button.TextWidthThrowsIff` | center_icon_button/src/main/java/com/omega_r/libs/OmegaCenterIconButton.java:192-200 | measuring the text throws exactly for a non-empty text of line feeds only; otherwise, for non-empty text, the width is `measure` of one of its tokens, upper-cased under all-caps |
| `Button.OmegaCenterIconButton.GetTextWidth` | center_icon_button/src/main/java/com/omega_r/libs/OmegaCenterIconButton.java:192-200 | the method returns `TextWidth` of the current text and all-caps state |
| `Button.OmegaCenterIconButton.constructor` | center_icon_button/src/main/java/com/omega_r/libs/OmegaCenterIconButton.java:46-76 | attributes set tint, size and drawable padding and decorate the drawables; the current left and right padding become the floors |
| `Button.OmegaCenterIconButton.UpdatePadding` | center_icon_button/src/main/java/com/omega_r/libs/OmegaCenterIconButton.java:166-190 | the new padding is that of `Pass`, or is unchanged when measuring throws; the floors stay respected |
| `Button.OmegaCenterIconButton.SetPadding` | center_icon_button/src/main/java/com/omega_r/libs/OmegaCenterIconButton.java:158-164 | the given left and right become the floors, the given padding is installed and recomputed, and the result is at least the floors |
| `Button.OmegaCenterIconButton.SetCompoundDrawables` | center_icon_button/src/main/java/com/omega_r/libs/OmegaCenterIconButton.java:136-140 | the four drawables are installed and the padding is recomputed for the measured width |
| `Button.OmegaCenterIconButton.UpdateDrawables` | center_icon_button/src/main/java/com/omega_r/libs/OmegaCenterIconButton.java:78-102 | with no tint and no size, or without four slots, nothing changes; otherwise the decorated drawables are installed and the padding is recomputed |

## Left out

- Attribute and resource parsing in `init`: tint, size and drawable padding arrive already resolved, as `Button.Attributes`.
- Platform drawable operations: `DrawableCompat.wrap/mutate/setTint`, `Bitmap.createScaledBitmap`, `ScaleDrawable` and `setBounds` are not modelled. Tinting is the abstract `tint`, and scaling is the abstract `scale`, whose `None` is the fall-back to the input drawable. Because tint is abstract, whether two buttons share a tinted instance is not modelled.
- Text measurement: `Paint.getTextBounds` is the abstract `measure`, and the lazily allocated `Rect` is not modelled. Because of that, nothing is proved about the width of the empty line.
- Upper-casing: `toUpperCase` is locale-dependent and is the abstract `upper`.
- `isAllCaps`: it inspects the transformation method's class name by reflection, so it is the boolean field `allCaps`.
- String length: Java's `String.length()` counts UTF-16 code units. The model counts the characters of a `string`.
- View lifecycle overrides: `onSizeChanged`, `setText`, the resource-id overload of `setCompoundDrawablesWithIntrinsicBounds` and the no-argument `updatePadding()` only forward to the padding pass. They are not modelled. Nor are rendering and the framework's measurement, which sets `measuredWidth`.
- `getCompoundDrawables()` is the field `compound`. The model lets it have any length, so the slot-count guards stay meaningful.
