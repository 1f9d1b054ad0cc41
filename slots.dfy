/** The compound-drawable slots of the widget: `DRAWABLES_LENGTH` and the
    positions in the array `getCompoundDrawables()` returns. */
module Slots {
  const DrawablesLength: nat := 4
  const LeftPosition: nat := 0
  const TopPosition: nat := 1
  const RightPosition: nat := 2
  const BottomPosition: nat := 3
}
