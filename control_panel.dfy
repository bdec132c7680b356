/**
 * The two numeric inputs and the start button of ControlPanel.tsx. `parseInt`
 * is abstracted as an `Option<int>`: `None` stands for NaN.
 */
module ControlPanel {
  import opened Wrappers

  /** Floor of the max-number input, and its fallback. */
  const MaxNumberFloor: int := 10
  /** Floor of the numbers-to-draw input, and its fallback. */
  const NumToDrawFloor: int := 1
  /** Ceiling of the numbers-to-draw input. */
  const NumToDrawCeiling: int := 10

  function Min(a: int, b: int): int { if a <= b then a else b }
  function Max(a: int, b: int): int { if a >= b then a else b }

  /** JavaScript `parsed || fallback`: NaN and 0 are both falsy. */
  function OrFallback(parsed: Option<int>, fallback: int): int {
    if parsed.Some? && parsed.value != 0 then parsed.value else fallback
  }

  /** `Math.max(10, parseInt(value, 10) || 10)`: raised to 10, never lowered. */
  function ClampMaxNumber(parsed: Option<int>): (r: int)
    ensures r >= MaxNumberFloor
    ensures parsed.Some? && parsed.value >= MaxNumberFloor ==> r == parsed.value
    ensures parsed.None? || parsed.value < MaxNumberFloor ==> r == MaxNumberFloor
  {
    Max(MaxNumberFloor, OrFallback(parsed, MaxNumberFloor))
  }

  /** `Math.max(1, Math.min(10, val || 1))`: kept within 1..10. */
  function ClampNumToDraw(parsed: Option<int>): (r: int)
    ensures NumToDrawFloor <= r <= NumToDrawCeiling
    ensures parsed.Some? && NumToDrawFloor <= parsed.value <= NumToDrawCeiling ==> r == parsed.value
    ensures parsed.Some? && parsed.value > NumToDrawCeiling ==> r == NumToDrawCeiling
    ensures parsed.None? || parsed.value < NumToDrawFloor ==> r == NumToDrawFloor
  {
    Max(NumToDrawFloor, Min(NumToDrawCeiling, OrFallback(parsed, NumToDrawFloor)))
  }

  /** `disabled={isDrawing}`: both inputs and the start button are enabled only while no draw runs. */
  function Enabled(isDrawing: bool): bool {
    !isDrawing
  }

  /** The value the max-number input hands to its setter; a disabled input fires no change. */
  function MaxNumberChange(isDrawing: bool, parsed: Option<int>): (r: Option<int>)
    ensures r.Some? <==> !isDrawing
    ensures r.Some? ==> r.value >= MaxNumberFloor
    ensures r.Some? && parsed.Some? && parsed.value >= MaxNumberFloor ==> r.value == parsed.value
  {
    if Enabled(isDrawing) then Some(ClampMaxNumber(parsed)) else None
  }

  /** The value the numbers-to-draw input hands to its setter; a disabled input fires no change. */
  function NumToDrawChange(isDrawing: bool, parsed: Option<int>): (r: Option<int>)
    ensures r.Some? <==> !isDrawing
    ensures r.Some? ==> NumToDrawFloor <= r.value <= NumToDrawCeiling
    ensures r.Some? && parsed.Some? && NumToDrawFloor <= parsed.value <= NumToDrawCeiling ==> r.value == parsed.value
  {
    if Enabled(isDrawing) then Some(ClampNumToDraw(parsed)) else None
  }
}
