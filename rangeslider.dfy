/**
 * The two-handled slider of Orange/widgets/rangeslider.py: its private state,
 * the mouse handlers that move one handle or the whole interval, and the value
 * and position accessors. The Qt style geometry is an input: a press comes with
 * the hit tests of the two handles and the value under the pointer, a move with
 * the value under the pointer. Emitted signals are logged in order.
 */
module RangeSliders {
  import opened Wrappers

  /** The sub-control being dragged: `SC_None`, `SC_SliderGroove` or `SC_SliderHandle`. */
  datatype Control = NoControl | Groove | Handle

  /** An emitted signal with its two arguments. */
  datatype Signal = ValuesChanged(lo: int, hi: int) | SlidersMoved(lo: int, hi: int)

  datatype SliderError = TypeError

  function Min(a: int, b: int): int { if a <= b then a else b }
  function Max(a: int, b: int): int { if a <= b then b else a }

  /**
   * Dragging handle 0 (the lower) or 1 (the upper) to `pos`: the dragged handle
   * follows `pos` within the range, and the other is pushed to keep at least one
   * step between them where the range allows. Returns the new (lower, upper).
   */
  function HandleMove(active: int, pos: int, lo: int, hi: int, minimum: int, maximum: int): (r: (int, int))
    requires active == 0 || active == 1
    ensures minimum <= pos <= maximum ==> minimum <= r.0 <= r.1 <= maximum
    ensures minimum <= pos <= maximum && active == 0 ==> r.0 == pos && (pos < maximum ==> r.0 < r.1)
    ensures minimum <= pos <= maximum && active == 1 ==> r.1 == pos && (minimum < pos ==> r.0 < r.1)
    ensures active == 0 && minimum <= pos <= maximum && lo < hi <= maximum && pos < hi ==> r.1 == hi
    ensures active == 1 && minimum <= pos <= maximum && minimum <= lo < hi && lo < pos ==> r.0 == lo
  {
    if active == 0 then
      var newLo := Max(minimum, pos);
      (newLo, Min(maximum, Max(hi, newLo + 1)))
    else
      var newHi := Min(maximum, pos);
      (Max(minimum, Min(lo, newHi - 1)), newHi)
  }

  /**
   * Dragging the groove: both ends move by `pos - clickOffset`, the upper end
   * clamped to the maximum and the lower to the minimum, each on its own.
   */
  function GrooveMove(pos: int, clickOffset: int, lo: int, hi: int, minimum: int, maximum: int): (r: (int, int))
    ensures r.1 <= maximum && r.0 >= minimum
    ensures minimum <= lo + (pos - clickOffset) ==> r.0 == lo + (pos - clickOffset)
    ensures hi + (pos - clickOffset) <= maximum ==> r.1 == hi + (pos - clickOffset)
    ensures r.1 - r.0 <= hi - lo
  {
    var offset := pos - clickOffset;
    (Max(lo + offset, minimum), Min(hi + offset, maximum))
  }

  /** A groove drag that stays inside the range moves the interval without changing its width. */
  lemma GrooveMoveKeepsWidth(pos: int, clickOffset: int, lo: int, hi: int, minimum: int, maximum: int)
    requires minimum <= lo + (pos - clickOffset) && hi + (pos - clickOffset) <= maximum
    ensures var r := GrooveMove(pos, clickOffset, lo, hi, minimum, maximum); r.1 - r.0 == hi - lo
  {
  }

  /** A groove drag can cross the ends over when it pushes both past the same bound. */
  lemma GrooveMoveCanCross()
    ensures GrooveMove(0, 10, 5, 5, 0, 100) == (0, -5)
  {
  }

  /** `setValues(lo, hi)`: each end clamped on its own side of the range. */
  function ClampValues(lo: int, hi: int, minimum: int, maximum: int): (r: (int, int))
    ensures r.0 >= minimum && r.1 <= maximum
    ensures r.0 == lo || r.0 == minimum
    ensures r.1 == hi || r.1 == maximum
    ensures lo >= minimum ==> r.0 == lo
    ensures lo < minimum ==> r.0 == minimum
    ensures hi <= maximum ==> r.1 == hi
    ensures hi > maximum ==> r.1 == maximum
    ensures minimum <= lo && hi <= maximum ==> r == (lo, hi)
  {
    (Max(lo, minimum), Min(hi, maximum))
  }

  class RangeSlider {
    /** The range of the underlying `QSlider`. */
    var minimum: int
    var maximum: int
    /** `hasTracking()`: values follow positions while dragging. */
    var tracking: bool
    var minValue: int
    var maxValue: int
    var minPosition: int
    var maxPosition: int
    var pressedControl: Control
    var activeSlider: int
    var clickOffset: int
    var sliderDown: bool
    var emitted: seq<Signal>

    /**
     * `RangeSlider(minimum=…, maximum=…, minimumValue=…, maximumValue=…,
     * minimumPosition=…, maximumPosition=…)`: values default to the given range
     * ends (0 when absent), positions to the values. The slider's own range
     * defaults to Qt's 0..99; setting the minimum raises the maximum to it, and
     * setting the maximum then lowers the minimum to it.
     */
    constructor(minimumArg: Option<int>, maximumArg: Option<int>, minimumValue: Option<int>, maximumValue: Option<int>,
                minimumPosition: Option<int>, maximumPosition: Option<int>)
      ensures minValue == minimumValue.GetOr(minimumArg.GetOr(0))
      ensures maxValue == maximumValue.GetOr(maximumArg.GetOr(0))
      ensures minPosition == minimumPosition.GetOr(minValue) && maxPosition == maximumPosition.GetOr(maxValue)
      ensures minimum <= maximum && maximum == (if maximumArg.Some? then maximumArg.value else Max(minimumArg.GetOr(0), 99))
      ensures minimumArg.Some? && (maximumArg.None? || minimumArg.value <= maximumArg.value) ==> minimum == minimumArg.value
      ensures minimum == (if maximumArg.Some? then Min(minimumArg.GetOr(0), maximumArg.value) else minimumArg.GetOr(0))
      ensures pressedControl == NoControl && activeSlider == -1 && clickOffset == 0 && tracking && !sliderDown
      ensures emitted == []
    {
      var loValue, hiValue := minimumValue.GetOr(minimumArg.GetOr(0)), maximumValue.GetOr(maximumArg.GetOr(0));
      minValue, maxValue := loValue, hiValue;
      minPosition := minimumPosition.GetOr(loValue);
      maxPosition := maximumPosition.GetOr(hiValue);
      var lo, hi := 0, 99;
      if minimumArg.Some? {
        lo, hi := minimumArg.value, Max(minimumArg.value, hi);
      }
      if maximumArg.Some? {
        lo, hi := Min(lo, maximumArg.value), maximumArg.value;
      }
      minimum, maximum := lo, hi;
      tracking := true;
      pressedControl := NoControl;
      activeSlider := -1;
      clickOffset := 0;
      sliderDown := false;
      emitted := [];
    }

    /** The ordering a slider keeps while only its handles are dragged and its values set. */
    predicate Ordered()
      reads this
    {
      minimum <= minPosition <= maxPosition <= maximum
    }

    /** `values()`. */
    function Values(): (r: (int, int))
      reads this
      ensures r == (minValue, maxValue)
    {
      (minValue, maxValue)
    }

    /** `setValues(lo, hi)`: values and positions both become the clamped ends; `valuesChanged` is emitted. */
    method SetValues(lo: int, hi: int)
      modifies this
      ensures (minValue, maxValue) == ClampValues(lo, hi, old(minimum), old(maximum))
      ensures minPosition == minValue && maxPosition == maxValue
      ensures emitted == old(emitted) + [ValuesChanged(minValue, maxValue)]
      ensures minimum == old(minimum) && maximum == old(maximum) && tracking == old(tracking)
      ensures pressedControl == old(pressedControl) && activeSlider == old(activeSlider)
      ensures clickOffset == old(clickOffset) && sliderDown == old(sliderDown)
    {
      minValue := Max(lo, minimum);
      minPosition := minValue;
      maxValue := Min(hi, maximum);
      maxPosition := maxValue;
      emitted := emitted + [ValuesChanged(minValue, maxValue)];
    }

    /**
     * `mousePressEvent`: without a button the event is ignored. Otherwise a hit on
     * the lower, else the upper handle makes it the active handle; a click
     * elsewhere grabs the groove and remembers the value under the pointer.
     */
    method MousePress(button: bool, hitsLower: bool, hitsUpper: bool, valueAtPointer: int) returns (accepted: bool)
      modifies this
      ensures accepted == button
      ensures !button ==> unchanged(this)
      ensures button && hitsLower ==> activeSlider == 0 && pressedControl == Handle && sliderDown && clickOffset == old(clickOffset)
      ensures button && !hitsLower && hitsUpper ==> activeSlider == 1 && pressedControl == Handle && sliderDown && clickOffset == old(clickOffset)
      ensures button && !hitsLower && !hitsUpper ==>
                activeSlider == -1 && pressedControl == Groove && clickOffset == valueAtPointer && sliderDown == old(sliderDown)
      ensures minimum == old(minimum) && maximum == old(maximum) && tracking == old(tracking)
      ensures minValue == old(minValue) && maxValue == old(maxValue)
      ensures minPosition == old(minPosition) && maxPosition == old(maxPosition)
      ensures emitted == old(emitted)
    {
      if !button {
        return false;
      }
      activeSlider := -1;
      var hits := [hitsLower, hitsUpper];
      var i := 0;
      while i < 2
        invariant 0 <= i <= 2
        invariant activeSlider == -1 && pressedControl == old(pressedControl) && sliderDown == old(sliderDown)
        invariant hits == [hitsLower, hitsUpper] && (i >= 1 ==> !hitsLower) && (i == 2 ==> !hitsUpper)
        invariant minimum == old(minimum) && maximum == old(maximum) && tracking == old(tracking)
        invariant minValue == old(minValue) && maxValue == old(maxValue) && clickOffset == old(clickOffset)
        invariant minPosition == old(minPosition) && maxPosition == old(maxPosition) && emitted == old(emitted)
      {
        if hits[i] {
          activeSlider := i;
          pressedControl := Handle;
          sliderDown := true;
          return true;
        }
        i := i + 1;
      }
      pressedControl := Groove;
      clickOffset := valueAtPointer;
      return true;
    }

    /**
     * `mouseMoveEvent` with the value `pos` under the pointer: ignored unless the
     * groove or a handle is pressed; otherwise the groove or the active handle is
     * dragged, `slidersMoved` is emitted, and with tracking the values follow.
     */
    method MouseMove(pos: int) returns (accepted: bool)
      requires activeSlider < 2
      modifies this
      ensures accepted == (old(pressedControl) != NoControl)
      ensures !accepted ==> unchanged(this)
      ensures accepted && old(activeSlider) < 0 ==>
                (minPosition, maxPosition)
                == GrooveMove(pos, old(clickOffset), old(minPosition), old(maxPosition), minimum, maximum)
                && clickOffset == pos
      ensures accepted && old(activeSlider) >= 0 ==>
                (minPosition, maxPosition)
                == HandleMove(old(activeSlider), pos, old(minPosition), old(maxPosition), minimum, maximum)
                && clickOffset == old(clickOffset)
      ensures accepted && tracking ==>
                (minValue, maxValue) == ClampValues(minPosition, maxPosition, minimum, maximum)
                && emitted == old(emitted) + [SlidersMoved(minPosition, maxPosition), ValuesChanged(minValue, maxValue)]
      ensures accepted && !tracking ==>
                minValue == old(minValue) && maxValue == old(maxValue)
                && emitted == old(emitted) + [SlidersMoved(minPosition, maxPosition)]
      ensures minimum == old(minimum) && maximum == old(maximum) && tracking == old(tracking)
      ensures pressedControl == old(pressedControl) && activeSlider == old(activeSlider) && sliderDown == old(sliderDown)
    {
      if pressedControl == NoControl {
        return false;
      }
      if activeSlider < 0 {
        var moved := GrooveMove(pos, clickOffset, minPosition, maxPosition, minimum, maximum);
        minPosition, maxPosition := moved.0, moved.1;
        clickOffset := pos;
      } else {
        var moved := HandleMove(activeSlider, pos, minPosition, maxPosition, minimum, maximum);
        minPosition, maxPosition := moved.0, moved.1;
      }
      emitted := emitted + [SlidersMoved(minPosition, maxPosition)];
      if tracking {
        var lo, hi := minPosition, maxPosition;
        SetValues(lo, hi);
      }
      return true;
    }

    /** `mouseReleaseEvent`: nothing is pressed any more; without tracking the values catch up with the positions. */
    method MouseRelease()
      modifies this
      ensures pressedControl == NoControl
      ensures !tracking ==> (minValue, maxValue) == ClampValues(old(minPosition), old(maxPosition), minimum, maximum)
                            && emitted == old(emitted) + [ValuesChanged(minValue, maxValue)]
      ensures !tracking ==> minPosition == minValue && maxPosition == maxValue
      ensures tracking ==> minValue == old(minValue) && maxValue == old(maxValue) && emitted == old(emitted)
                           && minPosition == old(minPosition) && maxPosition == old(maxPosition)
      ensures minimum == old(minimum) && maximum == old(maximum) && tracking == old(tracking)
      ensures activeSlider == old(activeSlider) && clickOffset == old(clickOffset) && sliderDown == old(sliderDown)
    {
      pressedControl := NoControl;
      if !tracking {
        var lo, hi := minPosition, maxPosition;
        SetValues(lo, hi);
      }
    }

    /** `minimumValue()`, `maximumValue()`, `minimumPosition()`, `maximumPosition()`. */
    function MinimumValue(): int reads this { minValue }
    function MaximumValue(): int reads this { maxValue }
    function MinimumPosition(): int reads this { minPosition }
    function MaximumPosition(): int reads this { maxPosition }

    /** `setMinimumValue(v)`: only the stored value changes; the position and the signals do not. */
    method SetMinimumValue(v: int)
      modifies this
      ensures tracking == old(tracking) && pressedControl == old(pressedControl) && activeSlider == old(activeSlider)
      ensures clickOffset == old(clickOffset) && sliderDown == old(sliderDown)
      ensures minValue == v && MinimumValue() == v
      ensures maxValue == old(maxValue) && minPosition == old(minPosition) && maxPosition == old(maxPosition)
      ensures emitted == old(emitted) && minimum == old(minimum) && maximum == old(maximum)
    {
      minValue := v;
    }

    /** `setMaximumValue(v)`: only the stored value changes. */
    method SetMaximumValue(v: int)
      modifies this
      ensures tracking == old(tracking) && pressedControl == old(pressedControl) && activeSlider == old(activeSlider)
      ensures clickOffset == old(clickOffset) && sliderDown == old(sliderDown)
      ensures maxValue == v && MaximumValue() == v
      ensures minValue == old(minValue) && minPosition == old(minPosition) && maxPosition == old(maxPosition)
      ensures emitted == old(emitted) && minimum == old(minimum) && maximum == old(maximum)
    {
      maxValue := v;
    }

    /**
     * `setMinimumPosition(p)` as written: the position is stored, then the signal
     * object itself is called instead of its `emit`, which raises TypeError.
     */
    method SetMinimumPositionAsWritten(p: int) returns (err: Option<SliderError>)
      modifies this
      ensures tracking == old(tracking) && pressedControl == old(pressedControl) && activeSlider == old(activeSlider)
      ensures clickOffset == old(clickOffset) && sliderDown == old(sliderDown)
      ensures minimum == old(minimum) && maximum == old(maximum)
      ensures minPosition == p && err == Some(TypeError) && emitted == old(emitted)
      ensures maxPosition == old(maxPosition) && minValue == old(minValue) && maxValue == old(maxValue)
    {
      minPosition := p;
      return Some(TypeError);
    }

    /** `setMinimumPosition(p)` as intended: store the position and emit `slidersMoved`. */
    method SetMinimumPosition(p: int)
      modifies this
      ensures tracking == old(tracking) && pressedControl == old(pressedControl) && activeSlider == old(activeSlider)
      ensures clickOffset == old(clickOffset) && sliderDown == old(sliderDown)
      ensures minPosition == p && MinimumPosition() == p
      ensures emitted == old(emitted) + [SlidersMoved(p, maxPosition)]
      ensures maxPosition == old(maxPosition) && minValue == old(minValue) && maxValue == old(maxValue)
      ensures minimum == old(minimum) && maximum == old(maximum)
    {
      minPosition := p;
      emitted := emitted + [SlidersMoved(minPosition, maxPosition)];
    }

    /** `setMaximumPosition(p)` as written: raises TypeError after storing the position. */
    method SetMaximumPositionAsWritten(p: int) returns (err: Option<SliderError>)
      modifies this
      ensures tracking == old(tracking) && pressedControl == old(pressedControl) && activeSlider == old(activeSlider)
      ensures clickOffset == old(clickOffset) && sliderDown == old(sliderDown)
      ensures minimum == old(minimum) && maximum == old(maximum)
      ensures maxPosition == p && err == Some(TypeError) && emitted == old(emitted)
      ensures minPosition == old(minPosition) && minValue == old(minValue) && maxValue == old(maxValue)
    {
      maxPosition := p;
      return Some(TypeError);
    }

    /** `setMaximumPosition(p)` as intended: store the position and emit `slidersMoved`. */
    method SetMaximumPosition(p: int)
      modifies this
      ensures tracking == old(tracking) && pressedControl == old(pressedControl) && activeSlider == old(activeSlider)
      ensures clickOffset == old(clickOffset) && sliderDown == old(sliderDown)
      ensures maxPosition == p && MaximumPosition() == p
      ensures emitted == old(emitted) + [SlidersMoved(minPosition, p)]
      ensures minPosition == old(minPosition) && minValue == old(minValue) && maxValue == old(maxValue)
      ensures minimum == old(minimum) && maximum == old(maximum)
    {
      maxPosition := p;
      emitted := emitted + [SlidersMoved(minPosition, maxPosition)];
    }
  }

  /**
   * Dragging a handle keeps the slider ordered: with the pointer value inside the
   * range, `minimum <= lower <= upper <= maximum` afterwards, whatever the
   * positions were before.
   */
  method DragHandle(s: RangeSlider, pos: int)
    requires s.minimum <= pos <= s.maximum
    requires s.pressedControl == Handle && (s.activeSlider == 0 || s.activeSlider == 1)
    modifies s
    ensures s.Ordered()
    ensures s.tracking ==> s.Values() == (s.minPosition, s.maxPosition)
  {
    var accepted := s.MouseMove(pos);
  }

  /** Setting values that lie in the range stores them exactly, as values and as positions. */
  lemma SetValuesInRange(lo: int, hi: int, minimum: int, maximum: int)
    requires minimum <= lo <= hi <= maximum
    ensures ClampValues(lo, hi, minimum, maximum) == (lo, hi)
  {
  }
}
