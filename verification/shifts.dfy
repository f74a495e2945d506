/** One worked interval of a day and the signed number of hours it is worth. */
module Shifts {
  import opened Options
  import opened Clock

  /** A shift as the entry form holds it; an endpoint the picker has not
      filled in, or has cleared, is None. */
  datatype Shift = Shift(start: Option<TimeOfDay>, end: Option<TimeOfDay>)

  /** What the duration calculation hands back: the shift it was given and its hours. */
  datatype ShiftResult = ShiftResult(shift: Option<Shift>, total: real)

  /** A shift that is present and has both endpoints, so it contributes hours. */
  predicate Complete(shift: Option<Shift>) {
    shift.Some? && shift.value.start.Some? && shift.value.end.Some?
  }

  /** Signed hours from `start` to `end` on the same day: no clamping, no overnight wrap. */
  function Hours(start: TimeOfDay, end: TimeOfDay): (h: real)
    ensures h * 60.0 == (end as int - start as int) as real
    ensures -24.0 < h < 24.0
    ensures h < 0.0 <==> end < start
    ensures h == 0.0 <==> end == start
  {
    (end as int - start as int) as real / 60.0
  }

  /** The duration of an optional shift, returned with the shift itself. */
  function CalculateShift(shift: Option<Shift>): (r: ShiftResult)
    ensures r.shift == shift
    ensures !Complete(shift) ==> r.total == 0.0
    ensures Complete(shift) ==> r.total * 60.0 == (shift.value.end.value as int - shift.value.start.value as int) as real
    ensures -24.0 < r.total < 24.0
    ensures r.total < 0.0 <==> Complete(shift) && shift.value.end.value < shift.value.start.value
  {
    if Complete(shift) then
      ShiftResult(shift, Hours(shift.value.start.value, shift.value.end.value))
    else
      ShiftResult(shift, 0.0)
  }

  /** Cutting a shift at any time of day splits its hours between the two parts. */
  lemma HoursSplit(a: TimeOfDay, b: TimeOfDay, c: TimeOfDay)
    ensures Hours(a, b) + Hours(b, c) == Hours(a, c)
  {
  }

  /** A shift entered backwards (an overnight shift) is worth exactly the negated
      hours of the forward shift; it is not wrapped past midnight. */
  lemma BackwardsShiftIsNegated(start: TimeOfDay, end: TimeOfDay)
    ensures CalculateShift(Some(Shift(Some(start), Some(end)))).total
         == -CalculateShift(Some(Shift(Some(end), Some(start)))).total
  {
  }

  /** Picker text "09:00" to "17:30" is worth eight and a half hours. */
  lemma NineToHalfFiveExample()
    ensures PickerText("09:00") && PickerText("17:30")
    ensures CalculateShift(Some(Shift(ReadEndpoint("09:00"), ReadEndpoint("17:30")))).total == 8.5
  {
  }
}
