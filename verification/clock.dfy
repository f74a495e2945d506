/** Times of day as the range pickers of the entry form produce them:
    24-hour "HH:mm" text, or the empty text when a picker is cleared. */
module Clock {
  import opened Options

  /** A wall-clock time with no date part, as minutes since midnight. */
  type TimeOfDay = m: nat | m < 1440

  predicate IsDigit(c: char) {
    '0' <= c <= '9'
  }

  function DigitChar(d: nat): (c: char)
    requires d < 10
    ensures IsDigit(c) && DigitValue(c) == d
  {
    (d + 48) as char
  }

  function DigitValue(c: char): (d: nat)
    requires IsDigit(c)
    ensures d < 10
  {
    c as int - '0' as int
  }

  /** The "HH:mm" text of a time of day, zero-padded. */
  function Format(t: TimeOfDay): (s: string)
    ensures |s| == 5 && s[2] == ':'
    ensures IsDigit(s[0]) && IsDigit(s[1]) && IsDigit(s[3]) && IsDigit(s[4])
    ensures DigitValue(s[0]) * 10 + DigitValue(s[1]) == t / 60
    ensures DigitValue(s[3]) * 10 + DigitValue(s[4]) == t % 60
  {
    var h := t / 60;
    var m := t % 60;
    [DigitChar(h / 10), DigitChar(h % 10), ':', DigitChar(m / 10), DigitChar(m % 10)]
  }

  /** Reads "HH:mm" text with hours 00-23 and minutes 00-59; anything else is None. */
  function Parse(s: string): (r: Option<TimeOfDay>)
    ensures r.Some? <==>
      && |s| == 5 && s[2] == ':'
      && IsDigit(s[0]) && IsDigit(s[1]) && IsDigit(s[3]) && IsDigit(s[4])
      && DigitValue(s[0]) * 10 + DigitValue(s[1]) < 24
      && DigitValue(s[3]) * 10 + DigitValue(s[4]) < 60
    ensures r.Some? ==> r.value / 60 == DigitValue(s[0]) * 10 + DigitValue(s[1])
    ensures r.Some? ==> r.value % 60 == DigitValue(s[3]) * 10 + DigitValue(s[4])
  {
    if |s| == 5 && IsDigit(s[0]) && IsDigit(s[1]) && s[2] == ':' && IsDigit(s[3]) && IsDigit(s[4]) then
      var h := DigitValue(s[0]) * 10 + DigitValue(s[1]);
      var m := DigitValue(s[3]) * 10 + DigitValue(s[4]);
      if h < 24 && m < 60 then Some(h * 60 + m) else None
    else
      None
  }

  /** Formatting then parsing gives the time back. */
  lemma ParseFormat(t: TimeOfDay)
    ensures Parse(Format(t)) == Some(t)
  {
  }

  /** Text the parser accepts is exactly the formatting of what it reads. */
  lemma FormatParse(s: string)
    requires Parse(s).Some?
    ensures Format(Parse(s).value) == s
  {
  }

  /** Text a range picker hands to its change handler: "HH:mm", or "" once cleared. */
  predicate PickerText(s: string) {
    s == "" || Parse(s).Some?
  }

  /** The endpoint a picker text denotes; the empty text is falsy and means no endpoint. */
  function ReadEndpoint(s: string): (r: Option<TimeOfDay>)
    requires PickerText(s)
    ensures r.None? <==> s == ""
    ensures r.Some? ==> Format(r.value) == s
  {
    if s == "" then None
    else
      FormatParse(s);
      Parse(s)
  }

  /** Every time of day has picker text, and it reads back as that time. */
  lemma ReadFormatted(t: TimeOfDay)
    ensures PickerText(Format(t))
    ensures ReadEndpoint(Format(t)) == Some(t)
  {
  }
}
