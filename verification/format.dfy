/** Formatting helpers: byte truncation with an ellipsis, Go's `%.Ns` precision, and `HH:MM`. */
module Format {
  import opened Wrappers
  import opened Events

  /** The "..." marker the status lines append to a cut summary. */
  const Ellipsis: Text := [46, 46, 46]

  /** fixedSizeString: a text longer than `maxLength` bytes is cut to that many bytes and marked. */
  function FixedSizeString(s: Text, maxLength: nat, ellipsis: Text): (r: Text)
    ensures |s| <= maxLength ==> r == s
    ensures |s| > maxLength ==> |r| == maxLength + |ellipsis|
    ensures |s| > maxLength ==> r[..maxLength] == s[..maxLength] && r[maxLength..] == ellipsis
  {
    if |s| > maxLength then s[..maxLength] + ellipsis else s
  }

  /** Cutting twice changes nothing more than cutting once. */
  lemma FixedSizeStringIdempotent(s: Text, maxLength: nat, ellipsis: Text)
    ensures FixedSizeString(FixedSizeString(s, maxLength, ellipsis), maxLength, ellipsis)
         == FixedSizeString(s, maxLength, ellipsis)
  {
  }

  /** Go's `%.Ns` verb: keeps the first `n` runes of the text; one byte stands for one rune. */
  function Precision(s: Text, n: nat): (r: Text)
    ensures |r| == if |s| <= n then |s| else n
    ensures r == s[..|r|]
  {
    if |s| <= n then s else s[..n]
  }

  /** The hour of the local clock face (Go's t.Clock()). */
  function ClockHour(t: Time): (h: nat)
    ensures h < 24
    ensures h * Hour <= t % (24 * Hour) < (h + 1) * Hour
  {
    (t / Hour) % 24
  }

  /** The minute of the local clock face. */
  function ClockMinute(t: Time): (m: nat)
    ensures m < 60
    ensures m * Minute <= t % Hour < (m + 1) * Minute
  {
    (t / Minute) % 60
  }

  function DigitChar(d: nat): (c: char)
    requires d < 10
    ensures '0' <= c <= '9'
  {
    ('0' as int + d) as char
  }

  function DigitValue(c: char): int {
    c as int - '0' as int
  }

  /** `%02d` of a number below 100. */
  function TwoDigits(n: nat): (r: string)
    requires n < 100
    ensures |r| == 2 && '0' <= r[0] <= '9' && '0' <= r[1] <= '9'
    ensures DigitValue(r[0]) * 10 + DigitValue(r[1]) == n
  {
    [DigitChar(n / 10), DigitChar(n % 10)]
  }

  /** getTimeString: the zero-padded 24-hour `HH:MM` of the instant. */
  function TimeString(t: Time): (r: string)
    ensures |r| == 5 && r[2] == ':'
    ensures forall i :: 0 <= i < 5 && i != 2 ==> '0' <= r[i] <= '9'
    ensures DigitValue(r[0]) * 10 + DigitValue(r[1]) == ClockHour(t)
    ensures DigitValue(r[3]) * 10 + DigitValue(r[4]) == ClockMinute(t)
  {
    TwoDigits(ClockHour(t)) + ":" + TwoDigits(ClockMinute(t))
  }

  /** Reads an `HH:MM` text back into hour and minute; None for anything else. */
  function ParseTimeString(s: string): (r: Option<(nat, nat)>)
    ensures r.Some? ==> r.value.0 < 24 && r.value.1 < 60
  {
    if |s| != 5 || s[2] != ':' then None
    else if !(forall i :: 0 <= i < 5 && i != 2 ==> '0' <= s[i] <= '9') then None
    else
      var h := DigitValue(s[0]) * 10 + DigitValue(s[1]);
      var m := DigitValue(s[3]) * 10 + DigitValue(s[4]);
      if h < 24 && m < 60 then Some((h, m)) else None
  }

  /** The rendered time reads back as the clock's hour and minute. */
  lemma TimeStringRoundTrip(t: Time)
    ensures ParseTimeString(TimeString(t)) == Some((ClockHour(t), ClockMinute(t)))
  {
  }

  /** Two instants render alike exactly when they share the clock's hour and minute. */
  lemma TimeStringInjective(t1: Time, t2: Time)
    ensures TimeString(t1) == TimeString(t2)
        <==> ClockHour(t1) == ClockHour(t2) && ClockMinute(t1) == ClockMinute(t2)
  {
  }
}
