/**
 * Subtitle cue timing, `HH:MM:SS,mmm` (`format_timedelta`).  A Python
 * `timedelta` is a whole number of microseconds, so a cue time is a `nat`
 * count of microseconds here.
 */
module Timestamp {
  import opened Wrappers
  import Decimal

  const MicrosPerSecond: nat := 1_000_000

  datatype Fields = Fields(hours: nat, minutes: nat, seconds: nat, millis: nat)

  /** The clock fields of a time: `divmod` by 3600 and 60 of the whole seconds, and the microsecond part floored to milliseconds. */
  function Split(us: nat): (f: Fields)
    ensures f.minutes < 60 && f.seconds < 60 && f.millis < 1000
  {
    var total := us / MicrosPerSecond;
    Fields(total / 3600, total % 3600 / 60, total % 3600 % 60, us % MicrosPerSecond / 1000)
  }

  /** Minutes and seconds are below 60, milliseconds below 1000, and the fields add back up to the whole seconds. */
  lemma SplitFields(us: nat)
    ensures var f := Split(us);
            && f.minutes < 60 && f.seconds < 60 && f.millis < 1000
            && f.hours * 3600 + f.minutes * 60 + f.seconds == us / MicrosPerSecond
            && f.millis * 1000 <= us % MicrosPerSecond < f.millis * 1000 + 1000
  {
  }

  /** The whole milliseconds a set of clock fields denotes. */
  function Millis(f: Fields): nat {
    ((f.hours * 3600 + f.minutes * 60 + f.seconds) * 1000) + f.millis
  }

  /** `format_timedelta(td)` for a non-negative `td`. */
  function Format(us: nat): (t: string)
    ensures |t| >= 12
  {
    var f := Split(us);
    Decimal.Padded(f.hours, 2) + ":" + Decimal.Padded(f.minutes, 2) + ":"
      + Decimal.Padded(f.seconds, 2) + "," + Decimal.Padded(f.millis, 3)
  }

  /**
   * Reads a cue time back: an hour field of any width, then `:MM:SS,mmm`
   * with minutes and seconds below 60.
   */
  function Parse(t: string): (r: Option<Fields>)
    ensures r.Some? ==> r.value.minutes < 60 && r.value.seconds < 60
  {
    if |t| < 11 || t[|t| - 10] != ':' || t[|t| - 7] != ':' || t[|t| - 4] != ',' then None
    else
      var n := |t|;
      match (Decimal.Parse(t[..n - 10]), Decimal.Parse(t[n - 9..n - 7]),
             Decimal.Parse(t[n - 6..n - 4]), Decimal.Parse(t[n - 3..]))
      case (Some(h), Some(m), Some(s), Some(ms)) =>
        if m < 60 && s < 60 then Some(Fields(h, m, s, ms)) else None
      case _ => None
  }

  lemma FieldWidths(us: nat)
    ensures var f := Split(us);
            |Decimal.Padded(f.minutes, 2)| == 2 && |Decimal.Padded(f.seconds, 2)| == 2
            && |Decimal.Padded(f.millis, 3)| == 3
  {
    var f := Split(us);
    SplitFields(us);
    Decimal.PaddedWidth(f.minutes, 2);
    Decimal.PaddedWidth(f.seconds, 2);
    Decimal.PaddedWidth(f.millis, 3);
  }

  /** The layout `H:MM:SS,mmm` is cut back into its four fields. */
  lemma ParseLayout(hh: string, mm: string, ss: string, ms: string)
    requires |hh| >= 1 && |mm| == 2 && |ss| == 2 && |ms| == 3
    ensures var t := hh + ":" + mm + ":" + ss + "," + ms;
            var n := |t|;
            |t| >= 11 && t[n - 10] == ':' && t[n - 7] == ':' && t[n - 4] == ','
            && t[..n - 10] == hh && t[n - 9..n - 7] == mm && t[n - 6..n - 4] == ss && t[n - 3..] == ms
  {
  }

  /** Four readable fields in the layout read back as those fields. */
  lemma ParseFields(hh: string, mm: string, ss: string, ms: string, f: Fields)
    requires |hh| >= 1 && |mm| == 2 && |ss| == 2 && |ms| == 3
    requires Decimal.Parse(hh) == Some(f.hours) && Decimal.Parse(mm) == Some(f.minutes)
    requires Decimal.Parse(ss) == Some(f.seconds) && Decimal.Parse(ms) == Some(f.millis)
    requires f.minutes < 60 && f.seconds < 60
    ensures Parse(hh + ":" + mm + ":" + ss + "," + ms) == Some(f)
  {
    ParseLayout(hh, mm, ss, ms);
  }

  /** Reading a formatted time gives back its clock fields. */
  lemma ParseFormat(us: nat)
    ensures Parse(Format(us)) == Some(Split(us))
  {
    var f := Split(us);
    var hh, mm, ss, ms := Decimal.Padded(f.hours, 2), Decimal.Padded(f.minutes, 2),
                          Decimal.Padded(f.seconds, 2), Decimal.Padded(f.millis, 3);
    FieldWidths(us);
    Decimal.PaddedValue(f.hours, 2);
    Decimal.PaddedValue(f.minutes, 2);
    Decimal.PaddedValue(f.seconds, 2);
    Decimal.PaddedValue(f.millis, 3);
    assert Format(us) == hh + ":" + mm + ":" + ss + "," + ms;
    ParseFields(hh, mm, ss, ms, f);
  }

  lemma MillisOfSplit(us: nat)
    ensures Millis(Split(us)) == us / 1000
  {
    SplitFields(us);
    var q, r := us / MicrosPerSecond, us % MicrosPerSecond;
    assert us == q * 1_000_000 + r;
    assert us / 1000 == q * 1000 + r / 1000;
  }

  /** The formatted text denotes the time truncated to whole milliseconds. */
  lemma FormatRoundTrip(us: nat)
    ensures Parse(Format(us)).Some? && Millis(Parse(Format(us)).value) == us / 1000
  {
    ParseFormat(us);
    MillisOfSplit(us);
  }

  /** Below 100 hours every field is exactly as wide as `HH:MM:SS,mmm`. */
  lemma FormatLength(us: nat)
    requires us < 100 * 3600 * MicrosPerSecond
    ensures |Format(us)| == 12
  {
    var f := Split(us);
    SplitFields(us);
    FieldWidths(us);
    assert f.hours < 100;
    Decimal.PaddedWidth(f.hours, 2);
  }
}
