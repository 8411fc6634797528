/**
 * `formatSecondsToHMS`: a duration in whole seconds as "hh:mm:ss", hours
 * padded to at least two digits and never wrapped, negative durations shown
 * as zero.
 */
module Hms {
  import opened Decimal

  /** `n.toString().padStart(2, '0')`. */
  function Pad2(n: nat): (r: string)
    ensures AllDigits(r) && ValueOf(r) == n && |r| >= 2
    ensures n < 100 ==> |r| == 2
  {
    PaddedValue(n, 2);
    assert n < 100 ==> |NatToString(n)| <= 2 by {
      if n < 100 { NatToStringLength(n, 2); }
    }
    PadStart(NatToString(n), 2, '0')
  }

  /** Whole hours, minutes below 60 and seconds below 60 add back up to the total. */
  lemma Decompose(total: nat)
    ensures (total / 3600) * 3600 + ((total % 3600) / 60) * 60 + total % 60 == total
    ensures (total % 3600) / 60 < 60 && total % 60 < 60
    ensures total < 360000 ==> total / 3600 < 100
  {
    var q, r := total / 3600, total % 3600;
    var a, b := r / 60, r % 60;
    assert total == (q * 60 + a) * 60 + b;
    ModOfSixty(total, q * 60 + a, b);
  }

  lemma ModOfSixty(x: int, k: int, b: int)
    requires x == k * 60 + b && 0 <= b < 60
    ensures x % 60 == b
  {
  }

  /** `hh + ':' + mm + ':' + ss` with two-character minutes and seconds. */
  function Join(hh: string, mm: string, ss: string): (r: string)
    requires |mm| == 2 && |ss| == 2
    ensures |r| == |hh| + 6 && r[|r| - 6] == ':' && r[|r| - 3] == ':'
    ensures r[..|r| - 6] == hh && r[|r| - 5..|r| - 3] == mm && r[|r| - 2..] == ss
  {
    var r := hh + ":" + mm + ":" + ss;
    assert r[..|r| - 6] == hh;
    assert r[|r| - 5..|r| - 3] == mm;
    assert r[|r| - 2..] == ss;
    r
  }

  /**
   * `r` reads as "hh:mm:ss" for `total` seconds: the hours, minutes and
   * seconds read back from the text add up to `total`, and the minutes and
   * seconds are two digits below 60.
   */
  predicate ReadsAsHMS(r: string, total: nat) {
    && |r| >= 8 && r[|r| - 6] == ':' && r[|r| - 3] == ':'
    && AllDigits(r[..|r| - 6]) && AllDigits(r[|r| - 5..|r| - 3]) && AllDigits(r[|r| - 2..])
    && ValueOf(r[|r| - 5..|r| - 3]) < 60 && ValueOf(r[|r| - 2..]) < 60
    && ValueOf(r[..|r| - 6]) * 3600 + ValueOf(r[|r| - 5..|r| - 3]) * 60 + ValueOf(r[|r| - 2..]) == total
  }

  /**
   * `formatSecondsToHMS` on a whole number of seconds: the text reads back
   * as the duration clamped at zero, in eight characters below 100 hours.
   */
  function FormatSecondsToHMS(sec: int): (r: string)
    ensures ReadsAsHMS(r, if sec < 0 then 0 else sec)
    ensures sec < 360000 ==> |r| == 8
  {
    var total: nat := if sec < 0 then 0 else sec;
    var h, m, s := total / 3600, (total % 3600) / 60, total % 60;
    Decompose(total);
    var r := Join(Pad2(h), Pad2(m), Pad2(s));
    ReadsBack(h, m, s, total, r);
    r
  }

  /** The fields of the joined text read back as the hours, minutes and seconds joined. */
  lemma ReadsBack(h: nat, m: nat, s: nat, total: nat, r: string)
    requires m < 60 && s < 60 && h * 3600 + m * 60 + s == total
    requires r == Join(Pad2(h), Pad2(m), Pad2(s))
    ensures ReadsAsHMS(r, total)
    ensures h < 100 ==> |r| == 8
  {
    var hh, mm, ss := Pad2(h), Pad2(m), Pad2(s);
    assert r[..|r| - 6] == hh && r[|r| - 5..|r| - 3] == mm && r[|r| - 2..] == ss;
  }
}
