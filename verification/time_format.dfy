/**
 * The `M:SS` time label of main.js `formatTime`, over whole seconds:
 * minutes unbounded and unpadded, seconds always two digits.
 */
module TimeFormat {
  import opened Options
  import opened Decimal

  /** Seconds within a minute, zero-padded to two digits (`sec < 10 ? '0' + sec : sec`). */
  function Pad2(sec: nat): (r: string)
    requires sec < 60
    ensures |r| == 2
    ensures AllDigits(r)
    ensures Value(r) == sec
  {
    ShowValue(sec);
    if sec < 10 then "0" + Show(sec) else Show(sec)
  }

  /** The label for a whole number of seconds. */
  function FormatTime(seconds: nat): (r: string)
    ensures 4 <= |r|
    ensures r[|r| - 3] == ':'
    ensures AllDigits(r[..|r| - 3]) && AllDigits(r[|r| - 2..])
    ensures r[0] == '0' ==> |r| == 4
  {
    Show(seconds / 60) + ":" + Pad2(seconds % 60)
  }

  /** Reads an `M:SS` label back: digits, a colon, two digits below 60. */
  function ParseTime(t: string): (r: Option<nat>)
    ensures r.Some? ==> 4 <= |t| && t[|t| - 3] == ':'
  {
    if |t| < 4 || t[|t| - 3] != ':' then None
    else
      match (ParseNat(t[..|t| - 3]), ParseNat(t[|t| - 2..]))
      case (Some(m), Some(sec)) => if sec < 60 then Some(m * 60 + sec) else None
      case _ => None
  }

  /** The minutes field denotes `seconds / 60`, the seconds field `seconds % 60`,
      and together they add back to the input. */
  lemma FormatTimeFields(seconds: nat)
    ensures var r := FormatTime(seconds);
            && Value(r[..|r| - 3]) == seconds / 60
            && Value(r[|r| - 2..]) == seconds % 60 < 60
            && Value(r[..|r| - 3]) * 60 + Value(r[|r| - 2..]) == seconds
  {
    var m, p := Show(seconds / 60), Pad2(seconds % 60);
    var r := FormatTime(seconds);
    assert r == m + ":" + p;
    assert |r| - 3 == |m|;
    assert r[..|m|] == m;
    assert r[|m| + 1..] == p;
    ShowValue(seconds / 60);
  }

  /** Every label `FormatTime` produces reads back as the seconds it was made from. */
  lemma ParseFormatTime(seconds: nat)
    ensures ParseTime(FormatTime(seconds)) == Some(seconds)
  {
    FormatTimeFields(seconds);
  }

  /** Distinct second counts get distinct labels. */
  lemma FormatTimeInjective(a: nat, b: nat)
    requires FormatTime(a) == FormatTime(b)
    ensures a == b
  {
    ParseFormatTime(a);
    ParseFormatTime(b);
  }

  lemma FormatTimeExamples()
    ensures FormatTime(65) == "1:05"
    ensures FormatTime(5) == "0:05"
    ensures FormatTime(0) == "0:00"
    ensures FormatTime(600) == "10:00"
  {
    assert Show(10) == "10";
  }
}
