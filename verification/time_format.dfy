/** `formatTime`: a duration in minutes shown as hours and minutes,
    `hh:mm`, each part padded with zeros to at least two characters. The
    parser below is the inverse direction, used to state the round trip. */
module TimeFormat {

  import opened Wrappers
  import opened JsNumbers

  predicate IsDigit(c: char) {
    '0' <= c <= '9'
  }

  predicate AllDigits(s: string) {
    forall i :: 0 <= i < |s| ==> IsDigit(s[i])
  }

  function DigitChar(d: int): char
    requires 0 <= d < 10
  {
    (48 + d) as char
  }

  function DigitValue(c: char): int
    requires IsDigit(c)
  {
    c as int - 48
  }

  /** The decimal digits of a non-negative integer, without leading zeros. */
  function Digits(n: nat): string
    decreases n
  {
    if n < 10 then [DigitChar(n)] else Digits(n / 10) + [DigitChar(n % 10)]
  }

  /** `String(n)` for an integer `n`. */
  function NumberText(n: int): string {
    if n < 0 then "-" + Digits(-n) else Digits(n)
  }

  function Repeat(c: char, k: nat): (s: string)
    ensures |s| == k && forall i :: 0 <= i < k ==> s[i] == c
  {
    seq(k, _ => c)
  }

  /** `_.padStart(s, len, c)` for a one-character `c`: `s` left-padded with
      `c` up to length `len`. */
  function PadStart(s: string, len: nat, c: char): (r: string)
    ensures |r| == if |s| >= len then |s| else len
    ensures r == Repeat(c, |r| - |s|) + s
  {
    if |s| >= len then s else Repeat(c, len - |s|) + s
  }

  /** The split of a duration into hours and minutes. The minute part is the
      truncating remainder by 60; the hour part is the rounded quotient of
      what is left by 60. That division is exact, so the rounding never
      changes the quotient. */
  function SplitMinutes(minutes: int): (r: (int, int))
    ensures r.0 * 60 + r.1 == minutes
    ensures -60 < r.1 < 60
    ensures minutes >= 0 ==> 0 <= r.1 && 0 <= r.0
    ensures minutes <= 0 ==> r.1 <= 0 && r.0 <= 0
  {
    var mm := JsRem(minutes, 60);
    var q := TruncQuot(minutes, 60);
    assert (minutes - mm) as real / 60.0 == q as real;
    JsRoundOfInteger(q);
    var hh := JsRound((minutes - mm) as real / 60.0);
    (hh, mm)
  }

  /** `formatTime(minutes)`: the hour part and the minute part, each padded
      with zeros to two characters, joined by ':'. */
  function FormatTime(minutes: int): string {
    var (hh, mm) := SplitMinutes(minutes);
    ClockText(hh, mm)
  }

  /** An hour part and a minute part, each padded with zeros to two
      characters, joined by ':'. */
  function ClockText(hh: int, mm: int): string {
    PadStart(NumberText(hh), 2, '0') + ":" + PadStart(NumberText(mm), 2, '0')
  }

  // The inverse direction.

  /** The value of a string of decimal digits; the empty string is 0. */
  function DigitsValue(s: string): nat
    requires AllDigits(s)
    decreases |s|
  {
    if |s| == 0 then 0 else DigitsValue(s[..|s| - 1]) * 10 + DigitValue(s[|s| - 1])
  }

  /** The position of the first ':' in `s`, if any. */
  function ColonIndex(s: string): (r: Option<nat>)
    ensures r.Some? ==> r.value < |s| && s[r.value] == ':' && ':' !in s[..r.value]
    ensures r.None? ==> ':' !in s
    decreases |s|
  {
    if |s| == 0 then None
    else if s[0] == ':' then Some(0)
    else
      match ColonIndex(s[1..])
      case None => None
      case Some(i) => Some(i + 1)
  }

  /** Reads back `hh:mm` (both parts non-empty decimal digits) as minutes. */
  function ParseTime(s: string): Option<int> {
    match ColonIndex(s)
    case None => None
    case Some(i) =>
      var hh, mm := s[..i], s[i + 1..];
      if |hh| > 0 && |mm| > 0 && AllDigits(hh) && AllDigits(mm)
      then Some(DigitsValue(hh) * 60 + DigitsValue(mm))
      else None
  }

  /** The digits of `n` are a non-empty digit string whose value is `n`. */
  lemma {:induction false} DigitsRoundTrip(n: nat)
    ensures |Digits(n)| > 0 && AllDigits(Digits(n))
    ensures DigitsValue(Digits(n)) == n
    decreases n
  {
    if n >= 10 {
      DigitsRoundTrip(n / 10);
      var s := Digits(n);
      assert s[..|s| - 1] == Digits(n / 10);
    }
  }

  /** Leading zeros do not change the value of a digit string. */
  lemma {:induction false} LeadingZeros(k: nat, s: string)
    requires AllDigits(s)
    ensures AllDigits(Repeat('0', k) + s)
    ensures DigitsValue(Repeat('0', k) + s) == DigitsValue(s)
    decreases |s| + k
  {
    var t := Repeat('0', k) + s;
    if |s| == 0 {
      if k > 0 {
        assert t[..|t| - 1] == Repeat('0', k - 1) + s;
        LeadingZeros(k - 1, s);
      }
    } else {
      assert t[..|t| - 1] == Repeat('0', k) + s[..|s| - 1];
      LeadingZeros(k, s[..|s| - 1]);
    }
  }

  /** A padded digit string is a non-empty digit string of the same value,
      without a ':'. */
  lemma PaddedDigits(n: nat)
    ensures |PadStart(Digits(n), 2, '0')| >= 2
    ensures AllDigits(PadStart(Digits(n), 2, '0'))
    ensures DigitsValue(PadStart(Digits(n), 2, '0')) == n
    ensures ':' !in PadStart(Digits(n), 2, '0')
  {
    var p := PadStart(Digits(n), 2, '0');
    DigitsRoundTrip(n);
    LeadingZeros(|p| - |Digits(n)|, Digits(n));
  }

  /** The first ':' of `a + ":" + b` is the one after `a` when `a` has none. */
  lemma ColonAfter(a: string, b: string)
    requires ':' !in a
    ensures ColonIndex(a + ":" + b) == Some(|a|)
  {
    var s := a + ":" + b;
    assert s[|a|] == ':';
    assert s[..|a|] == a;
    assert s[..|a| + 1][|a|] == ':';
  }

  /** Reading back the padded parts of a non-negative split gives the
      minutes they stand for. */
  lemma ClockTextRoundTrip(hh: nat, mm: nat, minutes: int)
    requires hh * 60 + mm == minutes
    ensures ParseTime(ClockText(hh, mm)) == Some(minutes)
  {
    assert NumberText(hh) == Digits(hh) && NumberText(mm) == Digits(mm);
    var hhText, mmText := PadStart(Digits(hh), 2, '0'), PadStart(Digits(mm), 2, '0');
    PaddedDigits(hh);
    PaddedDigits(mm);
    var s := hhText + ":" + mmText;
    ColonAfter(hhText, mmText);
    assert s[..|hhText|] == hhText;
    assert s[|hhText| + 1..] == mmText;
    assert ParseTime(s) == Some(DigitsValue(hhText) * 60 + DigitsValue(mmText));
  }

  /** Reading back a formatted non-negative duration gives the duration. */
  lemma FormatTimeRoundTrip(minutes: int)
    requires minutes >= 0
    ensures ParseTime(FormatTime(minutes)) == Some(minutes)
  {
    var (hh, mm) := SplitMinutes(minutes);
    assert FormatTime(minutes) == ClockText(hh, mm);
    ClockTextRoundTrip(hh, mm, minutes);
  }

  /** A non-negative duration formats as its whole hours and its remaining
      minutes, the latter below 60. */
  lemma FormatTimeFields(minutes: int)
    requires minutes >= 0
    ensures FormatTime(minutes) == ClockText(minutes / 60, minutes % 60)
  {
    var (hh, mm) := SplitMinutes(minutes);
    assert hh == minutes / 60 && mm == minutes % 60;
  }

  /** Numbers below 100 have at most two digits. */
  lemma TwoDigits(n: nat)
    requires n < 100
    ensures |Digits(n)| <= 2
  {
    if n >= 10 {
      assert Digits(n / 10) == [DigitChar(n / 10)];
    }
  }

  /** A non-negative duration under 100 hours formats as exactly `hh:mm`. */
  lemma FormatTimeShape(minutes: int)
    requires 0 <= minutes < 6000
    ensures |FormatTime(minutes)| == 5 && FormatTime(minutes)[2] == ':'
  {
    var (hh, mm) := SplitMinutes(minutes);
    TwoDigits(hh);
    TwoDigits(mm);
  }

  /** Worked values: 125 minutes, 0 minutes and 59 minutes. */
  lemma FormatTimeExamples()
    ensures FormatTime(125) == "02:05"
    ensures FormatTime(0) == "00:00"
    ensures FormatTime(59) == "00:59"
  {
    assert SplitMinutes(125) == (2, 5);
    assert SplitMinutes(59) == (0, 59);
    assert Digits(59) == Digits(5) + [DigitChar(9)];
  }
}
