/** The string-to-number and number-to-string steps the time handling in the
    source relies on: `String.prototype.split`, `Number`, `parseInt(_, 10)`,
    decimal rendering of a non-negative integer inside a template literal,
    and the 24-hour "HH:MM" text an `<input type="time">` produces. */
module TimeText {
  import opened Common

  predicate IsDigit(c: char) {
    '0' <= c <= '9'
  }

  predicate AllDigits(s: string) {
    forall i :: 0 <= i < |s| ==> IsDigit(s[i])
  }

  function DigitValue(c: char): nat
    requires IsDigit(c)
  {
    (c as int) - ('0' as int)
  }

  function DigitChar(d: nat): (c: char)
    requires d < 10
    ensures IsDigit(c) && DigitValue(c) == d
  {
    ('0' as int + d) as char
  }

  /** The decimal value of a run of digits, most significant first. */
  function DigitsValue(s: string): nat
    requires AllDigits(s)
  {
    if s == [] then 0 else DigitsValue(s[..|s| - 1]) * 10 + DigitValue(s[|s| - 1])
  }

  /** `String.prototype.split(c)`: the fields between separators; never empty. */
  function Split(s: string, c: char): (r: seq<string>)
    ensures |r| >= 1
  {
    if s == [] then [""]
    else
      var rest := Split(s[1..], c);
      if s[0] == c then [""] + rest else [[s[0]] + rest[0]] + rest[1..]
  }

  lemma {:induction false} SplitWithoutSeparator(s: string, c: char)
    requires c !in s
    ensures Split(s, c) == [s]
  {
    if s != [] {
      SplitWithoutSeparator(s[1..], c);
      assert [s[0]] + s[1..] == s;
    }
  }

  /** Splitting at the first separator yields the text before it as the first field. */
  lemma {:induction false} SplitAtFirst(x: string, c: char, y: string)
    requires c !in x
    ensures Split(x + [c] + y, c) == [x] + Split(y, c)
  {
    if x == [] {
      assert x + [c] + y == [c] + y && ([c] + y)[1..] == y;
    } else {
      var s := x + [c] + y;
      assert s[0] == x[0] && s[1..] == x[1..] + [c] + y;
      SplitAtFirst(x[1..], c, y);
      assert [x[0]] + x[1..] == x;
    }
  }

  /** `Number(s)` for the texts a time input yields: a run of digits (the
      empty text is 0); any other text is `NaN`, here `None`. */
  function NumberOf(s: string): Option<nat> {
    if AllDigits(s) then Some(DigitsValue(s)) else None
  }

  function LeadingDigits(s: string): (r: string)
    ensures AllDigits(r) && |r| <= |s| && r == s[..|r|]
  {
    if s != [] && IsDigit(s[0]) then [s[0]] + LeadingDigits(s[1..]) else []
  }

  /** `parseInt(s, 10)`: leading white space is skipped and the digits that
      follow are read; `NaN` (`None`) when there are none. */
  function ParseInt(s: string): Option<nat> {
    var d := LeadingDigits(TrimStart(s));
    if d == [] then None else Some(DigitsValue(d))
  }

  lemma {:induction false} LeadingDigitsOfDigits(s: string)
    requires AllDigits(s)
    ensures LeadingDigits(s) == s
  {
    if s != [] {
      LeadingDigitsOfDigits(s[1..]);
      assert [s[0]] + s[1..] == s;
    }
  }

  /** The decimal text of `n`, as `${n}` renders a non-negative integer. */
  function NatToString(n: nat): (r: string)
    ensures |r| >= 1 && AllDigits(r)
  {
    if n < 10 then [DigitChar(n)] else NatToString(n / 10) + [DigitChar(n % 10)]
  }

  /** Reading back a rendered number gives the number. */
  lemma {:induction false} NatToStringRoundTrip(n: nat)
    ensures DigitsValue(NatToString(n)) == n
  {
    if n >= 10 {
      NatToStringRoundTrip(n / 10);
      var r := NatToString(n);
      assert r[..|r| - 1] == NatToString(n / 10);
    }
  }

  /** The first position of `c` in `s`. */
  function IndexOf(s: string, c: char): (r: Option<nat>)
    ensures r.Some? ==> r.value < |s| && s[r.value] == c && c !in s[..r.value]
    ensures r.None? ==> c !in s
  {
    if s == [] then None
    else if s[0] == c then Some(0)
    else
      var r := IndexOf(s[1..], c);
      if r.Some? then
        assert s[..r.value + 1] == [s[0]] + s[1..][..r.value];
        Some(r.value + 1)
      else None
  }

  lemma IndexOfAfter(x: string, c: char, y: string)
    requires c !in x
    ensures IndexOf(x + [c] + y, c) == Some(|x|)
  {
    var s := x + [c] + y;
    var r := IndexOf(s, c);
    assert s[|x|] == c;
    assert s[..|x|] == x;
  }

  /** A 24-hour "HH:MM" text as an `<input type="time">` yields it. */
  predicate IsClockTime(s: string) {
    && |s| == 5
    && IsDigit(s[0]) && IsDigit(s[1]) && s[2] == ':' && IsDigit(s[3]) && IsDigit(s[4])
    && DigitsValue(s[..2]) <= 23 && DigitsValue(s[3..]) <= 59
  }

  function HourOf(s: string): nat
    requires IsClockTime(s)
  {
    DigitsValue(s[..2])
  }

  function MinuteOf(s: string): nat
    requires IsClockTime(s)
  {
    DigitsValue(s[3..])
  }

  /** The two fields of a clock time under `split(':')`. */
  lemma ClockTimeFields(s: string)
    requires IsClockTime(s)
    ensures Split(s, ':') == [s[..2], s[3..]]
  {
    assert s == s[..2] + [':'] + s[3..];
    assert ':' !in s[..2];
    assert forall i :: 0 <= i < |s[3..]| ==> s[3..][i] == s[i + 3];
    SplitAtFirst(s[..2], ':', s[3..]);
    SplitWithoutSeparator(s[3..], ':');
  }

  /** Two clock times with the same hour and the same minute text are the same text. */
  lemma ClockTimeDetermined(a: string, b: string)
    requires IsClockTime(a) && IsClockTime(b)
    requires HourOf(a) == HourOf(b) && a[3..] == b[3..]
    ensures a == b
  {
    assert a[..2][..1] == a[..1] && b[..2][..1] == b[..1];
    assert DigitsValue(a[..2]) == DigitValue(a[0]) * 10 + DigitValue(a[1]);
    assert DigitsValue(b[..2]) == DigitValue(b[0]) * 10 + DigitValue(b[1]);
    assert a[0] == b[0] && a[1] == b[1];
    assert a == a[..2] + [':'] + a[3..];
    assert b == b[..2] + [':'] + b[3..];
  }
}
