/** The JavaScript string operations the controller relies on:
    `String.prototype.split` with a one-character separator (used for the line
    count) and the decimal rendering of a millisecond timestamp (used in the
    name of the downloaded file). */
module TextOps {

  /** Number of occurrences of `c` in `t`. */
  function Count(t: string, c: char): nat
  {
    if |t| == 0 then 0
    else (if t[0] == c then 1 else 0) + Count(t[1..], c)
  }

  /** `t.split(sep)` for a one-character separator: the maximal pieces of `t`
      between separators, always at least one (an empty string splits into
      `[""]`). */
  function Split(t: string, sep: char): (parts: seq<string>)
    ensures |parts| >= 1
    ensures forall i :: 0 <= i < |parts| ==> sep !in parts[i]
  {
    if |t| == 0 then [""]
    else
      var rest := Split(t[1..], sep);
      if t[0] == sep then [""] + rest
      else [[t[0]] + rest[0]] + rest[1..]
  }

  /** `parts.join(sep)`: the inverse of `Split`. */
  function Join(parts: seq<string>, sep: char): string
    requires |parts| >= 1
  {
    if |parts| == 1 then parts[0]
    else parts[0] + [sep] + Join(parts[1..], sep)
  }

  /** Splitting yields one more piece than there are separators. */
  lemma {:induction false} SplitLength(t: string, sep: char)
    ensures |Split(t, sep)| == Count(t, sep) + 1
  {
    if |t| > 0 {
      SplitLength(t[1..], sep);
    }
  }

  /** Joining the pieces with the separator gives back the original text. */
  lemma {:induction false} JoinSplit(t: string, sep: char)
    ensures Join(Split(t, sep), sep) == t
  {
    if |t| > 0 {
      var rest := Split(t[1..], sep);
      JoinSplit(t[1..], sep);
      if t[0] == sep {
        assert Split(t, sep)[1..] == rest;
      } else {
        var parts := Split(t, sep);
        assert parts[1..] == rest[1..];
        if |rest| == 1 {
          assert Join(parts, sep) == [t[0]] + rest[0];
        } else {
          assert Join(rest, sep) == rest[0] + [sep] + Join(rest[1..], sep);
        }
        assert [t[0]] + t[1..] == t;
      }
    }
  }

  /** The character for a decimal digit. */
  function DigitChar(d: nat): (c: char)
    requires d < 10
    ensures '0' <= c <= '9'
  {
    ['0', '1', '2', '3', '4', '5', '6', '7', '8', '9'][d]
  }

  /** The value of a decimal digit character. */
  function DigitValue(c: char): (d: nat)
    requires '0' <= c <= '9'
    ensures d < 10
  {
    (c as int - '0' as int) as nat
  }

  predicate IsDecimal(s: string)
  {
    |s| >= 1 && forall i :: 0 <= i < |s| ==> '0' <= s[i] <= '9'
  }

  /** `String(n)` for a non-negative integer: its decimal digits, most
      significant first, without leading zeros. */
  function Decimal(n: nat): (s: string)
    ensures IsDecimal(s)
    ensures |s| > 1 ==> s[0] != '0'
  {
    if n < 10 then [DigitChar(n)]
    else Decimal(n / 10) + [DigitChar(n % 10)]
  }

  /** Reads a string of decimal digits back as a number. */
  function ParseDecimal(s: string): nat
    requires IsDecimal(s)
  {
    var last := DigitValue(s[|s| - 1]);
    if |s| == 1 then last
    else ParseDecimal(s[..|s| - 1]) * 10 + last
  }

  /** Rendering a number in decimal and reading it back gives the number. */
  lemma {:induction false} DecimalRoundTrip(n: nat)
    ensures ParseDecimal(Decimal(n)) == n
  {
    if n >= 10 {
      var s := Decimal(n);
      assert s[..|s| - 1] == Decimal(n / 10);
      DecimalRoundTrip(n / 10);
    } else {
      assert DigitValue(DigitChar(n)) == n;
    }
  }
}
