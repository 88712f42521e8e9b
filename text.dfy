/** Decimal digits, zero padding and splitting at a separator: the string
    handling the label builder and the form-field parsers share. */
module Text {
  import opened Results

  predicate IsDigit(c: char) { '0' <= c <= '9' }

  predicate AllDigits(s: string) { forall i :: 0 <= i < |s| ==> IsDigit(s[i]) }

  function DigitChar(d: int): (c: char)
    requires 0 <= d < 10
    ensures IsDigit(c) && c as int - '0' as int == d
  {
    ('0' as int + d) as char
  }

  /** `n.toString()` for a non-negative integer: decimal digits without a leading zero. */
  function Decimal(n: nat): (s: string)
    ensures 1 <= |s| && AllDigits(s)
    ensures |s| == 1 <==> n < 10
    ensures n > 0 ==> s[0] != '0'
  {
    if n < 10 then [DigitChar(n)] else Decimal(n / 10) + [DigitChar(n % 10)]
  }

  /** `s.padStart(2, "0")`: zeros in front until the length is at least 2. */
  function PadStart2(s: string): (r: string)
    ensures |r| == if |s| >= 2 then |s| else 2
    ensures r[|r| - |s|..] == s
    ensures forall i :: 0 <= i < |r| - |s| ==> r[i] == '0'
  {
    if |s| >= 2 then s else seq(2 - |s|, _ => '0') + s
  }

  /** The number a string of decimal digits denotes. */
  function ValueOf(s: string): nat
    requires AllDigits(s)
  {
    if s == [] then 0 else ValueOf(s[..|s| - 1]) * 10 + (s[|s| - 1] as int - '0' as int)
  }

  lemma {:induction false} ValueOfDecimal(n: nat)
    ensures ValueOf(Decimal(n)) == n
  {
    if n >= 10 {
      var s := Decimal(n);
      assert s[..|s| - 1] == Decimal(n / 10);
      ValueOfDecimal(n / 10);
    }
  }

  lemma {:induction false} ValueOfLeadingZero(s: string)
    requires AllDigits(s)
    ensures AllDigits("0" + s) && ValueOf("0" + s) == ValueOf(s)
  {
    if s != [] {
      var t := "0" + s;
      assert t[..|t| - 1] == "0" + s[..|s| - 1];
      ValueOfLeadingZero(s[..|s| - 1]);
    } else {
      assert "0" + s == "0";
    }
  }

  lemma PaddedValue(n: nat)
    ensures AllDigits(PadStart2(Decimal(n))) && ValueOf(PadStart2(Decimal(n))) == n
  {
    var d := Decimal(n);
    ValueOfDecimal(n);
    if |d| < 2 {
      assert PadStart2(d) == "0" + d;
      ValueOfLeadingZero(d);
    }
  }

  /** Splits at the first `sep`: the text before it, and the text after it if
      there is one. */
  function SplitAt(s: string, sep: char): (r: (string, Option<string>))
    ensures sep !in r.0
    ensures r.1.None? ==> r.0 == s
    ensures r.1.Some? ==> s == r.0 + [sep] + r.1.value
  {
    if s == [] then ([], None)
    else if s[0] == sep then ([], Some(s[1..]))
    else
      var (before, after) := SplitAt(s[1..], sep);
      ([s[0]] + before, after)
  }

  lemma {:induction false} SplitAtAfterDigits(d: string, sep: char, tail: Option<string>)
    requires AllDigits(d) && !IsDigit(sep)
    ensures SplitAt(d + (if tail.Some? then [sep] + tail.value else ""), sep) == (d, tail)
  {
    var s := d + (if tail.Some? then [sep] + tail.value else "");
    if d != [] {
      assert s[1..] == d[1..] + (if tail.Some? then [sep] + tail.value else "");
      SplitAtAfterDigits(d[1..], sep, tail);
      assert [d[0]] + d[1..] == d;
    } else {
      assert s == (if tail.Some? then [sep] + tail.value else "");
    }
  }

  /** `pieces.join(sep)`: the pieces with `sep` between neighbours. */
  function Join(pieces: seq<string>, sep: char): string
    requires |pieces| >= 1
    decreases |pieces|
  {
    if |pieces| == 1 then pieces[0] else pieces[0] + [sep] + Join(pieces[1..], sep)
  }

  /** `s.split(sep)`: every piece between separators, never an empty list;
      no piece holds the separator and joining them with it gives `s` back. */
  function Split(s: string, sep: char): (r: seq<string>)
    ensures |r| >= 1
    ensures sep !in s ==> r == [s]
    ensures forall i :: 0 <= i < |r| ==> sep !in r[i]
    ensures Join(r, sep) == s
    decreases |s|
  {
    var (before, after) := SplitAt(s, sep);
    if after.None? then [before]
    else
      var rest := Split(after.value, sep);
      assert ([before] + rest)[1..] == rest;
      [before] + rest
  }
}
