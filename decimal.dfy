/**
 * Decimal numbers as the command line sees them: `usize`'s `FromStr`
 * (the index argument of `remove`) and `usize`'s `Display` (the position
 * printed by `list`). `usize` is taken to be 64 bits wide.
 */
module Decimal {
  import opened Options

  const USIZE_MAX: nat := 0xFFFF_FFFF_FFFF_FFFF

  predicate IsDigit(c: char) {
    '0' <= c <= '9'
  }

  predicate AllDigits(s: string) {
    forall i :: 0 <= i < |s| ==> IsDigit(s[i])
  }

  function DigitValue(c: char): nat
    requires IsDigit(c)
  {
    c as int - '0' as int
  }

  function DigitChar(d: nat): (c: char)
    requires d < 10
    ensures IsDigit(c) && DigitValue(c) == d
  {
    ('0' as int + d) as char
  }

  /** The number a string of decimal digits denotes, most significant digit first. */
  function DigitsValue(s: string): nat
    requires AllDigits(s)
  {
    if |s| == 0 then 0 else DigitsValue(s[..|s| - 1]) * 10 + DigitValue(s[|s| - 1])
  }

  /**
   * `format!("{}", n)`: the shortest decimal spelling of `n`. It is digits
   * only, denotes `n`, and has no leading zero unless it is "0".
   */
  function NatToString(n: nat): (r: string)
    ensures |r| >= 1 && AllDigits(r)
    ensures DigitsValue(r) == n
    ensures |r| > 1 ==> r[0] != '0'
  {
    if n < 10 then [DigitChar(n)]
    else
      var hi := NatToString(n / 10);
      var r := hi + [DigitChar(n % 10)];
      assert r[..|r| - 1] == hi;
      r
  }

  /**
   * `s.parse::<usize>()`: an optional leading '+', then at least one
   * decimal digit and nothing else; a value above `usize::MAX` is an
   * overflow error. `None` stands for every `ParseIntError`.
   */
  function ParseUsize(s: string): (r: Option<nat>)
    ensures r.Some? ==> r.value <= USIZE_MAX
  {
    var digits := if |s| > 0 && s[0] == '+' then s[1..] else s;
    if |digits| == 0 || !AllDigits(digits) || DigitsValue(digits) > USIZE_MAX then None
    else Some(DigitsValue(digits))
  }

  /** Every index `list` can print parses back to itself. */
  lemma ParseFormat(n: nat)
    requires n <= USIZE_MAX
    ensures ParseUsize(NatToString(n)) == Some(n)
    ensures ParseUsize("+" + NatToString(n)) == Some(n)
  {
  }

  /** A number past `usize::MAX` is refused rather than wrapped. */
  lemma ParseOverflow(n: nat)
    requires n > USIZE_MAX
    ensures ParseUsize(NatToString(n)) == None
    ensures ParseUsize("+" + NatToString(n)) == None
  {
  }

  /** A parse succeeds only on '+'? followed by digits: any other character makes it fail. */
  lemma ParseRejects(s: string, i: nat)
    requires i < |s| && !IsDigit(s[i]) && !(i == 0 && s[i] == '+')
    ensures ParseUsize(s) == None
  {
  }

  /** Leading zeros do not change the value. */
  lemma {:induction false} LeadingZero(s: string)
    requires AllDigits(s)
    ensures AllDigits("0" + s) && DigitsValue("0" + s) == DigitsValue(s)
  {
    if |s| > 0 {
      var t := "0" + s;
      assert t[..|t| - 1] == "0" + s[..|s| - 1];
      LeadingZero(s[..|s| - 1]);
    }
  }

  /** `remove 007` and `remove +007` select the same task as `remove 7`. */
  lemma ParseLeadingZero(s: string)
    requires |s| > 0 && AllDigits(s)
    ensures ParseUsize("0" + s) == ParseUsize(s)
    ensures ParseUsize("+0" + s) == ParseUsize(s)
  {
    LeadingZero(s);
    assert ("+0" + s)[1..] == "0" + s;
  }

  /** At least one digit is needed: an empty argument (`Empty`) and a lone '+' (`InvalidDigit`) are refused. */
  lemma ParseNeedsDigits()
    ensures ParseUsize("") == None
    ensures ParseUsize("+") == None
  {
    assert "+"[1..] == "";
  }

  /** A single digit parses to its value. */
  lemma ParseDigit(c: char)
    requires IsDigit(c)
    ensures ParseUsize([c]) == Some(DigitValue(c))
  {
    var s := [c];
    assert s[0] != '+' && AllDigits(s);
    assert s[..0] == "";
    assert DigitsValue(s) == DigitsValue(s[..0]) * 10 + DigitValue(c);
  }
}
