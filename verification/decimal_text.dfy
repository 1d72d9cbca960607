/** How a JavaScript template literal renders the IPC.

    `ipcMensual` is `parseFloat(x.toFixed(2))`, so it holds a whole
    number of hundredths, and `${ipcMensual}` prints it in its shortest
    decimal form: `2.5`, `2`, `2.05`, `-0.3`, `0`. */
module DecimalText {
  import opened Common

  predicate IsDigit(c: char)
  {
    '0' <= c <= '9'
  }

  predicate AllDigits(s: string)
  {
    forall i :: 0 <= i < |s| ==> IsDigit(s[i])
  }

  function Digit(d: nat): (c: char)
    requires d < 10
    ensures IsDigit(c)
  {
    ('0' as int + d) as char
  }

  function DigitValue(c: char): (d: nat)
    requires IsDigit(c)
    ensures d < 10 && Digit(d) == c
  {
    c as int - '0' as int
  }

  /** The decimal numeral of `n`, without leading zeros. */
  function NatText(n: nat): (s: string)
    ensures |s| > 0 && AllDigits(s)
    ensures |s| > 1 ==> s[0] != '0'
  {
    if n < 10 then [Digit(n)] else NatText(n / 10) + [Digit(n % 10)]
  }

  /** The value of a numeral (the reading direction of `NatText`). */
  function TextNat(s: string): nat
    requires AllDigits(s)
  {
    if s == [] then 0 else 10 * TextNat(s[..|s| - 1]) + DigitValue(s[|s| - 1])
  }

  lemma {:induction false} NatTextRoundTrip(n: nat)
    ensures TextNat(NatText(n)) == n
  {
    var s := NatText(n);
    if n >= 10 {
      assert s[..|s| - 1] == NatText(n / 10);
      NatTextRoundTrip(n / 10);
    }
  }

  /** The fractional part of a whole number `f` of hundredths, trailing
      zeros dropped, and no point at all for a whole number. */
  function Fraction(f: nat): string
    requires f < 100
  {
    if f == 0 then ""
    else if f % 10 == 0 then ['.', Digit(f / 10)]
    else ['.', Digit(f / 10), Digit(f % 10)]
  }

  function Magnitude(a: nat): string
  {
    NatText(a / 100) + Fraction(a % 100)
  }

  /** `${n}` for the JavaScript number `n == h / 100`. */
  function HundredthsText(h: int): (s: string)
    ensures |s| > 0 && s[|s| - 1] != '.'
    ensures '%' !in s
  {
    if h < 0 then "-" + Magnitude(-h) else Magnitude(h)
  }

  /** Index of the first `c` in `s`, or `|s|` when there is none. */
  function IndexOf(s: string, c: char): (k: nat)
    ensures k <= |s|
    ensures forall i :: 0 <= i < k ==> s[i] != c
    ensures k < |s| ==> s[k] == c
  {
    if s == [] then 0
    else if s[0] == c then 0
    else 1 + IndexOf(s[1..], c)
  }

  /** Reads back an unsigned decimal with at most two fractional digits. */
  function ParseMagnitude(s: string): Option<nat>
  {
    var k := IndexOf(s, '.');
    var whole := s[..k];
    if whole == [] || !AllDigits(whole) then None
    else if k == |s| then Some(100 * TextNat(whole))
    else if |s| == k + 2 && IsDigit(s[k + 1]) then
      Some(100 * TextNat(whole) + 10 * DigitValue(s[k + 1]))
    else if |s| == k + 3 && IsDigit(s[k + 1]) && IsDigit(s[k + 2]) then
      Some(100 * TextNat(whole) + 10 * DigitValue(s[k + 1]) + DigitValue(s[k + 2]))
    else None
  }

  /** Reads back a signed decimal as a number of hundredths. */
  function ParseHundredths(s: string): Option<int>
  {
    if |s| > 0 && s[0] == '-' then
      match ParseMagnitude(s[1..])
      case Some(a) => Some(-(a as int))
      case None => None
    else ParseMagnitude(s)
  }

  lemma MagnitudeRoundTrip(a: nat)
    ensures ParseMagnitude(Magnitude(a)) == Some(a)
  {
    var w := NatText(a / 100);
    var f := Fraction(a % 100);
    var s := w + f;
    assert forall i :: 0 <= i < |w| ==> s[i] == w[i] && s[i] != '.';
    assert |f| > 0 ==> s[|w|] == '.';
    assert IndexOf(s, '.') == |w|;
    assert s[..|w|] == w;
    NatTextRoundTrip(a / 100);
    if a % 100 != 0 {
      assert s[|w| + 1] == Digit((a % 100) / 10);
      if (a % 100) % 10 != 0 {
        assert s[|w| + 2] == Digit((a % 100) % 10);
      }
    }
  }

  /** The rendering loses nothing: the printed IPC reads back as itself.
      In particular two different IPCs never print alike. */
  lemma HundredthsRoundTrip(h: int)
    ensures ParseHundredths(HundredthsText(h)) == Some(h)
  {
    if h < 0 {
      var s := HundredthsText(h);
      assert s[1..] == Magnitude(-h);
      MagnitudeRoundTrip(-h);
    } else {
      MagnitudeRoundTrip(h);
      assert NatText(h / 100)[0] != '-';
    }
  }

  /** The rendering is the shortest one: no trailing zero after the point. */
  lemma NoTrailingZero(h: int)
    ensures IndexOf(HundredthsText(h), '.') < |HundredthsText(h)| ==>
              HundredthsText(h)[|HundredthsText(h)| - 1] != '0'
  {
  }

  /** The worked examples of the rendering. */
  lemma RenderingExamples()
    ensures HundredthsText(250) == "2.5"
    ensures HundredthsText(200) == "2"
    ensures HundredthsText(205) == "2.05"
    ensures HundredthsText(-30) == "-0.3"
    ensures HundredthsText(0) == "0"
  {
  }
}
