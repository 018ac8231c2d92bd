/**
 * The text operations the interview screens apply to numbers: JavaScript's
 * `Number.prototype.toString` for an integer, `String.prototype.padStart`
 * with the fill character '0', and reading a digit string back as a number.
 */
module NumberText {

  import opened Wrappers

  predicate IsDigit(c: char) {
    '0' <= c <= '9'
  }

  predicate IsDigits(s: string) {
    forall i :: 0 <= i < |s| ==> IsDigit(s[i])
  }

  function DigitChar(d: nat): (c: char)
    requires d < 10
    ensures IsDigit(c)
  {
    ('0' as int + d) as char
  }

  /** The value of a digit character. */
  function DigitValue(c: char): (d: nat)
    requires IsDigit(c)
    ensures d < 10 && DigitChar(d) == c
  {
    c as int - '0' as int
  }

  /** The decimal text of `n` as `toString()` writes it: digits only, no leading zero. */
  function NatToString(n: nat): (s: string)
    ensures 1 <= |s| && IsDigits(s)
    ensures s[0] == '0' <==> n == 0
  {
    if n < 10 then [DigitChar(n)] else NatToString(n / 10) + [DigitChar(n % 10)]
  }

  /**
   * Reads a digit string, most significant digit first, as the number it
   * denotes; None if any character is not a digit.
   */
  function ParseDigits(s: string): (v: Option<nat>)
    ensures v.Some? <==> IsDigits(s)
  {
    if s == [] then Some(0)
    else
      var init, last := s[..|s| - 1], s[|s| - 1];
      assert forall i :: 0 <= i < |init| ==> init[i] == s[i];
      match ParseDigits(init)
      case None => None
      case Some(high) => if IsDigit(last) then Some(10 * high + DigitValue(last)) else None
  }

  /** Reading back the text of `n` gives `n`. */
  lemma {:induction false} ParseNatToString(n: nat)
    ensures ParseDigits(NatToString(n)) == Some(n)
  {
    if n >= 10 {
      var prefix := NatToString(n / 10);
      assert (prefix + [DigitChar(n % 10)])[..|prefix|] == prefix;
      ParseNatToString(n / 10);
    }
  }

  /** One digit below 10, at most two below 100. */
  lemma {:induction false} NatToStringLength(n: nat)
    ensures |NatToString(n)| == 1 <==> n < 10
    ensures |NatToString(n)| <= 2 <==> n < 100
  {
    if n >= 10 {
      NatToStringLength(n / 10);
    }
  }

  function Zeros(k: nat): (z: string)
    ensures |z| == k
    ensures forall i :: 0 <= i < k ==> z[i] == '0'
  {
    seq(k, _ => '0')
  }

  /**
   * `s.padStart(width, '0')`: prefixes '0's until `s` is `width` long, and
   * leaves a string that is already that long or longer as it is.
   */
  function PadStart(s: string, width: nat): (r: string)
    ensures |r| == if |s| >= width then |s| else width
    ensures r[|r| - |s|..] == s
    ensures forall i :: 0 <= i < |r| - |s| ==> r[i] == '0'
  {
    if |s| >= width then s else Zeros(width - |s|) + s
  }

  /** Padding a digit string with '0's keeps it a digit string. */
  lemma PadStartDigits(s: string, width: nat)
    requires IsDigits(s)
    ensures IsDigits(PadStart(s, width))
  {
  }

  lemma {:induction false} ParseZeros(k: nat)
    ensures ParseDigits(Zeros(k)) == Some(0)
  {
    if k > 0 {
      assert Zeros(k)[..k - 1] == Zeros(k - 1);
      ParseZeros(k - 1);
    }
  }

  /** Leading zeros do not change what a string reads as. */
  lemma {:induction false} ParseLeadingZeros(k: nat, s: string)
    ensures ParseDigits(Zeros(k) + s) == ParseDigits(s)
    decreases |s|
  {
    var t := Zeros(k) + s;
    if s == [] {
      assert t == Zeros(k);
      ParseZeros(k);
    } else {
      assert t[..|t| - 1] == Zeros(k) + s[..|s| - 1];
      ParseLeadingZeros(k, s[..|s| - 1]);
    }
  }

  /** Padding with '0's does not change what a string reads as. */
  lemma ParsePadStart(s: string, width: nat)
    ensures ParseDigits(PadStart(s, width)) == ParseDigits(s)
  {
    if |s| < width {
      ParseLeadingZeros(width - |s|, s);
    }
  }
}
