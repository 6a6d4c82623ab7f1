/** The answers the interview collects, and the two text conversions the
    chatbot applies to them: Python's `str(...)` (to echo an answer into the
    transcript) and `int(...)` on an all-digit string (the family-size rule).
 */
module Values {

  datatype Option<+T> = None | Some(value: T)

  /** A raw answer as a widget returns it: the text of a text box, an integer
      from an integer number box, or a float from a float number box. A float
      is opaque here: it is carried only as the text `str(...)` prints for it. */
  datatype Value = Text(s: string) | Int(i: int) | Float(shown: string)

  /** An ASCII decimal digit. */
  predicate IsDigit(c: char)
  {
    '0' <= c <= '9'
  }

  /** Python's `str.isdigit` restricted to ASCII: at least one character,
      and every character a digit. */
  predicate IsDigits(s: string)
  {
    |s| > 0 && forall i :: 0 <= i < |s| ==> IsDigit(s[i])
  }

  /** The same test written as Python's `string.digits`: an ASCII digit
      string is a non-empty string drawn from "0123456789". */
  lemma DigitsListed(s: string)
    ensures IsDigits(s) <==> |s| > 0 && forall i :: 0 <= i < |s| ==> s[i] in "0123456789"
  {
  }

  function DigitValue(c: char): (d: nat)
    ensures d < 10
    ensures IsDigit(c) ==> d as int == c as int - '0' as int
  {
    if IsDigit(c) then c as int - '0' as int else 0
  }

  function DigitChar(d: nat): (c: char)
    requires d < 10
    ensures IsDigit(c) && DigitValue(c) == d
  {
    ('0' as int + d) as char
  }

  /** Python's `int(s)` on a string of ASCII digits: read from the left,
      most significant digit first, so the last digit is the units digit. */
  function ParseDigits(s: string): (n: nat)
    ensures |s| > 0 ==> n % 10 == DigitValue(s[|s| - 1])
  {
    if s == [] then 0 else ParseDigits(s[..|s| - 1]) * 10 + DigitValue(s[|s| - 1])
  }

  /** The decimal text of a natural number, without leading zeros:
      `int` reads back exactly the number that was printed. */
  function NatToString(n: nat): (r: string)
    ensures IsDigits(r) && ParseDigits(r) == n
    ensures |r| > 1 ==> r[0] != '0'
  {
    if n < 10 then [DigitChar(n)]
    else
      var front := NatToString(n / 10);
      var r := front + [DigitChar(n % 10)];
      assert r[..|r| - 1] == front;
      r
  }

  /** Python's `str` on an integer: a minus sign before the digits of the
      magnitude when negative. */
  function IntToString(i: int): (r: string)
    ensures |r| > 0
    ensures i >= 0 ==> IsDigits(r) && ParseDigits(r) == i
    ensures i < 0 ==> r[0] == '-' && IsDigits(r[1..]) && ParseDigits(r[1..]) == -i
    ensures i >= 0 && |r| > 1 ==> r[0] != '0'
    ensures i < 0 && |r| > 2 ==> r[1] != '0'
  {
    if i < 0 then "-" + NatToString(-i) else NatToString(i)
  }

  /** Python's `str(user_input)`: the text echoed into the transcript and the
      text the emptiness check looks at. */
  function Str(v: Value): (r: string)
    ensures v.Text? ==> r == v.s
    ensures v.Float? ==> r == v.shown
    ensures v.Int? ==> r != "" && r == IntToString(v.i)
  {
    match v
    case Text(s) => s
    case Int(i) => IntToString(i)
    case Float(shown) => shown
  }

  /** A digit string that reads as zero is made of zeros only, and the
      other way round. */
  lemma {:induction false} ParseZero(s: string)
    requires forall i :: 0 <= i < |s| ==> IsDigit(s[i])
    ensures ParseDigits(s) == 0 <==> forall i :: 0 <= i < |s| ==> s[i] == '0'
  {
    if s != [] {
      var front := s[..|s| - 1];
      ParseZero(front);
      assert forall i :: 0 <= i < |front| ==> front[i] == s[i];
    }
  }

  /** A digit string reads as a value in [lo, hi] with hi < 10 exactly when
      it is a run of zeros followed by one digit in that range: `int` ignores
      leading zeros, and any other non-zero digit before the last makes the
      value at least 10. */
  lemma {:induction false} SmallValue(s: string, lo: nat, hi: nat)
    requires IsDigits(s)
    requires 1 <= lo && hi < 10
    ensures lo <= ParseDigits(s) <= hi <==>
              (forall i :: 0 <= i < |s| - 1 ==> s[i] == '0')
              && lo <= DigitValue(s[|s| - 1]) <= hi
  {
    var front := s[..|s| - 1];
    assert forall i :: 0 <= i < |front| ==> front[i] == s[i];
    ParseZero(front);
  }
}
