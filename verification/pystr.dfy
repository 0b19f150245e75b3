/** Python's `str()` applied to the team identifiers of the match records:
    decimal rendering of integers, identity on strings, `"None"` for a missing id. */
module PyStr {
  import opened Wrappers

  /** A team identifier as it arrives from the upstream JSON or the query string. */
  datatype Id = IntId(n: int) | StrId(s: string)

  predicate IsDigit(c: char) {
    '0' <= c <= '9'
  }

  predicate AllDigits(s: string) {
    forall i :: 0 <= i < |s| ==> IsDigit(s[i])
  }

  function DigitChar(d: nat): (c: char)
    requires d < 10
    ensures IsDigit(c)
  {
    "0123456789"[d]
  }

  function DigitValue(c: char): (d: nat)
    requires IsDigit(c)
    ensures d < 10
  {
    (c as int - '0' as int) as nat
  }

  /** Decimal digits of a natural number, most significant first, no leading zero. */
  function NatToStr(n: nat): (s: string)
    decreases n
  {
    if n < 10 then [DigitChar(n)] else NatToStr(n / 10) + [DigitChar(n % 10)]
  }

  /** `str(n)` for a Python `int`. */
  function IntToStr(n: int): string {
    if n < 0 then "-" + NatToStr(-n) else NatToStr(n)
  }

  /** `str(x)` for an identifier that may be missing (`str(None) == "None"`). */
  function Render(id: Option<Id>): string {
    match id
    case None => "None"
    case Some(IntId(n)) => IntToStr(n)
    case Some(StrId(s)) => s
  }

  /** Value of a string of decimal digits. */
  function DigitsValue(s: string): nat
    requires AllDigits(s)
  {
    if |s| == 0 then 0 else DigitsValue(s[..|s| - 1]) * 10 + DigitValue(s[|s| - 1])
  }

  /** Reads back an optionally signed decimal numeral: the reference against which
      the rendering is checked. */
  function ParseInt(s: string): Option<int> {
    if |s| > 0 && s[0] == '-' then
      if |s| > 1 && AllDigits(s[1..]) then Some(-(DigitsValue(s[1..]) as int)) else None
    else if |s| > 0 && AllDigits(s) then Some(DigitsValue(s))
    else None
  }

  lemma DigitRoundTrip(d: nat)
    requires d < 10
    ensures DigitValue(DigitChar(d)) == d
  {
  }

  /** Appending a digit to a numeral shifts its value one decimal place. */
  lemma AppendDigit(t: string, c: char)
    requires AllDigits(t) && IsDigit(c)
    ensures AllDigits(t + [c])
    ensures DigitsValue(t + [c]) == DigitsValue(t) * 10 + DigitValue(c)
  {
    var s := t + [c];
    assert s[..|s| - 1] == t;
  }

  lemma {:induction false} NatToStrDigits(n: nat)
    ensures |NatToStr(n)| > 0
    ensures AllDigits(NatToStr(n))
    ensures DigitsValue(NatToStr(n)) == n
    decreases n
  {
    DigitRoundTrip(n % 10);
    if n < 10 {
      assert NatToStr(n) == [] + [DigitChar(n)];
      AppendDigit([], DigitChar(n));
    } else {
      NatToStrDigits(n / 10);
      AppendDigit(NatToStr(n / 10), DigitChar(n % 10));
    }
  }

  /** Rendering then reading back an integer gives the integer: `int(str(n)) == n`. */
  lemma ParseIntRoundTrip(n: int)
    ensures ParseInt(IntToStr(n)) == Some(n)
  {
    if n < 0 {
      var t := NatToStr(-n);
      NatToStrDigits(-n);
      var s := "-" + t;
      assert s[0] == '-' && s[1..] == t;
      assert ParseInt(s) == Some(-(DigitsValue(t) as int));
    } else {
      var t := NatToStr(n);
      NatToStrDigits(n);
      assert IsDigit(t[0]);
      assert ParseInt(t) == Some(DigitsValue(t) as int);
    }
  }

  /** Distinct integers render differently, so comparing rendered integer ids
      agrees with comparing the integers. */
  lemma IntToStrInjective(a: int, b: int)
    ensures IntToStr(a) == IntToStr(b) <==> a == b
  {
    if IntToStr(a) == IntToStr(b) {
      ParseIntRoundTrip(a);
      ParseIntRoundTrip(b);
    }
  }

  /** Two rendered identifiers agree exactly when they are equal integers, equal
      strings, or an integer and the string holding its decimal rendering. */
  lemma RenderAgreement(x: Id, y: Id)
    ensures Render(Some(x)) == Render(Some(y)) <==>
      match (x, y)
      case (IntId(a), IntId(b)) => a == b
      case (StrId(a), StrId(b)) => a == b
      case (IntId(a), StrId(b)) => b == IntToStr(a)
      case (StrId(a), IntId(b)) => a == IntToStr(b)
  {
    if x.IntId? && y.IntId? {
      IntToStrInjective(x.n, y.n);
    }
  }

  /** A missing id renders as "None", which no integer rendering equals. */
  lemma NoIntRendersAsNone(n: int)
    ensures IntToStr(n) != Render(None)
  {
    if n < 0 {
      assert IntToStr(n)[0] == '-';
    } else {
      NatToStrDigits(n);
      assert IsDigit(IntToStr(n)[0]);
    }
  }
}
