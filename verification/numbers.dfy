/** Python 2's `int(str)` for base ten: surrounding whitespace, an optional sign,
    then one or more ASCII digits; anything else is a ValueError. */
module Numbers {
  import opened Wrappers
  import opened Faults

  /** Whitespace as Python 2 strips it: space, tab, line feed, vertical tab, form feed, carriage return. */
  predicate IsSpace(c: char) {
    c == ' ' || (9 <= c as int <= 13)
  }

  predicate IsDigit(c: char) {
    '0' <= c <= '9'
  }

  predicate AllDigits(s: string) {
    forall i :: 0 <= i < |s| ==> IsDigit(s[i])
  }

  function StripLeft(s: string): (t: string)
    ensures |t| <= |s| && t == s[|s| - |t|..]
    ensures |t| > 0 ==> !IsSpace(t[0])
    ensures (forall i :: 0 <= i < |s| ==> !IsSpace(s[i])) ==> t == s
  {
    if |s| > 0 && IsSpace(s[0]) then StripLeft(s[1..]) else s
  }

  function StripRight(s: string): (t: string)
    ensures |t| <= |s| && t == s[..|t|]
    ensures |t| > 0 ==> !IsSpace(t[|t| - 1])
    ensures (forall i :: 0 <= i < |s| ==> !IsSpace(s[i])) ==> t == s
  {
    if |s| > 0 && IsSpace(s[|s| - 1]) then StripRight(s[..|s| - 1]) else s
  }

  function Strip(s: string): string {
    StripRight(StripLeft(s))
  }

  /** Value of a run of decimal digits, most significant first. */
  function DigitsValue(s: string): nat
    requires AllDigits(s)
  {
    if |s| == 0 then 0 else DigitsValue(s[..|s| - 1]) * 10 + (s[|s| - 1] as int - '0' as int)
  }

  /** The integer an already stripped literal spells: an optional sign, then
      one or more digits. */
  function ReadLiteral(t: string): (r: Option<int>)
    ensures r.Some? ==> |t| > 0
  {
    var digits := if |t| > 0 && (t[0] == '-' || t[0] == '+') then t[1..] else t;
    if |digits| == 0 || !AllDigits(digits) then None
    else if t[0] == '-' then Some(-(DigitsValue(digits) as int))
    else Some(DigitsValue(digits))
  }

  /** The integer an `int()` call yields, or the ValueError it raises. */
  function ParseInt(s: string): (r: Result<int, Fault>)
    ensures r.Failure? ==> r.error == ValueError(s)
    ensures r.Success? ==> |Strip(s)| > 0
  {
    match ReadLiteral(Strip(s))
    case None => Failure(ValueError(s))
    case Some(n) => Success(n)
  }

  /** Decimal spelling of a natural number, without leading zeros. */
  function ShowNat(n: nat): (s: string)
    ensures |s| > 0 && AllDigits(s)
  {
    if n < 10 then [('0' as int + n) as char]
    else ShowNat(n / 10) + [('0' as int + n % 10) as char]
  }

  /** Decimal spelling of an integer, as Python's `str(n)`. */
  function ShowInt(n: int): string {
    if n < 0 then "-" + ShowNat(-n) else ShowNat(n)
  }

  lemma {:induction false} DigitsOfShowNat(n: nat)
    ensures DigitsValue(ShowNat(n)) == n
  {
    var s := ShowNat(n);
    if n >= 10 {
      DigitsOfShowNat(n / 10);
      assert s[..|s| - 1] == ShowNat(n / 10);
    }
  }

  /** A string without whitespace is its own strip. */
  lemma StripUnspaced(s: string)
    requires forall i :: 0 <= i < |s| ==> !IsSpace(s[i])
    ensures Strip(s) == s
  {
  }

  lemma UnspacedShowInt(n: int)
    ensures forall i :: 0 <= i < |ShowInt(n)| ==> !IsSpace(ShowInt(n)[i])
  {
  }

  /** The decimal spelling of an integer reads back as that integer. */
  lemma ReadShowInt(n: int)
    ensures ReadLiteral(ShowInt(n)) == Some(n)
  {
    var s := ShowInt(n);
    if n < 0 {
      assert s[0] == '-' && s[1..] == ShowNat(-n);
      DigitsOfShowNat(-n);
    } else {
      assert IsDigit(s[0]);
      DigitsOfShowNat(n);
    }
  }

  /** Printing an integer and reading it back with `int()` gives the same integer. */
  lemma ParseShowInt(n: int)
    ensures ParseInt(ShowInt(n)) == Success(n)
  {
    UnspacedShowInt(n);
    StripUnspaced(ShowInt(n));
    ReadShowInt(n);
  }

  /** Surrounding whitespace does not change what `int()` reads. */
  lemma ParsePadded(n: int, left: string, right: string)
    requires forall i :: 0 <= i < |left| ==> IsSpace(left[i])
    requires forall i :: 0 <= i < |right| ==> IsSpace(right[i])
    ensures ParseInt(left + ShowInt(n) + right) == Success(n)
  {
    var s := ShowInt(n);
    UnspacedShowInt(n);
    assert left + s + right == left + (s + right);
    StripLeftPadding(left, s + right);
    StripRightPadding(s, right);
    ReadShowInt(n);
  }

  lemma {:induction false} StripLeftPadding(pad: string, t: string)
    requires forall i :: 0 <= i < |pad| ==> IsSpace(pad[i])
    requires |t| > 0 && !IsSpace(t[0])
    ensures StripLeft(pad + t) == t
    decreases |pad|
  {
    if |pad| > 0 {
      assert (pad + t)[1..] == pad[1..] + t;
      StripLeftPadding(pad[1..], t);
    } else {
      assert pad + t == t;
    }
  }

  lemma {:induction false} StripRightPadding(t: string, pad: string)
    requires forall i :: 0 <= i < |pad| ==> IsSpace(pad[i])
    requires |t| > 0 && !IsSpace(t[|t| - 1])
    ensures StripRight(t + pad) == t
    decreases |pad|
  {
    if |pad| > 0 {
      assert (t + pad)[..|t + pad| - 1] == t + pad[..|pad| - 1];
      StripRightPadding(t, pad[..|pad| - 1]);
    } else {
      assert t + pad == t;
    }
  }
}
