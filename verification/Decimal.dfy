/** Base-10 text of integers: what %d and strconv.FormatInt write, what strconv.ParseInt
    reads back into an int64. */
module Decimal {
  import opened Prelude

  const MAX_INT64: int := 0x7FFF_FFFF_FFFF_FFFF

  predicate Int64(n: int) {
    -MAX_INT64 - 1 <= n <= MAX_INT64
  }

  predicate IsDigit(c: char) {
    '0' <= c <= '9'
  }

  predicate AllDigits(s: string) {
    forall i :: 0 <= i < |s| ==> IsDigit(s[i])
  }

  function Digits(n: nat): (s: string)
    ensures s != "" && AllDigits(s)
  {
    var last := ['0' + (n % 10) as char];
    if n < 10 then last else Digits(n / 10) + last
  }

  function FormatInt(n: int): string {
    if n < 0 then "-" + Digits(-n) else Digits(n)
  }

  function Value(s: string): nat
    requires AllDigits(s)
  {
    if s == "" then 0 else 10 * Value(s[..|s| - 1]) + (s[|s| - 1] - '0') as int
  }

  /** An optional sign, at least one digit and nothing else, within the range of int64. */
  function ParseInt(s: string): (r: Option<int>)
    ensures r.Some? ==> Int64(r.value)
  {
    var signed := s != "" && (s[0] == '-' || s[0] == '+');
    var digits := if signed then s[1..] else s;
    if digits == "" || !AllDigits(digits) then None else
      var n: int := if signed && s[0] == '-' then 0 - Value(digits) else Value(digits);
      if Int64(n) then Some(n) else None
  }

  lemma {:induction false} ValueOfDigits(n: nat)
    ensures Value(Digits(n)) == n
  {
    var s := Digits(n);
    if n >= 10 {
      ValueOfDigits(n / 10);
      assert s[..|s| - 1] == Digits(n / 10);
    }
  }

  /** Base ten: one digit more is ten times as much and that digit; a minus sign negates. */
  lemma FormatIntTens(n: nat, d: nat)
    requires d < 10
    ensures FormatInt(d) == ["0123456789"[d]]
    ensures n > 0 ==> FormatInt(10 * n + d) == FormatInt(n) + ["0123456789"[d]] && FormatInt(0 - n) == "-" + FormatInt(n)
  {
    assert (10 * n + d) / 10 == n && (10 * n + d) % 10 == d;
  }

  /** Every int64 reads back as itself. */
  lemma RoundTrip(n: int)
    requires Int64(n)
    ensures ParseInt(FormatInt(n)) == Some(n)
  {
    ValueOfDigits(if n < 0 then -n else n);
    if n < 0 {
      assert FormatInt(n)[1..] == Digits(-n);
    }
  }

  /** Besides what FormatInt writes, a plus sign and zeros in front are read over, a minus
      sign negates, and nothing but a sign and digits is a number. */
  lemma ParseIntReads(s: string)
    ensures ParseInt(s).Some? ==>
      var digits := if s != "" && s[0] in "+-" then s[1..] else s;
      digits != "" && forall i :: 0 <= i < |digits| ==> '0' <= digits[i] <= '9'
    ensures s != "" && AllDigits(s) ==> ParseInt("+" + s) == ParseInt(s) == ParseInt("0" + s)
    ensures AllDigits(s) && ParseInt(s).Some? ==> ParseInt("-" + s) == Some(0 - ParseInt(s).value)
  {
    hide Value;
    if s != "" && AllDigits(s) {
      ReadOver(s);
      assert ("-" + s)[1..] == s;
    }
  }

  lemma ReadOver(s: string)
    requires s != "" && AllDigits(s)
    ensures ParseInt("+" + s) == ParseInt(s) == ParseInt("0" + s)
  {
    ZeroInFront(s);
    hide Value;
    assert ("+" + s)[1..] == s;
    assert IsDigit(s[0]);
  }

  lemma {:induction false} ZeroInFront(s: string)
    requires AllDigits(s)
    ensures AllDigits("0" + s) && Value("0" + s) == Value(s)
  {
    var t := "0" + s;
    if s != "" {
      ZeroInFront(s[..|s| - 1]);
      assert t[..|t| - 1] == "0" + s[..|s| - 1];
    }
  }

  lemma FormatIntInjective(a: int, b: int)
    requires FormatInt(a) == FormatInt(b)
    ensures a == b
  {
    Magnitude(a);
    Magnitude(b);
  }

  /** The sign and the magnitude can be read off the text. */
  lemma Magnitude(n: int)
    ensures n < 0 <==> FormatInt(n)[0] == '-'
    ensures n < 0 ==> AllDigits(FormatInt(n)[1..]) && Value(FormatInt(n)[1..]) == -n
    ensures n >= 0 ==> AllDigits(FormatInt(n)) && Value(FormatInt(n)) == n
  {
    ValueOfDigits(if n < 0 then -n else n);
    if n < 0 {
      assert FormatInt(n)[1..] == Digits(-n);
    }
  }

  /** Never empty, and made of digits and a sign only. */
  lemma FormatIntChars(n: int)
    ensures FormatInt(n) != ""
    ensures forall c :: c in FormatInt(n) ==> c == '-' || IsDigit(c)
  {
    var digits := Digits(if n < 0 then -n else n);
    assert forall c :: c in digits ==> IsDigit(c);
  }
}
