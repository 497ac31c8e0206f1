/** Go's strconv.Itoa and strconv.Atoi, on 64-bit integers. */
module Decimal {
  import opened Prelude

  const MAX_INT: int := 0x7FFF_FFFF_FFFF_FFFF

  predicate IsDigit(c: char) {
    '0' <= c <= '9'
  }

  predicate AllDigits(s: string) {
    forall i :: 0 <= i < |s| ==> IsDigit(s[i])
  }

  /** The number a run of digits denotes. */
  function Value(s: string): (n: int)
    requires AllDigits(s)
    ensures n >= 0
  {
    if s == "" then 0
    else 10 * Value(s[..|s| - 1]) + (s[|s| - 1] as int - '0' as int)
  }

  function Digit(n: nat): (c: char)
    requires n < 10
    ensures IsDigit(c) && c as int - '0' as int == n
  {
    ('0' as int + n) as char
  }

  function Itoa(n: nat): (s: string)
    ensures s != "" && AllDigits(s)
  {
    if n < 10 then [Digit(n)] else Itoa(n / 10) + [Digit(n % 10)]
  }

  /** An optional sign, then digits, within the range of int. */
  function Atoi(s: string): Option<int> {
    var digits := if s != "" && (s[0] == '+' || s[0] == '-') then s[1..] else s;
    if digits == "" || !AllDigits(digits) then None
    else
      var n := if s[0] == '-' then -Value(digits) else Value(digits);
      if -MAX_INT - 1 <= n <= MAX_INT then Some(n) else None
  }

  /** The ten digits, and what each is worth at the end of a run. */
  lemma {:induction false} DigitMeaning(c: char, run: string)
    ensures IsDigit(c) <==> c in "0123456789"
    ensures forall k :: 0 <= k < 10 && c == "0123456789"[k] && AllDigits(run) ==>
              AllDigits(run + [c]) && Value(run + [c]) == 10 * Value(run) + k
  {
    var digits := "0123456789";
    if IsDigit(c) {
      assert digits[c as int - '0' as int] == c;
    }
    assert (run + [c])[..|run|] == run;
  }

  /** A number, signed or not, that an int can hold. */
  ghost predicate Denotes(s: string, negative: bool, digits: string, n: int) {
    && (if negative then s == "-" + digits else s == digits || s == "+" + digits)
    && digits != "" && AllDigits(digits) && n == (if negative then -Value(digits) else Value(digits))
    && -0x8000_0000_0000_0000 <= n <= 0x7FFF_FFFF_FFFF_FFFF
  }

  /** Atoi accepts exactly these, and gives their value. */
  lemma {:induction false} AtoiMeaning(s: string, n: int)
    ensures Atoi(s) == Some(n) <==> exists negative, digits :: Denotes(s, negative, digits, n)
  {
    var signed := s != "" && (s[0] == '+' || s[0] == '-');
    var rest := if signed then s[1..] else s;
    if Atoi(s) == Some(n) {
      assert signed ==> s == [s[0]] + rest;
      assert Denotes(s, s[0] == '-', rest, n);
    }
    if negative, digits :| Denotes(s, negative, digits, n) {
      assert IsDigit(digits[0]);
      assert s != digits ==> s[1..] == digits;
    }
  }

  lemma {:induction false} ValueOfItoa(n: nat)
    ensures Value(Itoa(n)) == n
  {
    var s := Itoa(n);
    if n < 10 {
      assert s[..|s| - 1] == "";
    } else {
      assert s[..|s| - 1] == Itoa(n / 10);
      ValueOfItoa(n / 10);
    }
  }

  /** What Itoa prints Atoi reads back. */
  lemma {:induction false} AtoiOfItoa(n: nat)
    requires n <= MAX_INT
    ensures Atoi(Itoa(n)) == Some(n)
  {
    ValueOfItoa(n);
    assert IsDigit(Itoa(n)[0]);
  }
}
