/** Decimal and hexadecimal numerals, as package strconv prints and parses them. */
module Numerals {
  import opened Bytes

  datatype Parsed = Value(n: nat) | SyntaxError | RangeError

  const DIGITS := "0123456789ABCDEF"

  predicate ValidBase(base: nat) {
    base == 10 || base == 16
  }

  /** The numeral of n, most significant digit first, with capital letters above 9. */
  function Digits(n: nat, base: nat): (s: string)
    requires ValidBase(base)
    ensures s != ""
    ensures forall c :: c in s ==> '0' <= c <= '9' || 'A' <= c <= 'F'
  {
    if n < base then [DIGITS[n]] else Digits(n / base, base) + [DIGITS[n % base]]
  }

  /** The value of one digit; both letter cases are digits above 9. */
  function DigitValue(c: char): int {
    if '0' <= c <= '9' then c as int - '0' as int
    else if 'a' <= c <= 'z' then c as int - 'a' as int + 10
    else if 'A' <= c <= 'Z' then c as int - 'A' as int + 10
    else -1
  }

  /** strconv.ParseUint on a non-empty numeral: the first offending character, read from the left, decides the error. */
  function ParseFrom(s: string, base: nat, limit: nat): Parsed
    requires ValidBase(base)
  {
    if s == "" then Value(0)
    else
      var rest := ParseFrom(s[..|s| - 1], base, limit);
      var d := DigitValue(s[|s| - 1]);
      if !rest.Value? then rest
      else if d < 0 || d >= base then SyntaxError
      else if rest.n * base + d >= limit then RangeError
      else Value(rest.n * base + d)
  }

  function ParseUint(s: string, base: nat, limit: nat): Parsed
    requires ValidBase(base)
  {
    if s == "" then SyntaxError else ParseFrom(s, base, limit)
  }

  lemma DigitValueOfDigit(d: nat)
    requires d < 16
    ensures DigitValue(DIGITS[d]) == d
  {
    if d < 10 {
      assert DIGITS[d] == '0' + d as char;
    } else {
      assert DIGITS[d] == 'A' + (d - 10) as char;
    }
  }

  lemma {:induction false} ParseDigits(n: nat, base: nat, limit: nat)
    requires ValidBase(base) && n < limit
    ensures ParseUint(Digits(n, base), base, limit) == Value(n)
  {
    var s := Digits(n, base);
    assert s[|s| - 1] == DIGITS[n % base];
    DigitValueOfDigit(n % base);
    if n < base {
      assert s[..0] == "";
      assert ParseFrom(s[..0], base, limit) == Value(0);
    } else {
      ParseDigits(n / base, base, limit);
      assert s[..|s| - 1] == Digits(n / base, base);
      assert n / base * base + n % base == n;
    }
  }

  /** strconv.Itoa. */
  function Itoa(n: int): string {
    if n < 0 then "-" + Digits(-n, 10) else Digits(n, 10)
  }

  /** strconv.Atoi: the value it returns, which a caller may use although there was an error, and whether there
      was none. */
  function Atoi(s: string): (I64, bool) {
    var negative := s != "" && s[0] == '-';
    var body := if s != "" && (s[0] == '-' || s[0] == '+') then s[1..] else s;
    var magnitude := ParseUint(body, 10, 0x1_0000_0000_0000_0000);
    var least: I64, greatest: I64 := -0x8000_0000_0000_0000, 0x7fff_ffff_ffff_ffff;
    if magnitude.SyntaxError? then (0, false)
    else if magnitude.RangeError?
            || magnitude.n > (if negative then 0x8000_0000_0000_0000 else 0x7fff_ffff_ffff_ffff) then
      (if negative then least else greatest, false)
    else (var value: I64 := if negative then -(magnitude.n as int) else magnitude.n; value, true)
  }

  lemma NoSign(n: nat)
    ensures Digits(n, 10) != "" && Digits(n, 10)[0] != '-' && Digits(n, 10)[0] != '+'
  {
    assert Digits(n, 10)[0] in Digits(n, 10);
  }

  /** Reading back a printed integer gives the integer. */
  lemma AtoiOfItoa(n: I64)
    ensures Atoi(Itoa(n)) == (n, true)
  {
    hide Digits, ParseUint;
    var m: nat := if n < 0 then -(n as int) else n;
    NoSign(m);
    ParseDigits(m, 10, 0x1_0000_0000_0000_0000);
    var d := Digits(m, 10);
    if n < 0 {
      assert Itoa(n)[1..] == d;
    }
  }

  /** Different integers have different numerals. */
  lemma ItoaDiffers(a: I64, b: I64)
    requires Itoa(a) == Itoa(b)
    ensures a == b
  {
    AtoiOfItoa(a);
    AtoiOfItoa(b);
  }
}
