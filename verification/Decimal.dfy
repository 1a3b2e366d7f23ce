/** Decimal integers as the library prints and reads them: `std::to_string` and `std::from_chars` for
    a 32-bit `int`. */
module Decimal {
  import opened MachineInts

  predicate IsDigit(c: char) { '0' <= c <= '9' }

  predicate FitsInt(n: int) { -0x8000_0000 <= n < 0x8000_0000 }

  function DigitOf(n: int): char
    requires 0 <= n < 10
  {
    ('0' as int + n) as char
  }

  /** The digits of a non-negative number, most significant first. */
  function PrintNat(n: nat): string {
    if n < 10 then [DigitOf(n)] else PrintNat(n / 10) + [DigitOf(n % 10)]
  }

  function Print(n: int): string {
    if n < 0 then ['-'] + PrintNat(-n) else PrintNat(n)
  }

  predicate AllDigits(s: string) { forall i :: 0 <= i < |s| ==> IsDigit(s[i]) }

  function ValueOf(digits: string): (n: nat)
    requires AllDigits(digits)
  {
    if digits == [] then 0
    else ValueOf(digits[..|digits| - 1]) * 10 + (digits[|digits| - 1] as int - '0' as int)
  }

  /** How many digits `s` begins with. */
  function DigitRun(s: string): (n: nat)
    ensures n <= |s| && AllDigits(s[..n])
    ensures n < |s| ==> !IsDigit(s[n])
  {
    if s == [] || !IsDigit(s[0]) then 0
    else
      var n := DigitRun(s[1..]);
      assert s[..n + 1] == [s[0]] + s[1..][..n];
      n + 1
  }

  /** `from_chars`: an optional minus sign and the longest run of digits after it. */
  datatype Read = Invalid | OutOfRange | Value(value: int, length: nat)

  function ReadInt(s: string): (r: Read)
    ensures r.Value? ==> FitsInt(r.value) && 0 < r.length <= |s|
  {
    var sign := if s != [] && s[0] == '-' then 1 else 0;
    var digits := s[sign..][..DigitRun(s[sign..])];
    if digits == [] then Invalid
    else
      var magnitude: int := ValueOf(digits);
      var n := if sign == 1 then -magnitude else magnitude;
      if FitsInt(n) then Value(n, sign + |digits|) else OutOfRange
  }

  lemma {:induction false} PrintedDigits(n: nat)
    ensures PrintNat(n) != [] && AllDigits(PrintNat(n)) && ValueOf(PrintNat(n)) == n
  {
    if n >= 10 {
      PrintedDigits(n / 10);
      var s := PrintNat(n);
      assert s[..|s| - 1] == PrintNat(n / 10);
    } else {
      assert PrintNat(n)[..0] == [];
    }
  }

  /** Printed numbers consist of digits, with a minus sign at most in front. */
  lemma PrintedAlphabet(n: int)
    ensures Print(n) != []
    ensures forall i :: 0 <= i < |Print(n)| ==> IsDigit(Print(n)[i]) || Print(n)[i] == '-'
  {
    PrintedDigits(if n < 0 then -n else n);
  }

  lemma {:induction false} DigitRunBefore(digits: string, rest: string)
    requires AllDigits(digits) && (rest != [] ==> !IsDigit(rest[0]))
    ensures DigitRun(digits + rest) == |digits|
  {
    if digits == [] {
      assert digits + rest == rest;
    } else {
      DigitRunBefore(digits[1..], rest);
      assert (digits + rest)[1..] == digits[1..] + rest;
    }
  }

  lemma {:induction false} ReadDigitsBefore(digits: string, rest: string)
    requires digits != [] && AllDigits(digits) && (rest != [] ==> !IsDigit(rest[0]))
    ensures ReadInt(digits + rest) == if FitsInt(ValueOf(digits)) then Value(ValueOf(digits), |digits|) else OutOfRange
  {
    var s := digits + rest;
    DigitRunBefore(digits, rest);
    assert s[0] == digits[0] != '-' && s[0..] == s && s[..|digits|] == digits;
  }

  lemma {:induction false} ReadMinusBefore(digits: string, rest: string)
    requires digits != [] && AllDigits(digits) && (rest != [] ==> !IsDigit(rest[0]))
    ensures ReadInt(['-'] + digits + rest) ==
            if FitsInt(0 - ValueOf(digits)) then Value(0 - ValueOf(digits), 1 + |digits|) else OutOfRange
  {
    var s := ['-'] + digits + rest;
    DigitRunBefore(digits, rest);
    assert s[0] == '-' && s[1..] == digits + rest && s[1..][..|digits|] == digits;
  }

  /** Printing is decimal: the last digit goes last, and a minus sign first. */
  lemma PrintIsDecimal(n: nat, d: nat)
    requires d < 10
    ensures Print(d) == ["0123456789"[d]]
    ensures n > 0 ==> Print(10 * n + d) == Print(n) + ["0123456789"[d]] && Print(0 - n) == "-" + Print(n)
  {
    assert n > 0 ==> (10 * n + d) / 10 == n && (10 * n + d) % 10 == d;
  }

  /** Digits, or a minus sign and digits. */
  predicate Numeral(s: string, n: int) {
    || (s != [] && AllDigits(s) && n == ValueOf(s))
    || (|s| > 1 && s[0] == '-' && AllDigits(s[1..]) && n == 0 - ValueOf(s[1..]))
  }

  /** The longest numeral in front is one of a 32-bit integer. */
  ghost predicate Begins(s: string, n: int) {
    && -0x8000_0000 <= n <= 0x7fff_ffff
    && exists k: nat :: NumeralUpTo(s, k, n)
  }

  ghost predicate NumeralUpTo(s: string, k: nat, n: int) {
    k <= |s| && Numeral(s[..k], n) && (k < |s| ==> !('0' <= s[k] <= '9'))
  }

  lemma PrintedIsNumeral(n: int)
    ensures Numeral(Print(n), n)
  {
    PrintedDigits(if n < 0 then -n else n);
    assert n < 0 ==> Print(n)[1..] == PrintNat(-n);
  }

  lemma NumeralIsRead(s: string, k: nat, n: int)
    requires NumeralUpTo(s, k, n)
    ensures ReadInt(s) == if -0x8000_0000 <= n <= 0x7fff_ffff then Value(n, k) else OutOfRange
  {
    var front, rest := s[..k], s[k..];
    assert s == front + rest;
    if AllDigits(front) {
      ReadDigitsBefore(front, rest);
    } else {
      assert front == ['-'] + front[1..];
      ReadMinusBefore(front[1..], rest);
    }
  }

  lemma ReadIsNumeral(s: string)
    ensures ReadInt(s).Value? ==> NumeralUpTo(s, ReadInt(s).length, ReadInt(s).value)
  {
    var sign := if s != [] && s[0] == '-' then 1 else 0;
    var digits := s[sign..][..DigitRun(s[sign..])];
    if digits != [] {
      var k := sign + |digits|;
      assert s[..k][sign..] == digits;
      assert sign == 0 ==> s[..k] == digits;
      assert k < |s| ==> s[k] == s[sign..][|digits|];
    }
  }

  /** READING AN INTEGER takes the longest numeral in front, and fails if that is none of 32 bits. */
  lemma ReadingBegins(s: string, n: int)
    ensures Begins(s, n) <==> ReadInt(s).Value? && ReadInt(s).value == n
  {
    ReadIsNumeral(s);
    if Begins(s, n) {
      var k: nat :| NumeralUpTo(s, k, n);
      NumeralIsRead(s, k, n);
    }
  }

  /** It uses up the whole of a text exactly if that is a numeral. */
  lemma ReadingWhole(s: string, n: int)
    ensures Numeral(s, n) && -0x8000_0000 <= n <= 0x7fff_ffff <==> ReadInt(s) == Value(n, |s|)
  {
    ReadIsNumeral(s);
    assert s[..|s|] == s;
    if Numeral(s, n) {
      NumeralIsRead(s, |s|, n);
    }
  }

  /** READING INVERTS PRINTING of 32-bit integers, using up every character. */
  lemma ReadPrinted(n: int)
    ensures ReadInt(Print(n)) == if -0x8000_0000 <= n <= 0x7fff_ffff then Value(n, |Print(n)|) else OutOfRange
  {
    PrintedIsNumeral(n);
    assert Print(n)[..|Print(n)|] == Print(n);
    NumeralIsRead(Print(n), |Print(n)|, n);
  }

  /** Reading stops where the printed digits do. */
  lemma ReadPrintedBefore(n: int, rest: string)
    requires FitsInt(n) && (rest != [] ==> !IsDigit(rest[0]))
    ensures ReadInt(Print(n) + rest) == Value(n, |Print(n)|)
  {
    PrintedIsNumeral(n);
    assert (Print(n) + rest)[..|Print(n)|] == Print(n);
    NumeralIsRead(Print(n) + rest, |Print(n)|, n);
  }
}
