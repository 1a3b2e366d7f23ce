/** Percent-encoding of query values (sections 2.1 and 2.3 of RFC 3986) and its inverse. */
module UrlEncoding {
  import opened MachineInts
  import opened Text

  predicate Unreserved(c: char) {
    'a' <= c <= 'z' || 'A' <= c <= 'Z' || '0' <= c <= '9' || c == '-' || c == '.' || c == '_' || c == '~'
  }

  /** The digits 0-9 and A-F. */
  function HexDigit(n: int): char
    requires 0 <= n < 16
  {
    if n < 10 then ('0' as int + n) as char else ('A' as int + n - 10) as char
  }

  predicate IsHexDigit(c: char) { '0' <= c <= '9' || 'A' <= c <= 'F' }

  function HexValue(c: char): int {
    if '0' <= c <= '9' then c as int - '0' as int
    else if 'A' <= c <= 'F' then c as int - 'A' as int + 10
    else if 'a' <= c <= 'f' then c as int - 'a' as int + 10
    else -1
  }

  function EncodeByte(c: char): string
    requires c as int < 256
  {
    if Unreserved(c) then [c] else ['%', HexDigit(c as int / 16), HexDigit(c as int % 16)]
  }

  function Encode(s: string): string
    requires IsBytes(s)
  {
    if s == [] then [] else EncodeByte(s[0]) + Encode(s[1..])
  }

  /** What a server does with an encoded value; `None` if it is malformed. */
  function Decode(t: string): Option<string> {
    if t == [] then Some([])
    else if t[0] == '%' then
      if |t| < 3 || HexValue(t[1]) < 0 || HexValue(t[2]) < 0 then None
      else
        var rest := Decode(t[3..]);
        if rest.None? then None
        else Some([(HexValue(t[1]) * 16 + HexValue(t[2])) as char] + rest.value)
    else
      var rest := Decode(t[1..]);
      if rest.None? then None else Some([t[0]] + rest.value)
  }

  method EncodeQueryValue(value: string) returns (encoded: string)
    requires IsBytes(value)
    ensures encoded == Encode(value)
  {
    encoded := [];
    for i := 0 to |value|
      invariant encoded == Encode(value[..i])
    {
      var c := value[i];
      EncodeSnoc(value[..i], c);
      assert value[..i] + [c] == value[..i + 1];
      if Unreserved(c) {
        encoded := encoded + [c];
      } else {
        encoded := encoded + ['%'];
        encoded := encoded + [HexDigit(c as int / 16)];
        encoded := encoded + [HexDigit(c as int % 16)];
      }
    }
    assert value[..|value|] == value;
  }

  lemma {:induction false} EncodeSnoc(s: string, c: char)
    requires IsBytes(s) && c as int < 256
    ensures IsBytes(s + [c]) && Encode(s + [c]) == Encode(s) + EncodeByte(c)
  {
    if s == [] {
      assert Encode([c]) == EncodeByte(c) + Encode([c][1..]) == EncodeByte(c);
    } else {
      EncodeSnoc(s[1..], c);
      assert (s + [c])[1..] == s[1..] + [c];
    }
  }

  lemma HexRoundTrip(n: int)
    requires 0 <= n < 16
    ensures HexValue(HexDigit(n)) == n && IsHexDigit(HexDigit(n))
  {
  }

  lemma DecodeFirst(c: char, rest: string)
    requires c as int < 256 && Decode(rest).Some?
    ensures Decode(EncodeByte(c) + rest) == Some([c] + Decode(rest).value)
  {
    var t := EncodeByte(c) + rest;
    if Unreserved(c) {
      assert t[1..] == rest;
    } else {
      HexRoundTrip(c as int / 16);
      HexRoundTrip(c as int % 16);
      assert t[3..] == rest;
    }
  }

  /** DECODING INVERTS ENCODING. */
  lemma {:induction false} DecodeEncode(s: string)
    requires IsBytes(s)
    ensures Decode(Encode(s)) == Some(s)
  {
    if s != [] {
      DecodeEncode(s[1..]);
      DecodeFirst(s[0], Encode(s[1..]));
      assert [s[0]] + s[1..] == s;
    }
  }

  /** Unreserved characters, and percent signs each followed by two upper-case hexadecimal digits. */
  predicate WellEncoded(t: string) {
    || t == []
    || (Unreserved(t[0]) && WellEncoded(t[1..]))
    || (t[0] == '%' && |t| >= 3 && IsHexDigit(t[1]) && IsHexDigit(t[2]) && WellEncoded(t[3..]))
  }

  lemma {:induction false} EncodedIsWellEncoded(s: string)
    requires IsBytes(s)
    ensures WellEncoded(Encode(s))
  {
    if s != [] {
      EncodedIsWellEncoded(s[1..]);
      var c, t := s[0], Encode(s);
      if Unreserved(c) {
        assert t[1..] == Encode(s[1..]);
      } else {
        HexRoundTrip(c as int / 16);
        HexRoundTrip(c as int % 16);
        assert t[3..] == Encode(s[1..]);
      }
    }
  }

  lemma {:induction false} WellEncodedLacks(t: string, c: char)
    requires WellEncoded(t) && !Unreserved(c) && c != '%'
    ensures Lacks(t, c)
  {
    if t != [] {
      if t[0] == '%' {
        WellEncodedLacks(t[3..], c);
        assert forall i :: 3 <= i < |t| ==> t[i] == t[3..][i - 3];
      } else {
        WellEncodedLacks(t[1..], c);
        assert forall i :: 1 <= i < |t| ==> t[i] == t[1..][i - 1];
      }
    }
  }

  /** Letters, digits and the four marks of section 2.3 of RFC 3986 stand for themselves. Every other byte
      becomes a percent sign and its two hexadecimal digits in upper case, wherever it stands. */
  lemma ByteByByte(before: string, c: char, after: string)
    requires IsBytes(before) && c as int < 256 && IsBytes(after)
    ensures var alone := if 'a' <= c <= 'z' || 'A' <= c <= 'Z' || '0' <= c <= '9' || c in "-._~" then [c]
                         else ['%', "0123456789ABCDEF"[c as int / 16], "0123456789ABCDEF"[c as int % 16]];
            Encode(before + [c] + after) == Encode(before) + alone + Encode(after)
  {
    Digits(c as int / 16);
    Digits(c as int % 16);
    EncodeSnoc(before, c);
    EncodeConcat(before + [c], after);
  }

  lemma Digits(n: int)
    requires 0 <= n < 16
    ensures HexDigit(n) == "0123456789ABCDEF"[n]
  {
  }

  lemma {:induction false} EncodeConcat(a: string, b: string)
    requires IsBytes(a) && IsBytes(b)
    ensures Encode(a + b) == Encode(a) + Encode(b)
  {
    if a == [] {
      assert a + b == b;
    } else {
      EncodeConcat(a[1..], b);
      assert (a + b)[1..] == a[1..] + b;
    }
  }

  /** No delimiter of a query, and nothing else outside the unreserved set, appears in an encoded value. */
  lemma EncodedLacks(s: string, c: char)
    requires IsBytes(s)
    requires !('a' <= c <= 'z' || 'A' <= c <= 'Z' || '0' <= c <= '9') && c !in "-._~%"
    ensures Lacks(Encode(s), c)
  {
    EncodedIsWellEncoded(s);
    WellEncodedLacks(Encode(s), c);
  }

  /** Values are left alone exactly when they need no encoding. */
  lemma {:induction false} EncodeIsIdentity(s: string)
    requires IsBytes(s)
    ensures |Encode(s)| >= |s|
    ensures Encode(s) == s <==>
            forall i :: 0 <= i < |s| ==>
              'a' <= s[i] <= 'z' || 'A' <= s[i] <= 'Z' || '0' <= s[i] <= '9' || s[i] in "-._~"
  {
    if s != [] {
      EncodeIsIdentity(s[1..]);
      assert s == [s[0]] + s[1..];
      if Unreserved(s[0]) {
        assert Encode(s)[1..] == Encode(s[1..]);
        assert forall i :: 0 <= i < |s[1..]| ==> s[1..][i] == s[i + 1];
      } else {
        assert s[0] !in "-._~";
      }
    }
  }
}
