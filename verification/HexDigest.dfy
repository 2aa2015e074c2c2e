/** The hexadecimal header value printed from the hash. */
module HexDigest {
  import opened Options
  import Cyrb53

  function Pow(base: nat, k: nat): (p: nat)
    ensures base > 0 ==> p > 0
  {
    if k == 0 then 1 else base * Pow(base, k - 1)
  }

  const DIGITS: string := "0123456789abcdef"

  predicate IsHex(c: char) { '0' <= c <= '9' || 'a' <= c <= 'f' }

  function DigitOf(d: nat): (c: char)
    requires d < 16
    ensures IsHex(c) && ValueOf(c) == d && (c == '0' <==> d == 0)
  {
    DIGITS[d]
  }

  function ValueOf(c: char): (d: nat)
    requires IsHex(c)
  {
    if c <= '9' then c as int - '0' as int else c as int - 'a' as int + 10
  }

  type Byte = b: nat | b < 256

  /** `int.to_bytes(length, "big")`, without the range check. */
  function ToBytes(n: nat, length: nat): seq<Byte> {
    if length == 0 then [] else ToBytes(n / 256, length - 1) + [n % 256]
  }

  function ByteHex(b: Byte): string { [DigitOf(b / 16), DigitOf(b % 16)] }

  function Hexlify(bytes: seq<Byte>): string {
    if bytes == [] then [] else Hexlify(bytes[..|bytes| - 1]) + ByteHex(bytes[|bytes| - 1])
  }

  function StripZeros(s: string): string {
    if s != [] && s[0] == '0' then StripZeros(s[1..]) else s
  }

  /** `to_str16`; None is the OverflowError of `to_bytes`. */
  function ToStr16(number: int): Option<string> {
    if 0 <= number < Pow(256, 64) then Some(StripZeros(Hexlify(ToBytes(number, 64)))) else None
  }

  function ParseHex(s: string): (n: nat)
    requires forall i | 0 <= i < |s| :: IsHex(s[i])
  {
    if s == [] then 0 else 16 * ParseHex(s[..|s| - 1]) + ValueOf(s[|s| - 1])
  }

  /** JavaScript's `Number.prototype.toString(16)` for whole numbers. */
  function JsHex(n: nat): string {
    if n < 16 then [DigitOf(n)] else JsHex(n / 16) + [DigitOf(n % 16)]
  }

  function Digits(n: nat): string {
    if n == 0 then [] else Digits(n / 16) + [DigitOf(n % 16)]
  }

  /** Appending one digit to a number written without leading zeros. */
  function Append(s: string, c: char): string { if s == [] && c == '0' then [] else s + [c] }

  lemma {:induction false} StripAppend(s: string, c: char)
    ensures StripZeros(s + [c]) == Append(StripZeros(s), c)
  {
    if s != [] {
      assert (s + [c])[1..] == s[1..] + [c];
      StripAppend(s[1..], c);
    }
  }

  lemma {:induction false} DigitsAppend(n: nat)
    ensures Digits(n) == Append(Digits(n / 16), DigitOf(n % 16))
  {
    assert n / 16 > 0 ==> Digits(n / 16) != [];
  }

  lemma {:induction false} HexlifyByte(high: seq<Byte>, b: Byte)
    ensures Hexlify(high + [b]) == (Hexlify(high) + [DigitOf(b / 16)]) + [DigitOf(b % 16)]
  {
    hide DigitOf;
    assert (high + [b])[..|high|] == high;
  }

  lemma {:induction false} StripHexlify(n: nat, length: nat)
    requires n < Pow(256, length)
    ensures StripZeros(Hexlify(ToBytes(n, length))) == Digits(n)
    decreases length
  {
    hide StripZeros, Digits, Hexlify, Append;
    if length == 0 {
      StripHexlifyNone();
    } else {
      var high, b := ToBytes(n / 256, length - 1), n % 256;
      HexlifyByte(high, b);
      StripHexlify(n / 256, length - 1);
      StripAppend(Hexlify(high), DigitOf(b / 16));
      StripAppend(Hexlify(high) + [DigitOf(b / 16)], DigitOf(b % 16));
      assert n / 16 / 16 == n / 256 && (n / 16) % 16 == b / 16 && n % 16 == b % 16;
      DigitsAppend(n / 16);
      DigitsAppend(n);
    }
  }

  lemma {:induction false} StripHexlifyNone()
    ensures StripZeros(Hexlify([])) == Digits(0)
  {
  }

  lemma {:induction false} DigitsParse(n: nat)
    ensures forall i | 0 <= i < |Digits(n)| :: IsHex(Digits(n)[i])
    ensures ParseHex(Digits(n)) == n
    ensures Digits(n) == if n == 0 then [] else JsHex(n)
    ensures n > 0 ==> Digits(n) != [] && Digits(n)[0] != '0'
  {
    if n > 0 {
      DigitsParse(n / 16);
      assert Digits(n)[..|Digits(n)| - 1] == Digits(n / 16);
    }
  }

  lemma {:induction false} DigitsLength(n: nat, k: nat)
    ensures |Digits(n)| <= k <==> n < Pow(16, k)
    decreases k
  {
    if n > 0 && k > 0 { DigitsLength(n / 16, k - 1); }
  }

  /** The printer is defined exactly on [0, 2^512) and hexadecimal parsing inverts it; it never
      writes a leading zero, it agrees with JavaScript except that 0 prints as the empty string,
      and it needs at most k digits exactly below 16^k. */
  lemma {:induction false} ToStr16Inverted(number: int, k: nat)
    ensures ToStr16(number).Some? <==> 0 <= number < Pow(256, 64)
    ensures ToStr16(number).Some? ==>
              var s := ToStr16(number).value;
              && (forall i | 0 <= i < |s| :: IsHex(s[i]))
              && ParseHex(s) == number
              && (s == [] <==> number == 0)
              && (s != [] ==> s[0] != '0')
              && (s == JsHex(number) <==> number != 0)
              && (|s| <= k <==> number < Pow(16, k))
  {
    if 0 <= number < Pow(256, 64) {
      StripHexlify(number, 64);
      DigitsParse(number);
      DigitsLength(number, k);
    }
  }

  lemma {:induction false} PowGrows(base: nat, j: nat, k: nat)
    requires base > 0 && j <= k
    ensures Pow(base, j) <= Pow(base, k)
    decreases k
  {
    if j < k {
      PowGrows(base, j, k - 1);
      assert base * Pow(base, k - 1) >= Pow(base, k - 1);
    }
  }

  lemma {:induction false} HashFits()
    ensures Cyrb53.Pow2(53) <= Pow(16, 14) && Cyrb53.Pow2(53) <= Pow(256, 64)
  {
    assert Cyrb53.Pow2(13) == 8192;
    Cyrb53.PowAdds(13, 13);
    Cyrb53.PowAdds(26, 26);
    Cyrb53.PowAdds(52, 1);
    assert Pow(16, 7) == 268435456;
    assert Pow(16, 14) == 72057594037927936;
    assert Pow(256, 7) == 72057594037927936;
    PowGrows(256, 7, 64);
  }

  /** `get_fansly_client_check`: key, URL path and device id joined by underscores, hashed with
      seed 0 and printed. */
  method ClientCheck(checkKey: seq<int>, urlPath: seq<int>, deviceId: seq<int>) returns (header: string)
    requires Cyrb53.IsText(checkKey) && Cyrb53.IsText(urlPath) && Cyrb53.IsText(deviceId)
    ensures forall i | 0 <= i < |header| :: IsHex(header[i])
    ensures ParseHex(header) == Cyrb53.Reference(checkKey + [95] + urlPath + [95] + deviceId, 0)
    ensures |header| <= 14 && (header != [] ==> header[0] != '0')
  {
    hide Cyrb53.Reference, ToStr16, ParseHex, Pow, Cyrb53.Pow2;
    var identifier := checkKey + ['_' as int] + urlPath + ['_' as int] + deviceId;
    var digest := Cyrb53.Hash(identifier, 0);
    HashFits();
    ToStr16Inverted(digest, 14);
    header := ToStr16(digest).value;
  }
}
