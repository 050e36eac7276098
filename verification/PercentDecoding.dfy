/**
 Repeated percent-decoding: the pipe ParseEncodedUrl, over the standard functions encodeURIComponent and
 decodeURIComponent, which put the UTF-8 bytes (RFC 3629) of a character into triplets (section 2.1 of RFC 3986).
 */
module PercentDecoding {

  import opened Wrappers

  datatype URIError = URIError

  // ---------------------------------------------------------------- triplets

  /** Both cases of a hexadecimal digit are read. */
  function HexValue(c: char): Option<nat> {
    if '0' <= c <= '9' then Some(c as int - '0' as int)
    else if 'A' <= c <= 'F' then Some(c as int - 'A' as int + 10)
    else if 'a' <= c <= 'f' then Some(c as int - 'a' as int + 10)
    else None
  }

  type Byte = b: nat | b < 256 witness 0

  function HexDigit(d: nat): (c: char)
    requires d < 16
    ensures HexValue(c) == Some(d)
  {
    if d < 10 then (d + '0' as int) as char else (d - 10 + 'A' as int) as char
  }

  function Triplet(b: Byte): (t: string)
    ensures |t| == 3
  {
    ['%', HexDigit(b / 16), HexDigit(b % 16)]
  }

  /** The byte of the triplet at a position, if there is one. */
  function ByteAt(s: string, i: nat): Option<Byte> {
    if i + 3 > |s| || s[i] != '%' || HexValue(s[i + 1]).None? || HexValue(s[i + 2]).None? then None
    else ByteOf(HexValue(s[i + 1]).value, HexValue(s[i + 2]).value)
  }

  function ByteOf(high: nat, low: nat): Option<Byte> {
    if 16 * high + low < 256 then Some(16 * high + low) else None
  }

  // ---------------------------------------------------------------- UTF-8

  predicate Scalar(c: int) {
    0 <= c < 0xD800 || 0xE000 <= c < 0x110000
  }

  function Utf8(c: char): (bytes: seq<Byte>)
    ensures 1 <= |bytes| <= 4
  {
    var n := c as int;
    var q1, q2, q3 := n / 64, n / 64 / 64, n / 64 / 64 / 64;
    if n < 0x80 then [n]
    else if n < 0x800 then [0xC0 + q1, 0x80 + n % 64]
    else if n < 0x10000 then [0xE0 + q2, 0x80 + q1 % 64, 0x80 + n % 64]
    else [0xF0 + q3, 0x80 + q2 % 64, 0x80 + q1 % 64, 0x80 + n % 64]
  }

  /** The number of bytes that a first byte announces; 0 for a byte that cannot come first. */
  function Announced(b: Byte): nat {
    if b < 0x80 then 1
    else if b < 0xC0 then 0
    else if b < 0xE0 then 2
    else if b < 0xF0 then 3
    else if b < 0xF8 then 4
    else 0
  }

  predicate Continuation(b: Byte) {
    0x80 <= b < 0xC0
  }

  /** The number that the bytes stand for. */
  function Number(bytes: seq<Byte>): int
    requires 1 <= |bytes| <= 4
  {
    if |bytes| == 1 then bytes[0]
    else if |bytes| == 2 then Payload(bytes[0], 0xC0) * 64 + Payload(bytes[1], 0x80)
    else if |bytes| == 3 then (Payload(bytes[0], 0xE0) * 64 + Payload(bytes[1], 0x80)) * 64 + Payload(bytes[2], 0x80)
    else
      ((Payload(bytes[0], 0xF0) * 64 + Payload(bytes[1], 0x80)) * 64 + Payload(bytes[2], 0x80)) * 64 +
      Payload(bytes[3], 0x80)
  }

  function Payload(b: Byte, marker: nat): int {
    var value: int := b;
    value - marker
  }

  /** The smallest number that needs as many bytes. */
  function Least(length: nat): nat {
    if length <= 1 then 0 else if length == 2 then 0x80 else if length == 3 then 0x800 else 0x10000
  }

  predicate WellFormed(bytes: seq<Byte>) {
    && 1 <= |bytes| <= 4 && |bytes| == Announced(bytes[0])
    && (forall i | 1 <= i < |bytes| :: Continuation(bytes[i]))
    && Scalar(Number(bytes)) && Least(|bytes|) <= Number(bytes)
  }

  lemma Utf8WellFormed(c: char)
    ensures WellFormed(Utf8(c)) && Number(Utf8(c)) == c as int
  {
  }

  // ---------------------------------------------------------------- encodeURIComponent

  predicate Unescaped(c: char) {
    'A' <= c <= 'Z' || 'a' <= c <= 'z' || '0' <= c <= '9' || c in "-_.!~*'()"
  }

  function Triplets(bytes: seq<Byte>): (s: string)
    ensures |s| == 3 * |bytes|
  {
    if bytes == [] then [] else Triplet(bytes[0]) + Triplets(bytes[1..])
  }

  function EncodeChar(c: char): (s: string)
    ensures s != []
  {
    if Unescaped(c) then [c] else Triplets(Utf8(c))
  }

  function Encode(s: string): string {
    if s == [] then [] else EncodeChar(s[0]) + Encode(s[1..])
  }

  function EncodeTimes(s: string, k: nat): string {
    if k == 0 then s else Encode(EncodeTimes(s, k - 1))
  }

  // ---------------------------------------------------------------- decodeURIComponent

  /** The bytes of n consecutive triplets. */
  function BytesAt(s: string, i: nat, n: nat): (bytes: Option<seq<Byte>>)
    ensures bytes.Some? ==> |bytes.value| == n && (n > 0 ==> i + 3 * n <= |s|)
    decreases n
  {
    if n == 0 then Some([])
    else if ByteAt(s, i).None? then None
    else
      var rest := BytesAt(s, i + 3, n - 1);
      if rest.None? then None else Some([ByteAt(s, i).value] + rest.value)
  }

  /** The character escaped at the start, if the triplets there are well formed. */
  function EscapedChar(s: string): Option<char> {
    if ByteAt(s, 0).None? then None
    else
      var n := Announced(ByteAt(s, 0).value);
      var bytes := BytesAt(s, 0, n);
      if n == 0 || bytes.None? || !WellFormed(bytes.value) then None else Some(Number(bytes.value) as char)
  }

  function EscapedLength(s: string): nat
    requires EscapedChar(s).Some?
  {
    3 * Announced(ByteAt(s, 0).value)
  }

  function Decode(s: string): (decoded: Result<string, URIError>)
    ensures decoded.Success? ==> |decoded.value| <= |s|
    ensures decoded.Success? && '%' in s ==> |decoded.value| < |s|
    decreases |s|
  {
    if s == [] then Success([])
    else if s[0] != '%' then Prepend(s[0], Decode(s[1..]))
    else if EscapedChar(s).None? then Failure(URIError)
    else Prepend(EscapedChar(s).value, Decode(s[EscapedLength(s)..]))
  }

  function Prepend(c: char, rest: Result<string, URIError>): Result<string, URIError> {
    if rest.Success? then Success([c] + rest.value) else rest
  }

  // ---------------------------------------------------------------- decoding undoes encoding

  lemma ByteAtTriplet(b: Byte, rest: string)
    ensures ByteAt(Triplet(b) + rest, 0) == Some(b)
  {
    var s := Triplet(b) + rest;
    assert s[0] == '%' && s[1] == HexDigit(b / 16) && s[2] == HexDigit(b % 16);
  }

  lemma ByteAtShift(prefix: string, s: string, i: nat)
    ensures ByteAt(prefix + s, |prefix| + i) == ByteAt(s, i)
  {
  }

  lemma {:induction false} BytesAtShift(prefix: string, s: string, i: nat, n: nat)
    ensures BytesAt(prefix + s, |prefix| + i, n) == BytesAt(s, i, n)
    decreases n
  {
    if n > 0 {
      ByteAtShift(prefix, s, i);
      BytesAtShift(prefix, s, i + 3, n - 1);
    }
    hide ByteAt;
  }

  lemma {:induction false} BytesAtTriplets(bytes: seq<Byte>, rest: string)
    ensures BytesAt(Triplets(bytes) + rest, 0, |bytes|) == Some(bytes)
    decreases |bytes|
  {
    hide ByteAt, Triplet;
    if bytes != [] {
      var tail := Triplets(bytes[1..]) + rest;
      assert Triplets(bytes) + rest == Triplet(bytes[0]) + tail;
      ByteAtTriplet(bytes[0], tail);
      BytesAtTriplets(bytes[1..], rest);
      BytesAtShift(Triplet(bytes[0]), tail, 0, |bytes| - 1);
      assert [bytes[0]] + bytes[1..] == bytes;
    }
  }

  lemma EscapedCharOf(c: char, rest: string)
    ensures var s := Triplets(Utf8(c)) + rest;
            && s[0] == '%'
            && EscapedChar(s) == Some(c)
            && EscapedLength(s) == |Triplets(Utf8(c))|
  {
    var bytes := Utf8(c);
    Utf8WellFormed(c);
    BytesAtTriplets(bytes, rest);
    var tail := Triplets(bytes[1..]) + rest;
    assert Triplets(bytes) + rest == Triplet(bytes[0]) + tail;
    ByteAtTriplet(bytes[0], tail);
    hide ByteAt, Utf8, Number, BytesAt, Scalar;
  }

  lemma DecodeEncodedChar(c: char, rest: string)
    ensures Decode(EncodeChar(c) + rest) == Prepend(c, Decode(rest))
  {
    var s := EncodeChar(c) + rest;
    if Unescaped(c) {
      assert s[1..] == rest;
    } else {
      EscapedCharOf(c, rest);
      assert s[|EncodeChar(c)|..] == rest;
    }
    hide EscapedChar, Utf8, EscapedLength;
  }

  /** decodeURIComponent undoes encodeURIComponent, for every text. */
  lemma {:induction false} DecodeEncode(s: string)
    ensures Decode(Encode(s)) == Success(s)
    decreases |s|
  {
    hide EncodeChar;
    if s != [] {
      DecodeEncode(s[1..]);
      DecodeEncodedChar(s[0], Encode(s[1..]));
      assert [s[0]] + s[1..] == s;
    }
    hide Decode;
  }

  /** A text without a percent sign decodes to itself. */
  lemma {:induction false} DecodePlain(s: string)
    requires '%' !in s
    ensures Decode(s) == Success(s)
    decreases |s|
  {
    if s != [] {
      DecodePlain(s[1..]);
      assert [s[0]] + s[1..] == s;
    }
  }

  /** The fixed points of decoding are the texts without a percent sign. */
  lemma FixedPointIffPlain(s: string)
    ensures Decode(s) == Success(s) <==> '%' !in s
  {
    if '%' !in s {
      DecodePlain(s);
    }
  }

  // ---------------------------------------------------------------- the pipe

  const LIMIT := 10

  /** The most decodings of one transform: the count is only looked at after a decoding. */
  const MAX_DECODINGS := LIMIT + 2

  /** Decoding until nothing changes, or until the given number of decodings is done. */
  function DecodeUpTo(value: string, n: nat): Result<string, URIError>
    decreases n
  {
    if n == 0 then Success(value)
    else
      var decoded := Decode(value);
      if decoded.Failure? || decoded.value == value then decoded else DecodeUpTo(decoded.value, n - 1)
  }

  /** A missing or empty value is handed through. */
  function Transformed(value: Option<string>): Result<Option<string>, URIError> {
    if value.None? || value.value == "" then Success(value)
    else
      var decoded := DecodeUpTo(value.value, MAX_DECODINGS);
      if decoded.Success? then Success(Some(decoded.value)) else Failure(decoded.error)
  }

  class ParseEncodedUrl {

    constructor () {
    }

    method Transform(value: Option<string>) returns (transformed: Result<Option<string>, URIError>)
      ensures transformed == Transformed(value)
    {
      if value.None? || value.value == "" {
        return Success(value);
      }
      var current := value.value;
      var count := 0;
      var finalDecoded := current;
      while true
        invariant 0 <= count <= LIMIT + 1
        invariant DecodeUpTo(current, MAX_DECODINGS - count) == DecodeUpTo(value.value, MAX_DECODINGS)
        decreases LIMIT + 1 - count
      {
        var decoded := Decode(current);
        if decoded.Failure? {
          return Failure(decoded.error);
        }
        finalDecoded := decoded.value;
        if finalDecoded == current || count > LIMIT {
          break;
        }
        count := count + 1;
        current := finalDecoded;
      }
      transformed := Success(Some(finalDecoded));
    }
  }

  // ---------------------------------------------------------------- what the pipe restores

  lemma {:induction false} DecodeUpToShortens(value: string, n: nat)
    ensures DecodeUpTo(value, n).Success? ==> |DecodeUpTo(value, n).value| <= |value|
    decreases n
  {
    if n > 0 && Decode(value).Success? && Decode(value).value != value {
      DecodeUpToShortens(Decode(value).value, n - 1);
    }
    hide Decode;
  }

  function DecodeTimes(value: string, n: nat): Result<string, URIError>
    decreases n
  {
    if n == 0 then Success(value)
    else
      var decoded := Decode(value);
      if decoded.Failure? then decoded else DecodeTimes(decoded.value, n - 1)
  }

  /** A run that ends before the limit ends at a fixed point; one that does not has decoded as often as it may. */
  lemma {:induction false} EndsFixedOrAtLimit(value: string, n: nat)
    requires DecodeUpTo(value, n).Success?
    ensures var result := DecodeUpTo(value, n).value;
            || (Decode(result) == Success(result) && '%' !in result)
            || (DecodeTimes(value, n) == Success(result) && |result| + n <= |value|)
    decreases n
  {
    if n > 0 {
      var decoded := Decode(value).value;
      FixedPointIffPlain(value);
      if decoded == value {
        DecodePlain(value);
      } else {
        EndsFixedOrAtLimit(decoded, n - 1);
      }
    }
    hide Decode;
  }

  predicate NothingToEscape(s: string) {
    forall i | 0 <= i < |s| :: Unescaped(s[i])
  }

  lemma {:induction false} EncodeUnescaped(s: string)
    requires NothingToEscape(s)
    ensures Encode(s) == s
    decreases |s|
  {
    if s != [] {
      EncodeUnescaped(s[1..]);
      assert [s[0]] + s[1..] == s;
    }
  }

  lemma EncodeCharGrows(c: char)
    requires !Unescaped(c)
    ensures |EncodeChar(c)| >= 3 && EncodeChar(c)[0] == '%'
  {
    var bytes := Utf8(c);
    assert Triplets(bytes) == Triplet(bytes[0]) + Triplets(bytes[1..]);
    assert Triplet(bytes[0])[0] == '%';
  }

  lemma {:induction false} EncodeGrows(s: string)
    ensures |s| <= |Encode(s)|
    ensures !NothingToEscape(s) ==> |s| < |Encode(s)| && '%' in Encode(s)
    decreases |s|
  {
    hide EncodeChar, Unescaped;
    if s != [] {
      EncodeGrows(s[1..]);
      if !Unescaped(s[0]) {
        EncodeCharGrows(s[0]);
        assert Encode(s)[0] == '%';
      } else if !NothingToEscape(s) {
        assert !NothingToEscape(s[1..]);
      }
    }
  }

  /** A text with something to escape grows by every encoding, since the percent signs are escaped again. */
  lemma {:induction false} EncodeTimesGrows(s: string, k: nat)
    requires !NothingToEscape(s)
    ensures !NothingToEscape(EncodeTimes(s, k))
    ensures k > 0 ==> |EncodeTimes(s, k)| > |s|
  {
    if k > 0 {
      EncodeTimesGrows(s, k - 1);
      EncodeGrows(EncodeTimes(s, k - 1));
      assert !Unescaped('%');
    }
    hide Encode;
  }

  lemma {:induction false} EncodeTimesFixed(s: string, k: nat)
    requires NothingToEscape(s)
    ensures EncodeTimes(s, k) == s
  {
    if k > 0 {
      EncodeTimesFixed(s, k - 1);
      EncodeUnescaped(s);
    }
  }

  lemma DecodeUpToStep(before: string, n: nat)
    requires n > 0 && !NothingToEscape(before)
    ensures DecodeUpTo(Encode(before), n) == DecodeUpTo(before, n - 1)
  {
    DecodeEncode(before);
    EncodeGrows(before);
    hide Decode, Encode;
  }

  /** Each decoding takes one encoding off, as long as there are both. */
  lemma {:induction false} TakesOff(s: string, k: nat, n: nat)
    requires !NothingToEscape(s)
    ensures n <= k ==> DecodeUpTo(EncodeTimes(s, k), n) == Success(EncodeTimes(s, k - n))
    ensures n > k ==> DecodeUpTo(EncodeTimes(s, k), n) == DecodeUpTo(s, n - k)
    decreases k
  {
    if k > 0 && n > 0 {
      hide Encode, Decode, NothingToEscape, DecodeUpTo;
      EncodeTimesGrows(s, k - 1);
      DecodeUpToStep(EncodeTimes(s, k - 1), n);
      TakesOff(s, k - 1, n - 1);
    } else {
      hide Encode, Decode, NothingToEscape;
    }
  }

  lemma DecodeUpToItself(s: string, n: nat)
    requires n > 0
    ensures DecodeUpTo(s, n) == Success(s) <==> '%' !in s
  {
    FixedPointIffPlain(s);
    if '%' in s && Decode(s).Success? {
      DecodeUpToShortens(Decode(s).value, n - 1);
    }
    hide Decode;
  }

  lemma DecodesBackIff(s: string, k: nat)
    ensures DecodeUpTo(EncodeTimes(s, k), MAX_DECODINGS) == Success(s) <==>
            k == MAX_DECODINGS || ('%' !in s && (k < MAX_DECODINGS || Encode(s) == s))
  {
    hide Decode, Encode, DecodeUpTo, EncodeTimes;
    if NothingToEscape(s) {
      EncodeTimesFixed(s, k);
      EncodeUnescaped(s);
      assert !Unescaped('%');
      DecodeUpToItself(s, MAX_DECODINGS);
    } else {
      EncodeGrows(s);
      TakesOff(s, k, MAX_DECODINGS);
      if k < MAX_DECODINGS {
        DecodeUpToItself(s, MAX_DECODINGS - k);
      } else if k == MAX_DECODINGS {
        EncodeTimesZero(s);
      } else {
        EncodeTimesGrows(s, k - MAX_DECODINGS);
      }
    }
  }

  lemma EncodeTimesZero(s: string)
    ensures EncodeTimes(s, 0) == s
  {
  }

  /**
   What the pipe restores. A text without a percent sign comes back from up to twelve encodings, and from any number
   if there is nothing to escape in it; a text with one comes back only from exactly twelve.
   */
  lemma RestoresIff(s: string, k: nat)
    ensures Transformed(Some(EncodeTimes(s, k))) == Success(Some(s)) <==>
            k == MAX_DECODINGS || ('%' !in s && (k < MAX_DECODINGS || Encode(s) == s))
  {
    DecodesBackIff(s, k);
    if EncodeTimes(s, k) == "" {
      EmptyEncoding(s, k);
      DecodePlain("");
    }
    hide Decode, Encode;
  }

  lemma {:induction false} EmptyEncoding(s: string, k: nat)
    requires EncodeTimes(s, k) == ""
    ensures s == "" && Encode(s) == s
  {
    if k > 0 {
      EncodeGrows(EncodeTimes(s, k - 1));
      EmptyEncoding(s, k - 1);
    }
  }

  /** Letters, digits and the marks of section 2.3 of RFC 2396 stay as they are; every other character is escaped. */
  lemma EscapedIff(c: char)
    ensures EncodeChar(c) == [c] <==>
            || 'a' <= c <= 'z' || 'A' <= c <= 'Z' || '0' <= c <= '9'
            || c == '-' || c == '_' || c == '.' || c == '!' || c == '~' || c == '*' || c == '\'' || c == '(' || c == ')'
  {
    assert |Triplets(Utf8(c))| != 1;
    hide Utf8, Triplets;
  }

  // ---------------------------------------------------------------- what decoding accepts

  /** Hexadecimal digits are read in both cases, and nothing else is one. */
  lemma HexDigits(c: char, d: nat)
    ensures HexValue(c) == Some(d) <==>
            || ('0' <= c <= '9' && d == c as int - '0' as int)
            || ('a' <= c <= 'f' && d == 10 + (c as int - 'a' as int))
            || ('A' <= c <= 'F' && d == 10 + (c as int - 'A' as int))
  {
  }

  /** A triplet is a percent sign and two digits of the byte. */
  lemma ByteAtIff(s: string, i: nat, high: nat, low: nat)
    requires high < 16 && low < 16
    ensures ByteAt(s, i) == Some(16 * high + low) <==>
            && i + 3 <= |s| && s[i] == '%'
            && HexValue(s[i + 1]) == Some(high) && HexValue(s[i + 2]) == Some(low)
  {
    if i + 3 <= |s| {
      HexBelow(s[i + 1]);
      HexBelow(s[i + 2]);
    }
  }

  lemma HexBelow(c: char)
    ensures HexValue(c).Some? ==> HexValue(c).value < 16
  {
  }

  /** The bytes accepted are exactly the UTF-8 encoding of some character: no overlong form, surrogate or stray byte. */
  lemma WellFormedIff(bytes: seq<Byte>)
    ensures WellFormed(bytes) <==> exists c: char :: bytes == Utf8(c)
  {
    if WellFormed(bytes) {
      var c := Number(bytes) as char;
      Utf8OfNumber(bytes, c);
    }
    if c: char :| bytes == Utf8(c) {
      Utf8WellFormed(c);
    }
  }

  lemma Utf8OfNumber(bytes: seq<Byte>, c: char)
    requires WellFormed(bytes) && Number(bytes) == c as int
    ensures bytes == Utf8(c)
  {
    if |bytes| == 3 {
      ThreeBytes(bytes, c);
    } else if |bytes| == 4 {
      FourBytes(bytes, c);
    }
  }

  lemma ThreeBytes(bytes: seq<Byte>, c: char)
    requires WellFormed(bytes) && Number(bytes) == c as int && |bytes| == 3
    ensures bytes == Utf8(c)
  {
    var n := c as int;
    assert n / 64 == Payload(bytes[0], 0xE0) * 64 + Payload(bytes[1], 0x80);
  }

  lemma FourBytes(bytes: seq<Byte>, c: char)
    requires WellFormed(bytes) && Number(bytes) == c as int && |bytes| == 4
    ensures bytes == Utf8(c)
  {
    var n := c as int;
    assert n / 64 == (Payload(bytes[0], 0xF0) * 64 + Payload(bytes[1], 0x80)) * 64 + Payload(bytes[2], 0x80);
    assert n / 64 / 64 == Payload(bytes[0], 0xF0) * 64 + Payload(bytes[1], 0x80);
  }

  lemma DecodePlainFirst(c: char, rest: string)
    requires c != '%'
    ensures Decode([c] + rest) == Prepend(c, Decode(rest))
  {
    assert ([c] + rest)[1..] == rest;
    hide EscapedChar, EscapedLength;
  }

  /** A text whose first percent sign starts no well-formed escape is an error. */
  lemma {:induction false} MalformedFails(plain: string, s: string)
    requires '%' !in plain && s != "" && s[0] == '%' && EscapedChar(s).None?
    ensures Decode(plain + s).Failure?
    decreases |plain|
  {
    if plain == [] {
      assert plain + s == s;
    } else {
      hide Decode;
      assert plain + s == [plain[0]] + (plain[1..] + s);
      DecodePlainFirst(plain[0], plain[1..] + s);
      MalformedFails(plain[1..], s);
    }
    hide EscapedChar, EscapedLength;
  }

  /** So is a percent sign without two hexadecimal digits after it. */
  lemma BarePercentFails(plain: string, rest: string)
    requires '%' !in plain
    requires |rest| < 2 || HexValue(rest[0]).None? || HexValue(rest[1]).None?
    ensures Decode(plain + "%" + rest).Failure?
  {
    var s := "%" + rest;
    assert plain + "%" + rest == plain + s;
    MalformedFails(plain, s);
  }

  /** What is before the first percent sign stays as it is. */
  lemma {:induction false} PlainPrefixStays(plain: string, s: string)
    requires '%' !in plain && Decode(s).Success?
    ensures Decode(plain + s) == Success(plain + Decode(s).value)
    decreases |plain|
  {
    hide Decode, EscapedChar, EscapedLength;
    if plain == [] {
      assert plain + s == s && plain + Decode(s).value == Decode(s).value;
    } else {
      assert plain + s == [plain[0]] + (plain[1..] + s);
      DecodePlainFirst(plain[0], plain[1..] + s);
      PlainPrefixStays(plain[1..], s);
      assert [plain[0]] + (plain[1..] + Decode(s).value) == plain + Decode(s).value;
    }
  }
}
