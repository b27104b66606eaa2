/** The pagination cursor as it travels in a URL: unpadded base64url text (section 5 of RFC 4648). */
module Codec {
  import opened Domain
  import opened Paging

  type Byte = b: int | 0 <= b < 256
  type Digit = d: int | 0 <= d < 64

  /** A-Z, a-z, 0-9, - and _ */
  function CharOf(d: Digit): char {
    if d < 26 then ('A' as int + d) as char
    else if d < 52 then ('a' as int + d - 26) as char
    else if d < 62 then ('0' as int + d - 52) as char
    else if d == 62 then '-'
    else '_'
  }

  /** The standard characters for 62 and 63 stay accepted beside the URL-safe ones. */
  function DigitOf(c: char): Option<Digit> {
    if 'A' <= c <= 'Z' then Some(c as int - 'A' as int)
    else if 'a' <= c <= 'z' then Some(c as int - 'a' as int + 26)
    else if '0' <= c <= '9' then Some(c as int - '0' as int + 52)
    else if c == '-' || c == '+' then Some(62)
    else if c == '_' || c == '/' then Some(63)
    else None
  }

  function Value(c: char): Digit { if DigitOf(c).Some? then DigitOf(c).value else 0 }

  function Chars(digits: seq<Digit>): string { seq(|digits|, i requires 0 <= i < |digits| => CharOf(digits[i])) }

  function Values(text: string): seq<Digit> { seq(|text|, i requires 0 <= i < |text| => Value(text[i])) }

  // Three bytes x, y, z are the same 24 bits as four digits a, b, c, d.

  function DigitA(x: Byte): Digit { x / 4 }
  function DigitB(x: Byte, y: Byte): Digit { x % 4 * 16 + y / 16 }
  function DigitC(y: Byte, z: Byte): Digit { y % 16 * 4 + z / 64 }
  function DigitD(z: Byte): Digit { z % 64 }

  function ByteX(a: Digit, b: Digit): Byte { a * 4 + b / 16 }
  function ByteY(b: Digit, c: Digit): Byte { b % 16 * 16 + c / 4 }
  function ByteZ(c: Digit, d: Digit): Byte { c % 4 * 64 + d }

  /** Up to three bytes, as six-bit digits. */
  function Split(chunk: seq<Byte>): (digits: seq<Digit>)
    requires |chunk| <= 3
    ensures |digits| == if chunk == [] then 0 else |chunk| + 1
  {
    if |chunk| == 0 then []
    else if |chunk| == 1 then [DigitA(chunk[0]), DigitB(chunk[0], 0)]
    else if |chunk| == 2 then [DigitA(chunk[0]), DigitB(chunk[0], chunk[1]), DigitC(chunk[1], 0)]
    else [DigitA(chunk[0]), DigitB(chunk[0], chunk[1]), DigitC(chunk[1], chunk[2]), DigitD(chunk[2])]
  }

  /** Up to four digits, as bytes; the bits after the last whole byte are dropped. */
  function Joined(digits: seq<Digit>): (chunk: seq<Byte>)
    requires |digits| <= 4
    ensures |chunk| == if digits == [] then 0 else |digits| - 1
  {
    if |digits| < 2 then []
    else if |digits| == 2 then [ByteX(digits[0], digits[1])]
    else if |digits| == 3 then [ByteX(digits[0], digits[1]), ByteY(digits[1], digits[2])]
    else [ByteX(digits[0], digits[1]), ByteY(digits[1], digits[2]), ByteZ(digits[2], digits[3])]
  }

  function Pads(count: nat): string { seq(count, _ => '=') }

  /** base64.urlsafe_b64encode: the last chunk is filled up to four characters. */
  function Padded(bytes: seq<Byte>): string {
    if |bytes| > 3 then Chars(Split(bytes[..3])) + Padded(bytes[3..])
    else if bytes == [] then ""
    else Chars(Split(bytes)) + Pads(3 - |bytes|)
  }

  /** rstrip("=") */
  function Stripped(s: string): (r: string)
    ensures |r| <= |s|
  {
    if s != "" && s[|s| - 1] == '=' then Stripped(s[..|s| - 1]) else s
  }

  /** Python's -length % 4 */
  function MissingPads(length: nat): nat { (4 - length % 4) % 4 }

  function Encode(bytes: seq<Byte>): string { Stripped(Padded(bytes)) }

  predicate AllDigits(s: string) { forall c <- s :: DigitOf(c).Some? }

  /** What binascii's strict mode accepts of a padded text: digits, then at most two pads. */
  predicate WellFormed(s: string) {
    |Stripped(s)| + 2 >= |s| && AllDigits(Stripped(s))
  }

  function Bytes(digits: seq<Digit>): seq<Byte> {
    if |digits| > 4 then Joined(digits[..4]) + Bytes(digits[4..]) else Joined(digits)
  }

  function Decode(value: string): Option<seq<Byte>> {
    var text := value + Pads(MissingPads(|value|));
    if WellFormed(text) then Some(Bytes(Values(Stripped(text)))) else None
  }

  // ---- stripping and restoring the padding ----

  lemma {:induction false} StrippedPads(digits: string, count: nat)
    requires digits != "" ==> digits[|digits| - 1] != '='
    ensures Stripped(digits + Pads(count)) == digits
  {
    var s := digits + Pads(count);
    if count > 0 {
      assert s[..|s| - 1] == digits + Pads(count - 1);
      StrippedPads(digits, count - 1);
    } else {
      assert s == digits;
    }
  }

  lemma {:induction false} StrippedSplits(s: string)
    ensures s == Stripped(s) + Pads(|s| - |Stripped(s)|)
    ensures Stripped(s) != "" ==> Stripped(s)[|Stripped(s)| - 1] != '='
  {
    if s != "" && s[|s| - 1] == '=' {
      var shorter := s[..|s| - 1];
      StrippedSplits(shorter);
      assert s == shorter + "=";
      assert Pads(|s| - |Stripped(s)|) == Pads(|shorter| - |Stripped(shorter)|) + "=";
    }
  }

  /** The digits an encoding consists of, without its padding. */
  function Digits(bytes: seq<Byte>): seq<Digit> {
    if |bytes| > 3 then Split(bytes[..3]) + Digits(bytes[3..]) else Split(bytes)
  }

  lemma Thirds(n: nat)
    ensures ((n + 3) * 4 + 2) / 3 == (n * 4 + 2) / 3 + 4
  {
  }

  lemma {:induction false} DigitCount(bytes: seq<Byte>)
    ensures |Digits(bytes)| == (|bytes| * 4 + 2) / 3
    ensures |Digits(bytes)| % 4 != 1
  {
    if |bytes| > 3 {
      DigitCount(bytes[3..]);
      Thirds(|bytes| - 3);
    }
  }

  lemma {:induction false} EncodingShape(bytes: seq<Byte>)
    ensures Padded(bytes) == Chars(Digits(bytes)) + Pads(MissingPads(|Digits(bytes)|))
  {
    if |bytes| > 3 {
      var head, tail := Split(bytes[..3]), Digits(bytes[3..]);
      EncodingShape(bytes[3..]);
      SamePads(|tail|);
      CharsAppend(head, tail, Pads(MissingPads(|tail|)));
    }
  }

  lemma SamePads(length: nat)
    ensures MissingPads(length + 4) == MissingPads(length)
  {
  }

  lemma PadsFill(length: nat)
    ensures (length + MissingPads(length)) % 4 == 0
    ensures length % 4 != 1 <==> MissingPads(length) <= 2
  {
  }

  lemma CharsAppend(head: seq<Digit>, tail: seq<Digit>, pads: string)
    ensures Chars(head + tail) + pads == Chars(head) + (Chars(tail) + pads)
  {
    assert Chars(head + tail) == Chars(head) + Chars(tail);
  }

  lemma CharIsDigit(d: Digit)
    ensures DigitOf(CharOf(d)) == Some(d) && CharOf(d) != '=' && CharOf(d) != '+' && CharOf(d) != '/'
  {
  }

  lemma CharsAreDigits(digits: seq<Digit>)
    ensures AllDigits(Chars(digits)) && Values(Chars(digits)) == digits
    ensures forall c <- Chars(digits) :: c != '=' && c != '+' && c != '/'
  {
    forall i | 0 <= i < |digits|
      ensures var c := Chars(digits)[i];
        DigitOf(c) == Some(digits[i]) && c != '=' && c != '+' && c != '/'
    {
      CharIsDigit(digits[i]);
    }
  }

  lemma EncodeIsChars(bytes: seq<Byte>)
    ensures Encode(bytes) == Chars(Digits(bytes))
  {
    EncodingShape(bytes);
    CharsAreDigits(Digits(bytes));
    var text := Chars(Digits(bytes));
    assert text != "" ==> text[|text| - 1] in text;
    StrippedPads(text, MissingPads(|text|));
  }

  /** The decoder restores exactly the padding that the encoder stripped. */
  lemma PaddingIsRestored(bytes: seq<Byte>)
    ensures Encode(bytes) + Pads(MissingPads(|Encode(bytes)|)) == Padded(bytes)
    ensures |Padded(bytes)| % 4 == 0
    ensures forall c <- Encode(bytes) :: c != '=' && c != '+' && c != '/'
  {
    EncodingShape(bytes);
    EncodeIsChars(bytes);
    CharsAreDigits(Digits(bytes));
    PadsFill(|Digits(bytes)|);
  }

  lemma ByteXBack(x: Byte, y: Byte)
    ensures ByteX(DigitA(x), DigitB(x, y)) == x
  {
  }

  lemma ByteYBack(x: Byte, y: Byte, z: Byte)
    ensures ByteY(DigitB(x, y), DigitC(y, z)) == y
  {
    Low(x % 4, y / 16);
    High(y % 16, z / 64);
  }

  lemma Low(high: nat, low: nat)
    requires low < 16
    ensures (high * 16 + low) % 16 == low
  {
  }

  lemma High(high: nat, low: nat)
    requires low < 4
    ensures (high * 4 + low) / 4 == high
  {
  }

  lemma ByteZBack(y: Byte, z: Byte)
    ensures ByteZ(DigitC(y, z), DigitD(z)) == z
  {
    Low4(y % 16, z / 64);
  }

  lemma Low4(high: nat, low: nat)
    requires low < 4
    ensures (high * 4 + low) % 4 == low
  {
  }

  lemma JoinedSplit(chunk: seq<Byte>)
    requires |chunk| <= 3
    ensures Joined(Split(chunk)) == chunk
  {
    if |chunk| > 0 { ByteXBack(chunk[0], if |chunk| > 1 then chunk[1] else 0); }
    if |chunk| > 1 { ByteYBack(chunk[0], chunk[1], if |chunk| > 2 then chunk[2] else 0); }
    if |chunk| > 2 { ByteZBack(chunk[1], chunk[2]); }
  }

  lemma {:induction false} BytesOfDigits(bytes: seq<Byte>)
    ensures Bytes(Digits(bytes)) == bytes
  {
    if |bytes| > 3 {
      EncodingShape(bytes[3..]);
      JoinedSplit(bytes[..3]);
      BytesOfDigits(bytes[3..]);
      assert Digits(bytes)[..4] == Split(bytes[..3]) && Digits(bytes)[4..] == Digits(bytes[3..]);
    } else {
      JoinedSplit(bytes);
    }
  }

  /** Decoding what was encoded gives it back, for every payload. */
  lemma DecodeEncode(bytes: seq<Byte>)
    ensures Decode(Encode(bytes)) == Some(bytes)
  {
    PaddingIsRestored(bytes);
    EncodeIsChars(bytes);
    DigitCount(bytes);
    PadsFill(|Digits(bytes)|);
    CharsAreDigits(Digits(bytes));
    BytesOfDigits(bytes);
  }

  // ---- which texts decode, and which of them an encoder could have written ----

  lemma {:induction false} MorePads(s: string, count: nat)
    ensures Stripped(s + Pads(count)) == Stripped(s)
  {
    var text := s + Pads(count);
    if count > 0 {
      assert text[..|text| - 1] == s + Pads(count - 1);
      MorePads(s, count - 1);
    } else {
      assert text == s;
    }
  }

  lemma PadsInAll(length: nat, own: nat)
    ensures own + MissingPads(length + own) <= 2 <==>
      length % 4 != 1 && (own == 0 || own == MissingPads(length) || (own == 1 && length % 4 == 2))
  {
    if own <= 2 {
      ModSum(length, own);
    }
  }

  lemma ModSum(length: nat, own: nat)
    requires own <= 2
    ensures (length + own) % 4 == (length % 4 + own) % 4
  {
  }

  /** A text decodes exactly when it consists of digits, not one more than a whole number of
      quads, and its own padding is absent, complete, or the first of two. */
  lemma DecodesExactlyWhen(value: string)
    ensures Decode(value).Some? <==>
      var digits, own := Stripped(value), |value| - |Stripped(value)|;
      && AllDigits(digits)
      && |digits| % 4 != 1
      && (own == 0 || own == MissingPads(|digits|) || (own == 1 && |digits| % 4 == 2))
  {
    DecodesByPadding(value);
    PadsInAll(|Stripped(value)|, |value| - |Stripped(value)|);
  }

  lemma DecodesByPadding(value: string)
    ensures Decode(value).Some? <==>
      AllDigits(Stripped(value)) && |value| - |Stripped(value)| + MissingPads(|value|) <= 2
  {
    MorePads(value, MissingPads(|value|));
  }

  /** The unused low bits of the last digit, cleared. */
  function Cleared(digits: seq<Digit>): seq<Digit> {
    var n := |digits|;
    if n % 4 == 2 then digits[n - 1 := digits[n - 1] / 16 * 16]
    else if n % 4 == 3 then digits[n - 1 := digits[n - 1] / 4 * 4]
    else digits
  }

  lemma QuadBack(a: Digit, b: Digit, c: Digit, d: Digit)
    ensures DigitA(ByteX(a, b)) == a
    ensures DigitB(ByteX(a, b), ByteY(b, c)) == b && DigitB(ByteX(a, b), 0) == b / 16 * 16
    ensures DigitC(ByteY(b, c), ByteZ(c, d)) == c && DigitC(ByteY(b, c), 0) == c / 4 * 4
    ensures DigitD(ByteZ(c, d)) == d
  {
  }

  lemma SplitJoined(digits: seq<Digit>)
    requires |digits| <= 4 && |digits| != 1
    ensures Split(Joined(digits)) == Cleared(digits)
  {
    if |digits| == 2 { QuadBack(digits[0], digits[1], 0, 0); }
    if |digits| == 3 { QuadBack(digits[0], digits[1], digits[2], 0); }
    if |digits| == 4 { QuadBack(digits[0], digits[1], digits[2], digits[3]); }
  }

  lemma DigitsStep(chunk: seq<Byte>, rest: seq<Byte>)
    requires |chunk| == 3 && rest != []
    ensures Digits(chunk + rest) == Split(chunk) + Digits(rest)
  {
    assert (chunk + rest)[..3] == chunk && (chunk + rest)[3..] == rest;
  }

  lemma ClearedStep(digits: seq<Digit>)
    requires |digits| > 4
    ensures Cleared(digits) == digits[..4] + Cleared(digits[4..])
  {
  }

  lemma BytesNotEmpty(digits: seq<Digit>)
    requires |digits| > 1
    ensures Bytes(digits) != []
  {
  }

  lemma {:induction false} DigitsOfBytes(digits: seq<Digit>)
    requires |digits| % 4 != 1
    ensures Digits(Bytes(digits)) == Cleared(digits)
  {
    if |digits| > 4 {
      DigitsOfBytes(digits[4..]);
      SplitJoined(digits[..4]);
      BytesNotEmpty(digits[4..]);
      DigitsStep(Joined(digits[..4]), Bytes(digits[4..]));
      ClearedStep(digits);
    } else {
      SplitJoined(digits);
    }
  }

  lemma OneSpelling(c: char)
    requires DigitOf(c).Some?
    ensures CharOf(Value(c)) == c <==> c != '+' && c != '/'
  {
  }

  lemma CharsOfValues(text: string)
    requires AllDigits(text)
    ensures Chars(Values(text)) == text <==> '+' !in text && '/' !in text
  {
    forall i | 0 <= i < |text|
      ensures Chars(Values(text))[i] == text[i] <==> text[i] != '+' && text[i] != '/'
    {
      assert text[i] in text;
      OneSpelling(text[i]);
    }
  }

  /** A text that decodes is the encoding of its payload exactly when it is unpadded, spelled in the
      URL-safe alphabet, and its unused last bits are zero; any other text is a second name. */
  lemma CanonicalExactlyWhen(value: string)
    requires Decode(value).Some?
    ensures Encode(Decode(value).value) == value <==>
      && '=' !in value && '+' !in value && '/' !in value
      && Cleared(Values(value)) == Values(value)
  {
    var text := Stripped(value);
    var digits := Values(text);
    DecodesExactlyWhen(value);
    MorePads(value, MissingPads(|value|));
    DigitsOfBytes(digits);
    EncodeIsChars(Bytes(digits));
    CharsOfValues(text);
    CharsAreDigits(Cleared(digits));
    StrippedSplits(value);
    if text == value {
      assert '=' !in value;
    } else {
      assert value[|value| - 1] == '=';
    }
  }

  // ---- the endpoint's cursor ----

  /** json.dumps of the two fields is a parameter. */
  function EncodeCursor(cursor: Key, dump: Key -> seq<Byte>): string {
    Encode(dump(cursor))
  }

  /** None is the 422 response. */
  function DecodeCursor(value: string, parse: seq<Byte> -> Option<Key>): Option<Key> {
    var payload := Decode(value);
    if payload.None? then None
    else
      var cursor := parse(payload.value);
      if cursor.Some? && cursor.value.runId >= 1 then cursor else None
  }

  /** A cursor handed out with a page comes back as itself, if its run id is positive. */
  lemma CursorComesBack(cursor: Key, dump: Key -> seq<Byte>, parse: seq<Byte> -> Option<Key>)
    requires parse(dump(cursor)) == Some(cursor)
    ensures DecodeCursor(EncodeCursor(cursor, dump), parse) == Some(cursor) <==> cursor.runId >= 1
  {
    DecodeEncode(dump(cursor));
  }
}
