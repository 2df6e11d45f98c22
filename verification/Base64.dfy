/** Standard base64 with padding (RFC 4648, section 4), as TLS pins use it. */
module Base64 {
  import opened Prelude

  const PAD: char := '='

  // ---------- the alphabet ----------

  /** The character of the 6-bit value `v`. */
  function Digit(v: nat): char
    requires v < 64
  {
    if v < 26 then 'A' + v as char
    else if v < 52 then 'a' + (v - 26) as char
    else if v < 62 then '0' + (v - 52) as char
    else if v == 62 then '+'
    else '/'
  }

  /** Where `c` stands in the alphabet. */
  function Position(c: char): Option<nat> {
    if 'A' <= c <= 'Z' then Some(c as nat - 'A' as nat)
    else if 'a' <= c <= 'z' then Some(c as nat - 'a' as nat + 26)
    else if '0' <= c <= '9' then Some(c as nat - '0' as nat + 52)
    else if c == '+' then Some(62)
    else if c == '/' then Some(63)
    else None
  }

  /** The alphabet of RFC 4648, table 1. */
  lemma AlphabetOfRfc4648(v: nat)
    requires v < 64
    ensures v < 26 ==> Digit(v) == "ABCDEFGHIJKLMNOPQRSTUVWXYZ"[v]
    ensures 26 <= v < 52 ==> Digit(v) == "abcdefghijklmnopqrstuvwxyz"[v - 26]
    ensures 52 <= v ==> Digit(v) == "0123456789+/"[v - 52]
    ensures PAD == '='
  {
  }

  lemma PositionOfDigit(v: nat)
    requires v < 64
    ensures Position(Digit(v)) == Some(v) && Digit(v) != PAD
  {
  }

  lemma DigitOfPosition(c: char)
    requires Position(c).Some?
    ensures Position(c).value < 64 && Digit(Position(c).value) == c && c != PAD
  {
  }

  // ---------- one group: up to three bytes, four characters ----------

  type Group = b: Bytes | 1 <= |b| <= 3 witness [0]

  function At(b: Bytes, i: nat): Byte {
    if i < |b| then b[i] else 0
  }

  /** The 24 bits of a group, missing bytes as zero. */
  function Bits(b: Group): (n: nat)
    ensures n < 0x100_0000
  {
    At(b, 0) * 0x1_0000 + At(b, 1) * 0x100 + At(b, 2)
  }

  /** The `i`th of the four 6-bit values of `n`. */
  function Sextet(n: nat, i: nat): (v: nat)
    requires i < 4
    ensures v < 64
  {
    (if i == 0 then n / 0x4_0000 else if i == 1 then n / 0x1000 else if i == 2 then n / 0x40 else n) % 64
  }

  function EncodedGroup(b: Group): (s: string)
    ensures |s| == 4
  {
    seq(4, i requires 0 <= i < 4 => if i <= |b| then Digit(Sextet(Bits(b), i)) else PAD)
  }

  /** How many of the last characters of four are padding. */
  function Padding(four: string): nat
    requires |four| == 4
  {
    if four[3] != PAD then 0
    else if four[2] != PAD then 1
    else if four[1] != PAD then 2
    else if four[0] != PAD then 3
    else 4
  }

  /** The value of base64 digits, most significant first. */
  function Value(digits: string): Option<nat> {
    if digits == [] then Some(0)
    else
      var high := Value(digits[..|digits| - 1]);
      var low := Position(digits[|digits| - 1]);
      if high.None? || low.None? then None else Some(high.value * 64 + low.value)
  }

  /** The factor of `pad` missing digits. */
  function Scale(pad: nat): nat {
    if pad == 0 then 1 else if pad == 1 then 64 else 4096
  }

  function ThreeBytes(n: nat): (b: Bytes)
    ensures |b| == 3
  {
    [n / 0x1_0000 % 256, n / 0x100 % 256, n % 256]
  }

  function DecodedGroup(four: string, last: bool): Option<Bytes>
    requires |four| == 4
  {
    var pad := Padding(four);
    if pad > 2 || (pad > 0 && !last) then None
    else
      var value := Value(four[..4 - pad]);
      if value.None? then None
      else Some(ThreeBytes(value.value * Scale(pad))[..3 - pad])
  }

  // ---------- whole texts ----------

  function Encoded(bytes: Bytes): string {
    if bytes == [] then []
    else if |bytes| <= 3 then EncodedGroup(bytes)
    else EncodedGroup(bytes[..3]) + Encoded(bytes[3..])
  }

  function DecodedGroups(text: string): Option<Bytes>
    requires |text| % 4 == 0
  {
    if text == [] then Some([])
    else
      var head := DecodedGroup(text[..4], |text| == 4);
      var rest := DecodedGroups(text[4..]);
      if head.None? || rest.None? then None else Some(head.value + rest.value)
  }

  function Decoded(text: string): Option<Bytes> {
    if text == [] || |text| % 4 != 0 then None else DecodedGroups(text)
  }

  /** One chunk of the encoding loop. */
  method EncodeChunk(chunk: Group) returns (out: string)
    ensures out == EncodedGroup(chunk)
  {
    var n := Bits(chunk);
    out := [];
    for i := 0 to 4
      invariant out == EncodedGroup(chunk)[..i]
    {
      out := out + [if i <= |chunk| then Digit(Sextet(n, i)) else PAD];
    }
  }

  /** The encoding loop, chunk by chunk. */
  method Encode(bytes: Bytes) returns (out: string)
    ensures out == Encoded(bytes)
  {
    hide EncodedGroup;
    out := [];
    var at := 0;
    while at < |bytes|
      invariant at <= |bytes|
      invariant out + Encoded(bytes[at..]) == Encoded(bytes)
    {
      var size := if |bytes| - at < 3 then |bytes| - at else 3;
      var chunk: Group := bytes[at..at + size];
      assert bytes[at..][..size] == chunk && bytes[at..][size..] == bytes[at + size..];
      assert size == |bytes| - at ==> bytes[at..] == chunk && bytes[at + size..] == [];
      var four := EncodeChunk(chunk);
      assert Encoded(bytes[at..]) == four + Encoded(bytes[at + size..]);
      out := out + four;
      at := at + size;
    }
  }

  /** One chunk of the decoding loop. */
  method DecodeChunk(chunk: string, last: bool) returns (bytes: Option<Bytes>)
    requires |chunk| == 4
    ensures bytes == DecodedGroup(chunk, last)
  {
    hide Position, ThreeBytes, Scale;
    var pad := Padding(chunk);
    if pad > 2 || (pad > 0 && !last) {
      return None;
    }
    var n: nat := 0;
    for k := 0 to 4 - pad
      invariant Value(chunk[..k]) == Some(n)
    {
      assert chunk[..k + 1][..k] == chunk[..k];
      var value := Position(chunk[k]);
      if value.None? {
        ValueNeedsEveryDigit(chunk[..4 - pad], k);
        return None;
      }
      n := n * 64 + value.value;
    }
    return Some(ThreeBytes(n * Scale(pad))[..3 - pad]);
  }

  /** `out`, then `rest`. */
  function Then(out: Bytes, rest: Option<Bytes>): Option<Bytes> {
    match rest
    case None => None
    case Some(bytes) => Some(out + bytes)
  }

  /** What the groups from `at` on decode to. */
  function DecodedFrom(text: string, at: nat): Option<Bytes> {
    if at <= |text| && |text[at..]| % 4 == 0 then DecodedGroups(text[at..]) else None
  }

  lemma DecodeFrom(out: Bytes, text: string, at: nat)
    requires |text| % 4 == 0 && at % 4 == 0 && at < |text|
    ensures at + 4 <= |text| && (at + 4) % 4 == 0
    ensures Then(out, DecodedFrom(text, at)) ==
      match DecodedGroup(text[at..at + 4], at + 4 == |text|)
      case None => None
      case Some(head) => Then(out + head, DecodedFrom(text, at + 4))
  {
    hide DecodedGroup;
    var here := text[at..];
    assert here[..4] == text[at..at + 4] && here[4..] == text[at + 4..];
    var head, rest := DecodedGroup(here[..4], |here| == 4), DecodedGroups(here[4..]);
    if head.Some? && rest.Some? {
      assert out + (head.value + rest.value) == out + head.value + rest.value;
    }
  }

  /** The decoding loop: one failing chunk fails the whole text. */
  method Decode(text: string) returns (bytes: Option<Bytes>)
    ensures bytes == Decoded(text)
  {
    if text == [] || |text| % 4 != 0 {
      return None;
    }
    DecodeAll(text);
    hide *;
    var out: Bytes := [];
    var at := 0;
    while at < |text|
      invariant at <= |text| && at % 4 == 0
      invariant Decoded(text) == Then(out, DecodedFrom(text, at))
    {
      DecodeFrom(out, text, at);
      var decoded := DecodeChunk(text[at..at + 4], at + 4 == |text|);
      if decoded.None? {
        return None;
      }
      out := out + decoded.value;
      at := at + 4;
    }
    DecodeEmpty(out, text);
    return Some(out);
  }

  lemma DecodeAll(text: string)
    requires text != [] && |text| % 4 == 0
    ensures Decoded(text) == Then([], DecodedFrom(text, 0))
  {
    assert text[0..] == text;
    assert Decoded(text).Some? ==> [] + Decoded(text).value == Decoded(text).value;
  }

  lemma DecodeEmpty(out: Bytes, text: string)
    ensures Then(out, DecodedFrom(text, |text|)) == Some(out)
  {
    assert text[|text|..] == [] && out + [] == out;
  }

  lemma {:induction false} ValueNeedsEveryDigit(digits: string, k: nat)
    requires k < |digits| && Position(digits[k]).None?
    ensures Value(digits).None?
  {
    if k < |digits| - 1 {
      ValueNeedsEveryDigit(digits[..|digits| - 1], k);
    }
  }

  // ---------- round trips ----------

  lemma SextetsOfBytes(b0: Byte, b1: Byte, b2: Byte)
    ensures var n := b0 * 0x1_0000 + b1 * 0x100 + b2;
      && Sextet(n, 0) == b0 / 4
      && Sextet(n, 1) == b0 % 4 * 16 + b1 / 16
      && Sextet(n, 2) == b1 % 16 * 4 + b2 / 64
      && Sextet(n, 3) == b2 % 64
  {
    var n := b0 * 0x1_0000 + b1 * 0x100 + b2;
    assert n / 0x4_0000 == b0 / 4;
    assert n / 0x1000 == b0 * 16 + b1 / 16;
    assert n / 0x40 == b0 * 1024 + b1 * 4 + b2 / 64;
  }

  lemma BytesOfSextets(v0: nat, v1: nat, v2: nat, v3: nat)
    requires v0 < 64 && v1 < 64 && v2 < 64 && v3 < 64
    ensures ThreeBytes(v0 * 0x4_0000 + v1 * 0x1000 + v2 * 0x40 + v3)
         == [v0 * 4 + v1 / 16, v1 % 16 * 16 + v2 / 4, v2 % 4 * 64 + v3]
  {
    var a, b, c, d := v1 / 16, v1 % 16, v2 / 4, v2 % 4;
    var n := v0 * 0x4_0000 + v1 * 0x1000 + v2 * 0x40 + v3;
    var high, middle, low := v0 * 4 + a, b * 16 + c, d * 64 + v3;
    assert v1 == 16 * a + b && v2 == 4 * c + d;
    assert n == high * 0x1_0000 + middle * 0x100 + low;
    ByteOf(high * 0x100 + middle, low);
    ByteOf(high, middle);
    ByteOf(0, high);
    assert n / 0x1_0000 == n / 0x100 / 0x100;
  }

  lemma ByteOf(rest: nat, byte: Byte)
    ensures (rest * 0x100 + byte) / 0x100 == rest && (rest * 0x100 + byte) % 0x100 == byte
  {
  }

  /** The value of two, three, or four digits, written out. */
  lemma ValueOf(digits: string)
    requires 2 <= |digits| <= 4
    ensures Value(digits).Some? <==> forall k :: 0 <= k < |digits| ==> Position(digits[k]).Some?
    ensures Value(digits).Some? ==>
      var v0, v1 := Position(digits[0]).value, Position(digits[1]).value;
      Value(digits).value ==
        if |digits| == 2 then v0 * 64 + v1
        else if |digits| == 3 then (v0 * 64 + v1) * 64 + Position(digits[2]).value
        else ((v0 * 64 + v1) * 64 + Position(digits[2]).value) * 64 + Position(digits[3]).value
  {
    if k :| 0 <= k < |digits| && Position(digits[k]).None? {
      ValueNeedsEveryDigit(digits, k);
    }
    assert digits[..1][..0] == [];
    assert digits[..2][..1] == digits[..1];
    assert Value(digits[..0]) == Some(0);
    if |digits| > 2 { assert digits[..3][..2] == digits[..2]; }
    assert digits[..|digits|] == digits;
  }

  /** Decoding a group, by the values of its digits. */
  lemma DecodeDigits(four: string, last: bool)
    requires |four| == 4 && Padding(four) <= 2 && (Padding(four) > 0 ==> last)
    requires forall k :: 0 <= k < 4 - Padding(four) ==> Position(four[k]).Some?
    ensures var v0, v1 := Position(four[0]).value, Position(four[1]).value;
      var v2 := if Padding(four) < 2 then Position(four[2]).value else 0;
      var v3 := if Padding(four) < 1 then Position(four[3]).value else 0;
      && v0 < 64 && v1 < 64 && v2 < 64 && v3 < 64
      && DecodedGroup(four, last)
         == Some([v0 * 4 + v1 / 16, v1 % 16 * 16 + v2 / 4, v2 % 4 * 64 + v3][..3 - Padding(four)])
  {
    hide Position, Digit, Value, ThreeBytes;
    var pad := Padding(four);
    ValueOf(four[..4 - pad]);
    forall k | 0 <= k < 4 - pad ensures four[..4 - pad][k] == four[k] && Position(four[k]).value < 64 {
      DigitOfPosition(four[k]);
    }
    var v2 := if pad < 2 then Position(four[2]).value else 0;
    var v3 := if pad < 1 then Position(four[3]).value else 0;
    BytesOfSextets(Position(four[0]).value, Position(four[1]).value, v2, v3);
  }

  /** The four characters of a group, by its bytes. */
  lemma EncodeBytes(b: Group)
    ensures var s := EncodedGroup(b);
      && s[0] == Digit(b[0] / 4)
      && s[1] == Digit(b[0] % 4 * 16 + At(b, 1) / 16)
      && s[2] == (if |b| >= 2 then Digit(b[1] % 16 * 4 + At(b, 2) / 64) else PAD)
      && s[3] == (if |b| == 3 then Digit(b[2] % 64) else PAD)
  {
    SextetsOfBytes(b[0], At(b, 1), At(b, 2));
  }

  lemma Rejoin(b0: Byte, b1: Byte, b2: Byte)
    ensures b0 / 4 * 4 + (b0 % 4 * 16 + b1 / 16) / 16 == b0
    ensures (b0 % 4 * 16 + b1 / 16) % 16 * 16 + (b1 % 16 * 4 + b2 / 64) / 4 == b1
    ensures (b1 % 16 * 4 + b2 / 64) % 4 * 64 + b2 % 64 == b2
    ensures b1 == 0 ==> (b0 % 4 * 16 + b1 / 16) % 16 == 0
  {
    assert (b0 % 4 * 16 + b1 / 16) / 16 == b0 % 4;
    assert (b1 % 16 * 4 + b2 / 64) / 4 == b1 % 16;
  }

  lemma GroupRoundTrip(b: Group, last: bool)
    requires last || |b| == 3
    ensures DecodedGroup(EncodedGroup(b), last) == Some(b)
  {
    hide Position, Digit, DecodedGroup, EncodedGroup;
    var s := EncodedGroup(b);
    EncodeBytes(b);
    PositionOfDigit(b[0] / 4);
    PositionOfDigit(b[0] % 4 * 16 + At(b, 1) / 16);
    if |b| >= 2 { PositionOfDigit(b[1] % 16 * 4 + At(b, 2) / 64); }
    if |b| == 3 { PositionOfDigit(b[2] % 64); }
    assert Padding(s) == 3 - |b|;
    DecodeDigits(s, last);
    Rejoin(b[0], At(b, 1), At(b, 2));
    assert [b[0], At(b, 1), At(b, 2)][..|b|] == b;
  }

  /** A group in front of decoded groups. */
  lemma DecodeStep(four: string, rest: string, head: Bytes, tail: Bytes)
    requires |four| == 4 && |rest| % 4 == 0
    requires DecodedGroup(four, rest == []) == Some(head) && DecodedGroups(rest) == Some(tail)
    ensures DecodedGroups(four + rest) == Some(head + tail)
  {
    assert (four + rest)[..4] == four && (four + rest)[4..] == rest;
  }

  lemma {:induction false} RoundTripGroups(bytes: Bytes)
    ensures |Encoded(bytes)| % 4 == 0 && (Encoded(bytes) == [] <==> bytes == [])
    ensures DecodedGroups(Encoded(bytes)) == Some(bytes)
  {
    hide DecodedGroup, EncodedGroup;
    if bytes == [] {
    } else if |bytes| <= 3 {
      GroupRoundTrip(bytes, true);
      DecodeStep(EncodedGroup(bytes), [], bytes, []);
      assert EncodedGroup(bytes) + [] == EncodedGroup(bytes) && bytes + [] == bytes;
    } else {
      GroupRoundTrip(bytes[..3], false);
      RoundTripGroups(bytes[3..]);
      DecodeStep(EncodedGroup(bytes[..3]), Encoded(bytes[3..]), bytes[..3], bytes[3..]);
      assert bytes == bytes[..3] + bytes[3..];
    }
  }

  /** Decoding undoes encoding for every byte string but the empty one,
      whose encoding is the empty text, which is refused. */
  lemma DecodeEncode(bytes: Bytes)
    ensures Decoded(Encoded(bytes)) == if bytes == [] then None else Some(bytes)
  {
    RoundTripGroups(bytes);
  }

  /** The bits of the last digit before the padding that no byte takes. */
  function DroppedBits(four: string): nat
    requires |four| == 4
  {
    match Padding(four)
    case 1 => (match Position(four[2]) case Some(v) => v % 4 case None => 0)
    case 2 => (match Position(four[1]) case Some(v) => v % 16 case None => 0)
    case _ => 0
  }

  lemma DecodedGroupDigits(four: string, last: bool)
    requires |four| == 4 && DecodedGroup(four, last).Some?
    ensures Padding(four) <= 2 && (Padding(four) > 0 ==> last)
    ensures forall k :: 0 <= k < 4 - Padding(four) ==> Position(four[k]).Some?
  {
    var digits := four[..4 - Padding(four)];
    ValueOf(digits);
    assert forall k :: 0 <= k < |digits| ==> digits[k] == four[k];
  }

  lemma DigitsDiffer(v: nat, w: nat)
    requires v < 64 && w < 64
    ensures Digit(v) == Digit(w) <==> v == w
  {
    PositionOfDigit(v);
    PositionOfDigit(w);
  }

  lemma Redigit(v0: nat, v1: nat, v2: nat, v3: nat)
    requires v0 < 64 && v1 < 64 && v2 < 64 && v3 < 64
    ensures var b0, b1, b2 := v0 * 4 + v1 / 16, v1 % 16 * 16 + v2 / 4, v2 % 4 * 64 + v3;
      && b0 / 4 == v0
      && b0 % 4 * 16 == v1 / 16 * 16 && b0 % 4 * 16 + b1 / 16 == v1
      && b1 % 16 * 4 == v2 / 4 * 4 && b1 % 16 * 4 + b2 / 64 == v2
      && b2 % 64 == v3
    ensures v1 / 16 * 16 == v1 <==> v1 % 16 == 0
    ensures v2 / 4 * 4 == v2 <==> v2 % 4 == 0
  {
  }

  lemma SameFour(s: string, t: string)
    requires |s| == |t| == 4
    ensures s == t <==> s[0] == t[0] && s[1] == t[1] && s[2] == t[2] && s[3] == t[3]
  {
    assert s == [s[0], s[1], s[2], s[3]];
    assert t == [t[0], t[1], t[2], t[3]];
  }

  /** A group decoded and encoded again: the last digit before the padding
      loses the bits that no byte takes. */
  lemma Reencoded(four: string, last: bool)
    requires |four| == 4 && DecodedGroup(four, last).Some?
    ensures var pad, b := Padding(four), DecodedGroup(four, last).value;
      && pad <= 2 && (pad > 0 ==> last) && |b| == 3 - pad
      && (forall k :: 0 <= k < 4 - pad ==> Position(four[k]).Some? && Position(four[k]).value < 64)
      && var s := EncodedGroup(b);
        && s[0] == four[0] && s[3] == four[3]
        && s[1] == (if pad < 2 then four[1] else Digit(Position(four[1]).value / 16 * 16))
        && s[2] == (if pad < 1 then four[2] else if pad == 1 then Digit(Position(four[2]).value / 4 * 4) else PAD)
  {
    hide Position, Digit, DecodedGroup, EncodedGroup, Value;
    DecodedGroupDigits(four, last);
    DecodeDigits(four, last);
    var pad := Padding(four);
    forall k | 0 <= k < 4 - pad
      ensures Digit(Position(four[k]).value) == four[k] && Position(four[k]).value < 64
    {
      DigitOfPosition(four[k]);
    }
    Redigit(Position(four[0]).value, Position(four[1]).value, if pad < 2 then Position(four[2]).value else 0,
            if pad < 1 then Position(four[3]).value else 0);
    EncodeBytes(DecodedGroup(four, last).value);
  }

  lemma GroupCanonical(four: string, last: bool)
    requires |four| == 4 && DecodedGroup(four, last).Some?
    ensures var b := DecodedGroup(four, last).value;
      && |b| == 3 - Padding(four) && 1 <= |b| <= 3 && (!last ==> |b| == 3 && DroppedBits(four) == 0)
      && (EncodedGroup(b) == four <==> DroppedBits(four) == 0)
  {
    hide Position, Digit, DecodedGroup, EncodedGroup, Value;
    Reencoded(four, last);
    SameFour(EncodedGroup(DecodedGroup(four, last).value), four);
    var v1 := Position(four[1]).value;
    DigitOfPosition(four[1]);
    if Padding(four) == 2 {
      DigitsDiffer(v1 / 16 * 16, v1);
      Redigit(0, v1, 0, 0);
    } else if Padding(four) == 1 {
      var v2 := Position(four[2]).value;
      DigitOfPosition(four[2]);
      DigitsDiffer(v2 / 4 * 4, v2);
      Redigit(0, 0, v2, 0);
    }
  }

  lemma {:induction false} CanonicalGroups(text: string)
    requires |text| % 4 == 0 && DecodedGroups(text).Some?
    ensures text != [] ==> DecodedGroups(text).value != []
    ensures Encoded(DecodedGroups(text).value) == text
       <==> (text != [] ==> DroppedBits(text[|text| - 4..]) == 0)
  {
    hide DecodedGroup, DroppedBits, EncodedGroup;
    if text == [] {
    } else {
      var head := DecodedGroup(text[..4], |text| == 4).value;
      GroupCanonical(text[..4], |text| == 4);
      assert text == text[..4] + text[4..];
      if |text| == 4 {
        assert text[..4] == text && text[0..] == text;
        assert head + [] == head;
      } else {
        CanonicalGroups(text[4..]);
        var rest := DecodedGroups(text[4..]).value;
        assert (head + rest)[..3] == head && (head + rest)[3..] == rest;
        assert text[4..][|text| - 8..] == text[|text| - 4..];
        var again := EncodedGroup(head) + Encoded(rest);
        assert again[..4] == EncodedGroup(head) && again[4..] == Encoded(rest);
      }
    }
  }

  /** Text that decodes is its value's encoding exactly when the bits
      dropped before the padding are zero; other text is accepted too. */
  lemma EncodeDecode(text: string)
    requires Decoded(text).Some?
    ensures Encoded(Decoded(text).value) == text <==> DroppedBits(text[|text| - 4..]) == 0
  {
    CanonicalGroups(text);
  }

  /** Non-canonical text that is accepted. */
  lemma NonCanonicalAccepted()
    ensures Decoded("AB==") == Some([0]) && Encoded(Decoded("AB==").value) != "AB=="
  {
    hide DecodedGroup, EncodedGroup;
    var four := "AB==";
    DecodeDigits(four, true);
    assert [0 * 4 + 1 / 16, 1 % 16 * 16 + 0 / 4, 0 % 4 * 64 + 0][..1] == [0];
    DecodeStep(four, [], [0], []);
    assert four + [] == four;
    EncodeDecode(four);
    assert four[0..] == four && DroppedBits(four) == 1;
    assert [0] + [] == [0];
  }

  lemma {:induction false} DecodedLength(text: string)
    requires |text| % 4 == 0 && text != [] && DecodedGroups(text).Some?
    ensures |DecodedGroups(text).value| == |text| / 4 * 3 - Padding(text[|text| - 4..])
    ensures Padding(text[|text| - 4..]) <= 2
  {
    hide DecodedGroup, DroppedBits, EncodedGroup;
    GroupCanonical(text[..4], |text| == 4);
    DecodedGroupDigits(text[..4], |text| == 4);
    if |text| == 4 {
      assert text[..4] == text && text[0..] == text;
      assert DecodedGroups(text[4..]) == Some([]);
    } else {
      DecodedLength(text[4..]);
      assert text[4..][|text| - 8..] == text[|text| - 4..];
    }
  }

  /** Base64 digits, and at the end of the last four up to two pads. */
  predicate IsBase64(text: string) {
    && text != [] && |text| % 4 == 0 && Padding(text[|text| - 4..]) <= 2
    && forall k :: 0 <= k < |text| - Padding(text[|text| - 4..]) ==> Position(text[k]).Some?
  }

  lemma GroupDecodes(four: string, last: bool)
    requires |four| == 4
    ensures DecodedGroup(four, last).Some? <==> IsBase64(four) && (Padding(four) > 0 ==> last)
  {
    assert four[0..] == four;
    if DecodedGroup(four, last).Some? {
      DecodedGroupDigits(four, last);
    } else if IsBase64(four) && (Padding(four) > 0 ==> last) {
      DecodeDigits(four, last);
    }
  }

  lemma {:induction false} GroupsDecode(text: string)
    requires |text| % 4 == 0 && text != []
    ensures DecodedGroups(text).Some? <==> IsBase64(text)
  {
    hide DecodedGroup, Position;
    GroupDecodes(text[..4], |text| == 4);
    if |text| == 4 {
      assert text[..4] == text;
    } else {
      GroupsDecode(text[4..]);
      assert text[4..][|text| - 8..] == text[|text| - 4..] && text[..4][0..] == text[..4];
      if IsBase64(text) {
        NoPadding(text[..4]);
        assert forall k :: 0 <= k < |text[4..]| ==> text[4..][k] == text[k + 4];
      }
    }
  }

  lemma NoPadding(four: string)
    requires |four| == 4
    ensures Position(four[3]).Some? ==> Padding(four) == 0
  {
  }

  /** Exactly the texts that decode. */
  lemma DecodesExactly(text: string)
    ensures Decoded(text).Some? <==> IsBase64(text)
  {
    if text != [] && |text| % 4 == 0 {
      GroupsDecode(text);
    }
  }
}
