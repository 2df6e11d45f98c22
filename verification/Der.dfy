/** Reading DER elements (X.690, section 8.1), and finding a certificate's
    SubjectPublicKeyInfo (RFC 5280, section 4.1), whose SHA-256 is its pin. */
module Der {
  import opened Prelude

  datatype DerError =
    | EndsEarly
    | LongTag
    | BadLength
    | NotASequence
    | NoSubjectPublicKeyInfo

  /** An element read: its tag, its content, its whole encoding, and what
      follows it. */
  datatype Element = Element(tag: Byte, content: Bytes, whole: Bytes, rest: Bytes)

  const SEQUENCE: Byte := 0x30
  const VERSION: Byte := 0xa0

  /** The number `octets` spell, most significant first. */
  function BigEndian(octets: Bytes): nat {
    if octets == [] then 0 else BigEndian(octets[..|octets| - 1]) * 256 + octets[|octets| - 1]
  }

  /** The length that `octets` begin with, and how many octets it takes. */
  function Length(octets: Bytes): Result<(nat, nat), DerError> {
    if octets == [] then Err(EndsEarly)
    else if octets[0] < 0x80 then Ok((octets[0], 1))
    else
      var count := octets[0] % 0x80;
      if count == 0 || count > 4 || |octets| - 1 < count then Err(BadLength)
      else Ok((BigEndian(octets[1..1 + count]), 1 + count))
  }

  /** The cursor's next element, branch by branch as it is read. */
  function Read(bytes: Bytes): Result<Element, DerError> {
    if bytes == [] then Err(EndsEarly)
    else if bytes[0] % 32 == 31 then Err(LongTag)
    else
      match Length(bytes[1..])
      case Err(error) => Err(error)
      case Ok((len, taken)) =>
        var header := 1 + taken;
        if |bytes| - header < len then Err(EndsEarly)
        else Ok(Element(bytes[0], bytes[header..header + len], bytes[..header + len], bytes[header + len..]))
  }

  /** A length, octet by octet, and what follows it. */
  method ReadLength(octets: Bytes) returns (read: Result<(nat, Bytes), DerError>)
    ensures read == match Length(octets)
                    case Ok((len, taken)) => Ok((len, octets[taken..]))
                    case Err(error) => Err(error)
  {
    if octets == [] {
      return Err(EndsEarly);
    }
    var first, rest := octets[0], octets[1..];
    if first < 0x80 {
      return Ok((first, rest));
    }
    var count := first % 0x80;
    if count == 0 || count > 4 || |rest| < count {
      return Err(BadLength);
    }
    var len: nat := 0;
    for k := 0 to count
      invariant len == BigEndian(rest[..k])
    {
      assert rest[..k + 1][..k] == rest[..k];
      len := len * 256 + rest[k];
    }
    assert rest[..count] == octets[1..1 + count] && rest[count..] == octets[1 + count..];
    return Ok((len, rest[count..]));
  }

  /** A cursor over DER elements: reading moves it past what was read. */
  class Cursor {
    var bytes: Bytes

    constructor (bytes: Bytes)
      ensures this.bytes == bytes
    {
      this.bytes := bytes;
    }

    method Next() returns (element: Result<Element, DerError>)
      modifies this
      ensures element == Read(old(bytes))
      ensures bytes == if element.Ok? then element.value.rest else old(bytes)
      ensures element.Ok? ==> |bytes| < |old(bytes)| && old(bytes) == element.value.whole + bytes
    {
      if bytes == [] {
        return Err(EndsEarly);
      }
      var tag, rest := bytes[0], bytes[1..];
      if tag % 32 == 31 {
        return Err(LongTag);
      }
      var length := ReadLength(rest);
      if length.Err? {
        return Err(length.error);
      }
      var len := length.value.0;
      rest := length.value.1;
      if |rest| < len {
        return Err(EndsEarly);
      }
      var header := |bytes| - |rest|;
      assert rest == bytes[header..];
      assert rest[..len] == bytes[header..header + len] && rest[len..] == bytes[header + len..];
      element := Ok(Element(tag, rest[..len], bytes[..header + len], rest[len..]));
      assert bytes == bytes[..header + len] + bytes[header + len..];
      bytes := rest[len..];
    }

    /** What is inside a SEQUENCE that comes next. The cursor moves past any
        other element too. */
    method Sequence() returns (inner: Result<Bytes, DerError>)
      modifies this
      ensures inner == ReadSequence(old(bytes))
      ensures bytes == if Read(old(bytes)).Ok? then Read(old(bytes)).value.rest else old(bytes)
    {
      var element := Next();
      match element
      case Err(error) => inner := Err(error);
      case Ok(e) => inner := if e.tag == SEQUENCE then Ok(e.content) else Err(NotASequence);
    }
  }

  function ReadSequence(bytes: Bytes): Result<Bytes, DerError> {
    match Read(bytes)
    case Err(error) => Err(error)
    case Ok(e) => if e.tag == SEQUENCE then Ok(e.content) else Err(NotASequence)
  }

  // ---------- what an element is ----------

  /** The identifier and length octets of an element: one identifier octet,
      then the length in the short form, or in the long form in at most four
      further octets (X.690, sections 8.1.2 and 8.1.3). */
  predicate IsHeader(header: Bytes, tag: Byte, len: nat) {
    && |header| >= 2 && header[0] == tag && tag % 32 != 31
    && (|| (header[1] < 0x80 && |header| == 2 && header[1] == len)
        || (0x81 <= header[1] <= 0x84 && |header| == 2 + header[1] - 0x80 && BigEndian(header[2..]) == len))
  }

  ghost predicate IsElement(e: Element) {
    exists header :: IsHeader(header, e.tag, |e.content|) && e.whole == header + e.content
  }

  /** A length is read exactly when the octets begin with one. */
  lemma LengthExactly(header: Bytes, tag: Byte, len: nat, rest: Bytes)
    requires tag % 32 != 31 && header != [] && header[0] == tag
    ensures Length(header[1..] + rest) == Ok((len, |header| - 1)) <==> IsHeader(header, tag, len)
  {
    hide BigEndian;
    var octets := header[1..] + rest;
    if |header| >= 2 {
      assert octets[0] == header[1];
      var n := |header| - 2;
      assert octets[1..1 + n] == header[2..];
    }
  }

  /** Reading gives exactly the element the bytes begin with, cut off
      exactly, and fails exactly when they begin with none. */
  lemma ReadExactly(bytes: Bytes, e: Element)
    ensures Read(bytes) == Ok(e) <==> IsElement(e) && bytes == e.whole + e.rest
  {
    hide Length, IsHeader, BigEndian;
    if Read(bytes) == Ok(e) {
      var header := bytes[..1 + Length(bytes[1..]).value.1];
      assert header[1..] + bytes[|header|..] == bytes[1..];
      LengthExactly(header, e.tag, |e.content|, bytes[|header|..]);
      assert e.whole == header + e.content;
      assert bytes == e.whole + e.rest;
    }
    if IsElement(e) && bytes == e.whole + e.rest {
      var header :| IsHeader(header, e.tag, |e.content|) && e.whole == header + e.content;
      HeaderStarts(header, e.tag, |e.content|);
      LengthExactly(header, e.tag, |e.content|, e.content + e.rest);
      assert bytes[1..] == header[1..] + (e.content + e.rest);
      assert bytes[0] == header[0];
      var n := |header|;
      assert bytes[n..n + |e.content|] == e.content;
      assert bytes[..n + |e.content|] == e.whole;
      assert bytes[n + |e.content|..] == e.rest;
    }
  }

  lemma HeaderStarts(header: Bytes, tag: Byte, len: nat)
    requires IsHeader(header, tag, len)
    ensures |header| >= 2 && header[0] == tag && tag % 32 != 31
  {
  }

  // ---------- the encoder ----------

  /** Identifier octets, as X.690 makes them up: the class in the two highest
      bits, then the form, then the number (section 8.1.2, table 1). */
  datatype Class = Universal | Application | ContextSpecific | Private

  datatype Form = Primitive | Constructed

  function Identifier(class_: Class, form: Form, number: nat): (tag: Byte)
    requires number < 31
    ensures tag % 32 == number
  {
    (match class_ case Universal => 0 case Application => 0x40 case ContextSpecific => 0x80 case Private => 0xc0)
    + (if form.Constructed? then 0x20 else 0) + number
  }

  /** INTEGER is universal 2, SEQUENCE is universal 16 (X.680, section 8). */
  function EncodeInteger(content: Bytes): Bytes
    requires |content| < 0x1_0000_0000
  {
    Encode(Identifier(Universal, Primitive, 2), content)
  }

  function EncodeSequence(content: Bytes): Bytes
    requires |content| < 0x1_0000_0000
  {
    Encode(Identifier(Universal, Constructed, 16), content)
  }

  /** `[0] EXPLICIT`. */
  function EncodeVersion(content: Bytes): Bytes
    requires |content| < 0x1_0000_0000
  {
    Encode(Identifier(ContextSpecific, Constructed, 0), content)
  }

  /** The shortest octets that spell `n`. */
  function Octets(n: nat): Bytes {
    if n == 0 then [] else Octets(n / 256) + [n % 256]
  }

  /** DER's own header: the length as short as it can be. */
  function Header(tag: Byte, len: nat): Bytes
    requires len < 0x1_0000_0000
  {
    if len < 0x80 then [tag, len]
    else
      OctetsFit(len, 4);
      [tag, (0x80 + |Octets(len)|) as Byte] + Octets(len)
  }

  function Encode(tag: Byte, content: Bytes): Bytes
    requires |content| < 0x1_0000_0000
  {
    Header(tag, |content|) + content
  }

  function Pow256(k: nat): nat {
    if k == 0 then 1 else 256 * Pow256(k - 1)
  }

  lemma {:induction false} OctetsFit(n: nat, k: nat)
    requires n < Pow256(k)
    ensures |Octets(n)| <= k && BigEndian(Octets(n)) == n
    ensures n > 0 ==> |Octets(n)| > 0
  {
    if n > 0 {
      OctetsFit(n / 256, k - 1);
      assert (Octets(n / 256) + [n % 256])[..|Octets(n)| - 1] == Octets(n / 256);
    }
  }

  /** Whatever DER encodes, with any identifier of one octet and any length
      below 2^32, is read back, and what follows it is left. */
  lemma ReadEncode(tag: Byte, content: Bytes, rest: Bytes)
    requires tag % 32 != 31 && |content| < 0x1_0000_0000
    ensures Read(Encode(tag, content) + rest) == Ok(Element(tag, content, Encode(tag, content), rest))
  {
    var header := Header(tag, |content|);
    assert Pow256(4) == 0x1_0000_0000;
    OctetsFit(|content|, 4);
    assert header[2..] == if |content| < 0x80 then [] else Octets(|content|);
    assert IsHeader(header, tag, |content|);
    var e := Element(tag, content, Encode(tag, content), rest);
    assert IsElement(e);
    ReadExactly(Encode(tag, content) + rest, e);
  }

  // ---------- the certificate ----------

  /** `n` elements after one another, skipped. */
  function Skip(bytes: Bytes, n: nat): Result<Bytes, DerError> {
    if n == 0 then Ok(bytes)
    else
      match Read(bytes)
      case Err(error) => Err(error)
      case Ok(e) => Skip(e.rest, n - 1)
  }

  /** The SubjectPublicKeyInfo inside the content of a tbsCertificate. */
  function SpkiIn(tbs: Bytes): Result<Bytes, DerError> {
    var before := if tbs != [] && tbs[0] == VERSION then 6 else 5;
    match Skip(tbs, before)
    case Err(error) => Err(error)
    case Ok(rest) =>
      match Read(rest)
      case Err(error) => Err(error)
      case Ok(e) => if e.tag == SEQUENCE then Ok(e.whole) else Err(NoSubjectPublicKeyInfo)
  }

  function SpkiOf(der: Bytes): Result<Bytes, DerError> {
    match ReadSequence(der)
    case Err(error) => Err(error)
    case Ok(certificate) =>
      match ReadSequence(certificate)
      case Err(error) => Err(error)
      case Ok(tbs) => SpkiIn(tbs)
  }

  /** The first element's tag decides whether a version is skipped; then
      five fields are, one after another. */
  method KeyInfo(content: Bytes) returns (spki: Result<Bytes, DerError>)
    ensures spki == SpkiIn(content)
  {
    hide Read;
    var tbs := new Cursor(content);
    ghost var total := if content != [] && content[0] == VERSION then 6 else 5;
    if content != [] && content[0] == VERSION {
      var version := tbs.Next();
      if version.Err? { return Err(version.error); }
    }
    for i := 0 to 5
      invariant Skip(content, total) == Skip(tbs.bytes, 5 - i)
    {
      var field := tbs.Next();
      if field.Err? { return Err(field.error); }
    }
    var key := tbs.Next();
    if key.Err? { return Err(key.error); }
    return if key.value.tag == SEQUENCE then Ok(key.value.whole) else Err(NoSubjectPublicKeyInfo);
  }

  /** The pin of a certificate: the digest of its SubjectPublicKeyInfo. */
  method SpkiPin<Digest>(der: Bytes, sha256: Bytes -> Digest) returns (pin: Result<Digest, DerError>)
    ensures pin == match SpkiOf(der) case Ok(spki) => Ok(sha256(spki)) case Err(error) => Err(error)
  {
    hide ReadSequence, SpkiIn;
    var outer := new Cursor(der);
    var inside := outer.Sequence();
    if inside.Err? { return Err(inside.error); }
    var certificate := new Cursor(inside.value);
    inside := certificate.Sequence();
    if inside.Err? { return Err(inside.error); }
    var spki := KeyInfo(inside.value);
    if spki.Err? { return Err(spki.error); }
    return Ok(sha256(spki.value));
  }

  /** What a certificate holds (RFC 5280, section 4.1): in its tbsCertificate
      the version, when it is not v1, and the contents of serialNumber,
      signature, issuer, validity, subject, and subjectPublicKeyInfo, then
      more; and behind that the signature. */
  datatype Certificate = Certificate(
    version: Option<Bytes>, serial: Bytes, algorithm: Bytes, issuer: Bytes, validity: Bytes, subject: Bytes,
    spki: Bytes, more: Bytes, signature: Bytes)

  predicate Fits(content: Bytes) {
    |content| < 0x1_0000_0000
  }

  predicate FieldsFit(c: Certificate) {
    && (c.version.Some? ==> Fits(c.version.value)) && Fits(c.serial) && Fits(c.algorithm) && Fits(c.issuer)
    && Fits(c.validity) && Fits(c.subject) && Fits(c.spki)
  }

  predicate WellFormed(c: Certificate) {
    FieldsFit(c) && Fits(Tbs(c)) && Fits(EncodeSequence(Tbs(c)) + c.signature)
  }

  /** From the serial number to the subject. */
  function FiveFields(c: Certificate): Bytes
    requires FieldsFit(c)
  {
    EncodeInteger(c.serial) + (EncodeSequence(c.algorithm) + (EncodeSequence(c.issuer)
    + (EncodeSequence(c.validity) + EncodeSequence(c.subject))))
  }

  function Tbs(c: Certificate): Bytes
    requires FieldsFit(c)
  {
    (if c.version.Some? then EncodeVersion(c.version.value) else [])
    + FiveFields(c) + EncodeSequence(c.spki) + c.more
  }

  function EncodeCertificate(c: Certificate): Bytes
    requires WellFormed(c)
  {
    EncodeSequence(EncodeSequence(Tbs(c)) + c.signature)
  }

  /** One element skipped, whatever its tag. */
  lemma SkipOne(tag: Byte, content: Bytes, rest: Bytes, n: nat)
    requires tag % 32 != 31 && Fits(content) && n > 0
    ensures Skip(Encode(tag, content) + rest, n) == Skip(rest, n - 1)
  {
    ReadEncode(tag, content, rest);
  }

  lemma SkipFive(c: Certificate, rest: Bytes)
    requires FieldsFit(c)
    ensures Skip(FiveFields(c) + rest, 5) == Ok(rest)
  {
    hide Encode, Skip, Read;
    var four := EncodeSequence(c.subject) + rest;
    var three := EncodeSequence(c.validity) + four;
    var two := EncodeSequence(c.issuer) + three;
    var one := EncodeSequence(c.algorithm) + two;
    assert FiveFields(c) + rest == EncodeInteger(c.serial) + one;
    SkipOne(Identifier(Universal, Primitive, 2), c.serial, one, 5);
    SkipOne(Identifier(Universal, Constructed, 16), c.algorithm, two, 4);
    SkipOne(Identifier(Universal, Constructed, 16), c.issuer, three, 3);
    SkipOne(Identifier(Universal, Constructed, 16), c.validity, four, 2);
    SkipOne(Identifier(Universal, Constructed, 16), c.subject, rest, 1);
    SkipNone(rest);
  }

  lemma SkipNone(bytes: Bytes)
    ensures Skip(bytes, 0) == Ok(bytes)
  {
  }

  predicate BeginsWithVersion(bytes: Bytes) {
    bytes != [] && bytes[0] == Identifier(ContextSpecific, Constructed, 0)
  }

  lemma KeyBehind(tbs: Bytes, spki: Bytes, more: Bytes)
    requires Fits(spki) && tbs != []
    requires Skip(tbs, if BeginsWithVersion(tbs) then 6 else 5) == Ok(EncodeSequence(spki) + more)
    ensures SpkiIn(tbs) == Ok(EncodeSequence(spki))
  {
    hide Skip, Read, Encode;
    ReadEncode(Identifier(Universal, Constructed, 16), spki, more);
  }

  /** The version is skipped, and nothing else is taken for one. */
  lemma SkipToKey(c: Certificate)
    requires FieldsFit(c)
    ensures SpkiIn(Tbs(c)) == Ok(EncodeSequence(c.spki))
  {
    hide Encode, Skip, Read, SpkiIn, FiveFields;
    var tbs, key := Tbs(c), EncodeSequence(c.spki) + c.more;
    var fields := FiveFields(c) + key;
    SkipFive(c, key);
    if c.version.Some? {
      FirstByte(Identifier(ContextSpecific, Constructed, 0), c.version.value);
      SkipOne(Identifier(ContextSpecific, Constructed, 0), c.version.value, fields, 6);
      assert tbs == EncodeVersion(c.version.value) + fields;
    } else {
      SerialFirst(c);
      assert tbs == fields;
    }
    KeyBehind(tbs, c.spki, c.more);
  }

  lemma SerialFirst(c: Certificate)
    requires FieldsFit(c)
    ensures FiveFields(c) != [] && FiveFields(c)[0] == Identifier(Universal, Primitive, 2)
  {
    hide Encode;
    FirstByte(Identifier(Universal, Primitive, 2), c.serial);
  }

  /** Of every certificate, with or without a version, and whatever follows
      it, the SubjectPublicKeyInfo's own encoding is found. */
  lemma SpkiOfCertificate(c: Certificate, trailing: Bytes)
    requires WellFormed(c)
    ensures SpkiOf(EncodeCertificate(c) + trailing) == Ok(EncodeSequence(c.spki))
  {
    SkipToKey(c);
    ReadEncode(Identifier(Universal, Constructed, 16), EncodeSequence(Tbs(c)) + c.signature, trailing);
    ReadEncode(Identifier(Universal, Constructed, 16), Tbs(c), c.signature);
  }

  lemma FirstByte(tag: Byte, content: Bytes)
    requires |content| < 0x1_0000_0000
    ensures |Encode(tag, content)| >= 2 && Encode(tag, content)[0] == tag
  {
  }

  // ---------- any bytes ----------

  predicate IsSequence(e: Element) {
    e.tag == Identifier(Universal, Constructed, 16)
  }

  /** `rest` stands behind the first `n` elements of `bytes`. */
  ghost predicate StandsBehind(rest: Bytes, bytes: Bytes, n: nat)
    decreases n
  {
    if n == 0 then rest == bytes
    else exists e :: IsElement(e) && bytes == e.whole + e.rest && StandsBehind(rest, e.rest, n - 1)
  }

  lemma {:induction false} SkipExactly(bytes: Bytes, n: nat, rest: Bytes)
    ensures Skip(bytes, n) == Ok(rest) <==> StandsBehind(rest, bytes, n)
    decreases n
  {
    hide Read, IsElement;
    if n > 0 {
      if Read(bytes).Ok? {
        var e := Read(bytes).value;
        ReadExactly(bytes, e);
        SkipExactly(e.rest, n - 1, rest);
      }
      if e :| IsElement(e) && bytes == e.whole + e.rest && StandsBehind(rest, e.rest, n - 1) {
        ReadExactly(bytes, e);
      }
    }
  }

  /** `key` is the SEQUENCE that stands in `der` inside its first SEQUENCE,
      inside its outer SEQUENCE, after five elements, or after six when the
      first is a version. */
  ghost predicate HoldsKey(der: Bytes, outer: Element, tbs: Element, key: Element) {
    && IsElement(outer) && IsSequence(outer) && der == outer.whole + outer.rest
    && IsElement(tbs) && IsSequence(tbs) && outer.content == tbs.whole + tbs.rest
    && IsElement(key) && IsSequence(key)
    && StandsBehind(key.whole + key.rest, tbs.content, if BeginsWithVersion(tbs.content) then 6 else 5)
  }

  /** For any bytes at all, what is hashed is exactly that element, and
      without one there is no pin. */
  lemma SpkiExactly(der: Bytes, spki: Bytes)
    ensures SpkiOf(der) == Ok(spki)
       <==> exists outer, tbs, key :: HoldsKey(der, outer, tbs, key) && key.whole == spki
  {
    hide Read, IsElement, Skip, StandsBehind;
    if SpkiOf(der) == Ok(spki) {
      var outer := Read(der).value;
      ReadExactly(der, outer);
      var tbs := Read(outer.content).value;
      ReadExactly(outer.content, tbs);
      var before := if BeginsWithVersion(tbs.content) then 6 else 5;
      var rest := Skip(tbs.content, before).value;
      var key := Read(rest).value;
      ReadExactly(rest, key);
      SkipExactly(tbs.content, before, rest);
      assert HoldsKey(der, outer, tbs, key);
    }
    if outer, tbs, key :| HoldsKey(der, outer, tbs, key) && key.whole == spki {
      ReadExactly(der, outer);
      ReadExactly(outer.content, tbs);
      ReadExactly(key.whole + key.rest, key);
      SkipExactly(tbs.content, if BeginsWithVersion(tbs.content) then 6 else 5, key.whole + key.rest);
    }
  }
}
