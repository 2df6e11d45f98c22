/** TLS public-key pins as text: `sha256/<base64>`, or curl's
    `sha256//<base64>`. */
module TlsPins {
  import opened Prelude
  import opened Base64

  type Pin = b: Bytes | |b| == 32 witness Repeat(0 as Byte, 32)

  const PREFIX: string := "sha256/"
  const CURL_PREFIX: string := "sha256//"

  datatype PinError = NoPrefix | Not32Bytes

  /** Unicode white space, which `trim` removes. */
  predicate IsWhiteSpace(c: char) {
    var n := c as int;
    9 <= n <= 13 || n == 0x20 || n == 0x85 || n == 0xA0 || n == 0x1680 || 0x2000 <= n <= 0x200A
    || n == 0x2028 || n == 0x2029 || n == 0x202F || n == 0x205F || n == 0x3000
  }

  function TrimStart(text: string): (t: string)
    ensures t == [] || !IsWhiteSpace(t[0])
  {
    if text != [] && IsWhiteSpace(text[0]) then TrimStart(text[1..]) else text
  }

  function TrimEnd(text: string): (t: string)
    ensures t <= text
    ensures t == [] || !IsWhiteSpace(t[|t| - 1])
  {
    if text != [] && IsWhiteSpace(text[|text| - 1]) then TrimEnd(text[..|text| - 1]) else text
  }

  function Trim(text: string): string {
    TrimEnd(TrimStart(text))
  }

  /** `encoded` as 32 bytes. */
  function PinBytes(encoded: string): Option<Pin> {
    match Decoded(encoded)
    case Some(bytes) => if |bytes| == 32 then Some(bytes) else None
    case None => None
  }

  function Parse(text: string): Result<Pin, PinError> {
    var t := Trim(text);
    if !(PREFIX <= t) then Err(NoPrefix)
    else
      var plain := PinBytes(t[|PREFIX|..]);
      if plain.Some? then Ok(plain.value)
      else if CURL_PREFIX <= t then
        (match PinBytes(t[|CURL_PREFIX|..])
         case Some(pin) => Ok(pin)
         case None => Err(Not32Bytes))
      else Err(Not32Bytes)
  }

  function Print(pin: Pin): string {
    PREFIX + Encoded(pin)
  }

  /** 32 bytes take exactly 44 characters. */
  lemma PinLength(encoded: string)
    requires PinBytes(encoded).Some?
    ensures |encoded| == 44
  {
    DecodedLength(encoded);
  }

  /** No text is a pin under both readings. */
  lemma ReadingsExclude(text: string)
    requires CURL_PREFIX <= text
    ensures PinBytes(text[|PREFIX|..]).None? || PinBytes(text[|CURL_PREFIX|..]).None?
  {
    if PinBytes(text[|PREFIX|..]).Some? && PinBytes(text[|CURL_PREFIX|..]).Some? {
      PinLength(text[|PREFIX|..]);
      PinLength(text[|CURL_PREFIX|..]);
    }
  }

  predicate IsBlank(text: string) {
    forall c :: c in text ==> IsWhiteSpace(c)
  }

  /** Trimming cuts white space off both ends. */
  lemma {:induction false} TrimCuts(text: string) returns (before: string, after: string)
    ensures text == before + Trim(text) + after && IsBlank(before) && IsBlank(after)
    decreases |text|
  {
    if text == "" {
      before, after := "", "";
    } else if IsWhiteSpace(text[0]) {
      before, after := TrimCuts(text[1..]);
      before := [text[0]] + before;
    } else {
      before := "";
      after := TrimEndCuts(text);
      assert TrimStart(text) == text;
    }
  }

  lemma {:induction false} TrimEndCuts(text: string) returns (after: string)
    ensures text == TrimEnd(text) + after && IsBlank(after)
  {
    after := "";
    if text != "" && IsWhiteSpace(text[|text| - 1]) {
      after := TrimEndCuts(text[..|text| - 1]);
      after := after + [text[|text| - 1]];
    }
  }

  /** A pin's base64 is not empty and does not end in white space. */
  lemma PinEnds(encoded: string)
    requires PinBytes(encoded).Some?
    ensures encoded != "" && !IsWhiteSpace(encoded[|encoded| - 1])
  {
    DecodesExactly(encoded);
    var last := encoded[|encoded| - 1];
    assert encoded[|encoded| - 4..][3] == last;
    assert last == PAD || Position(last).Some?;
  }

  /** `text` is `encoded` behind either prefix, with white space around them. */
  predicate IsForm(text: string, before: string, encoded: string, after: string) {
    && IsBlank(before) && IsBlank(after)
    && (text == before + "sha256/" + encoded + after || text == before + "sha256//" + encoded + after)
  }

  /** Exactly the texts a pin is read from: the two forms, with white space
      around them, whichever reading is tried first. */
  lemma ParseExactly(text: string, pin: Pin)
    ensures Parse(text) == Ok(pin)
       <==> exists before, encoded, after :: IsForm(text, before, encoded, after) && PinBytes(encoded) == Some(pin)
  {
    hide PinBytes, Trim, IsBlank;
    if Parse(text) == Ok(pin) {
      var t := Trim(text);
      var before, after := TrimCuts(text);
      var encoded := t[if PinBytes(t[|PREFIX|..]).Some? then |PREFIX| else |CURL_PREFIX|..];
      assert t == PREFIX + encoded || t == CURL_PREFIX + encoded;
      assert before + (PREFIX + encoded) + after == before + "sha256/" + encoded + after;
      assert before + (CURL_PREFIX + encoded) + after == before + "sha256//" + encoded + after;
      assert IsForm(text, before, encoded, after);
    }
    if before, encoded, after :| IsForm(text, before, encoded, after) && PinBytes(encoded) == Some(pin) {
      if text == before + "sha256/" + encoded + after {
        ParseForm(before, PREFIX, encoded, after, pin);
      } else {
        ParseForm(before, CURL_PREFIX, encoded, after, pin);
      }
    }
  }

  lemma ParseForm(before: string, prefix: string, encoded: string, after: string, pin: Pin)
    requires IsBlank(before) && IsBlank(after) && PinBytes(encoded) == Some(pin)
    requires prefix == PREFIX || prefix == CURL_PREFIX
    ensures Parse(before + prefix + encoded + after) == Ok(pin)
  {
    hide PinBytes, Trim;
    PinEnds(encoded);
    var t := prefix + encoded;
    assert !IsWhiteSpace(t[0]) && t[|t| - 1] == encoded[|encoded| - 1];
    TrimKeeps(before, t, after);
    assert before + t + after == before + prefix + encoded + after;
    assert t[|prefix|..] == encoded;
    if prefix == CURL_PREFIX {
      assert CURL_PREFIX == PREFIX + "/" && PREFIX <= t && CURL_PREFIX <= t;
      ReadingsExclude(t);
    }
  }

  lemma {:induction false} TrimEndKeeps(core: string, after: string)
    requires core != [] && !IsWhiteSpace(core[|core| - 1]) && IsBlank(after)
    ensures TrimEnd(core + after) == core
  {
    if after == [] {
      assert core + after == core;
    } else {
      assert (core + after)[..|core + after| - 1] == core + after[..|after| - 1];
      assert (core + after)[|core + after| - 1] in after;
      TrimEndKeeps(core, after[..|after| - 1]);
    }
  }

  lemma {:induction false} TrimKeeps(before: string, core: string, after: string)
    requires core != [] && !IsWhiteSpace(core[0]) && !IsWhiteSpace(core[|core| - 1])
    requires IsBlank(before) && IsBlank(after)
    ensures Trim(before + core + after) == core
  {
    if before == [] {
      assert before + core + after == core + after;
      assert TrimStart(core + after) == core + after;
      TrimEndKeeps(core, after);
    } else {
      assert before[0] in before;
      assert (before + core + after)[1..] == before[1..] + core + after;
      TrimKeeps(before[1..], core, after);
    }
  }

  /** A pin reads back from its printed form and from curl's, with any white
      space around it, and even when its base64 starts with a slash. */
  lemma PinRoundTrip(pin: Pin, before: string, after: string)
    requires IsBlank(before) && IsBlank(after)
    ensures Parse(before + Print(pin) + after) == Ok(pin) && Print(pin) == "sha256/" + Encoded(pin)
    ensures Parse(before + "sha256//" + Encoded(pin) + after) == Ok(pin)
  {
    hide Decoded, Encoded;
    DecodeEncode(pin);
    ParseForm(before, PREFIX, Encoded(pin), after, pin);
    ParseForm(before, CURL_PREFIX, Encoded(pin), after, pin);
    assert before + (PREFIX + Encoded(pin)) + after == before + PREFIX + Encoded(pin) + after;
  }
}
