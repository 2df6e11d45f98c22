/** Item ids, `<8 hex digits of seconds>-<12 hex digits of content key>`,
    whose text order is their order in time. */
module ItemIds {
  import opened Prelude

  const SECONDS_DIGITS: nat := 8
  const KEY_DIGITS: nat := 12
  const NANOS: nat := 1_000_000_000
  const KEYS: nat := 0x1_0000_0000_0000
  const SECONDS: nat := 0x1_0000_0000

  // ---------- hex numbers of a fixed width ----------

  function Pow16(w: nat): (p: nat)
    ensures p > 0
  {
    if w == 0 then 1 else 16 * Pow16(w - 1)
  }

  predicate IsLowerHexDigit(c: char) {
    '0' <= c <= '9' || 'a' <= c <= 'f'
  }

  predicate IsLowerHex(text: string, width: nat) {
    |text| == width && forall k :: 0 <= k < |text| ==> IsLowerHexDigit(text[k])
  }

  function DigitValue(c: char): (v: nat)
    requires IsLowerHexDigit(c)
    ensures v < 16
  {
    if c <= '9' then c as nat - '0' as nat else c as nat - 'a' as nat + 10
  }

  function HexDigit(v: nat): (c: char)
    requires v < 16
    ensures IsLowerHexDigit(c) && DigitValue(c) == v
  {
    if v < 10 then '0' + v as char else 'a' + (v - 10) as char
  }

  /** `n` in exactly `width` digits. */
  function Hex(n: nat, width: nat): (text: string)
    requires n < Pow16(width)
    ensures IsLowerHex(text, width)
  {
    if width == 0 then []
    else
      DivSmall(n, Pow16(width - 1), 16);
      [HexDigit(n / Pow16(width - 1))] + Hex(n % Pow16(width - 1), width - 1)
  }

  lemma DivSmall(n: nat, p: nat, q: nat)
    requires p > 0 && n < q * p
    ensures n / p < q
  {
    var d := n / p;
    assert d * p <= n;
    if d >= q { MulMonotone(q, d, p); }
  }

  lemma MulMonotone(a: nat, b: nat, p: nat)
    requires a <= b
    ensures a * p <= b * p
  {
  }

  function HexNumber(text: string): (n: nat)
    requires IsLowerHex(text, |text|)
    ensures n < Pow16(|text|)
  {
    if text == [] then 0
    else
      var p := Pow16(|text| - 1);
      MulMonotone(DigitValue(text[0]), 15, p);
      DigitValue(text[0]) * p + HexNumber(text[1..])
  }

  lemma DivOfSum(d: nat, r: nat, p: nat)
    requires r < p
    ensures (d * p + r) / p == d && (d * p + r) % p == r
  {
    var n := d * p + r;
    assert n == n / p * p + n % p;
    if n / p < d { MulMonotone(n / p + 1, d, p); }
    if n / p > d { MulMonotone(d + 1, n / p, p); }
  }

  /** Two-digit numbers are ordered by the first digit, then the second. */
  lemma TwoDigits(x: nat, r: nat, y: nat, s: nat, p: nat)
    requires r < p && s < p
    ensures x * p + r < y * p + s <==> x < y || (x == y && r < s)
    ensures x * p + r == y * p + s <==> x == y && r == s
  {
    if x < y { MulMonotone(x + 1, y, p); }
    if y < x { MulMonotone(y + 1, x, p); }
  }

  lemma {:induction false} HexOfNumber(text: string)
    requires IsLowerHex(text, |text|)
    ensures Hex(HexNumber(text), |text|) == text
  {
    if text != [] {
      var d, r := DigitValue(text[0]), HexNumber(text[1..]);
      DivOfSum(d, r, Pow16(|text| - 1));
      HexOfNumber(text[1..]);
      assert text == [text[0]] + text[1..];
    }
  }

  lemma HexNumberCons(q: nat, rest: string)
    requires q < 16 && IsLowerHex(rest, |rest|)
    ensures IsLowerHex([HexDigit(q)] + rest, |rest| + 1)
    ensures HexNumber([HexDigit(q)] + rest) == q * Pow16(|rest|) + HexNumber(rest)
  {
    assert ([HexDigit(q)] + rest)[1..] == rest;
  }

  lemma DivMod(n: nat, p: nat)
    requires p > 0
    ensures n / p * p + n % p == n
  {
  }

  lemma {:induction false} NumberOfHex(n: nat, width: nat)
    requires n < Pow16(width)
    ensures HexNumber(Hex(n, width)) == n
  {
    if width > 0 {
      hide HexNumber;
      var p := Pow16(width - 1);
      DivSmall(n, p, 16);
      DivMod(n, p);
      NumberOfHex(n % p, width - 1);
      HexNumberCons(n / p, Hex(n % p, width - 1));
    }
  }

  /** The order of texts, character by character. */
  predicate Less(a: string, b: string) {
    if b == [] then false
    else if a == [] then true
    else a[0] < b[0] || (a[0] == b[0] && Less(a[1..], b[1..]))
  }

  lemma DigitOrder(c: char, d: char)
    requires IsLowerHexDigit(c) && IsLowerHexDigit(d)
    ensures DigitValue(c) < DigitValue(d) <==> c < d
    ensures DigitValue(c) == DigitValue(d) <==> c == d
  {
  }

  /** Equally long hex texts are ordered as the numbers they spell. */
  lemma {:induction false} HexOrder(a: string, b: string)
    requires |a| == |b| && IsLowerHex(a, |a|) && IsLowerHex(b, |b|)
    ensures Less(a, b) <==> HexNumber(a) < HexNumber(b)
    ensures a == b <==> HexNumber(a) == HexNumber(b)
  {
    hide Pow16;
    if a != [] {
      HexOrder(a[1..], b[1..]);
      DigitOrder(a[0], b[0]);
      TwoDigits(DigitValue(a[0]), HexNumber(a[1..]), DigitValue(b[0]), HexNumber(b[1..]), Pow16(|a| - 1));
      assert a == [a[0]] + a[1..] && b == [b[0]] + b[1..];
    }
  }

  lemma {:induction false} LessConcat(a: string, b: string, x: string, y: string)
    requires |a| == |b|
    ensures Less(a + x, b + y) <==> Less(a, b) || (a == b && Less(x, y))
  {
    if a == [] {
      assert a + x == x && b + y == y;
    } else {
      assert (a + x)[1..] == a[1..] + x && (b + y)[1..] == b[1..] + y;
      LessConcat(a[1..], b[1..], x, y);
      assert a == b <==> a[0] == b[0] && a[1..] == b[1..];
    }
  }

  // ---------- ids ----------

  type ContentKey = k: string | IsLowerHex(k, KEY_DIGITS) witness "000000000000"

  datatype ItemId = ItemId(repr: string, secs: nat, key: string)

  datatype IdError = TimestampOutOfRange | InvalidItemId

  /** What `New` and `Parse` make, and nothing else does. */
  predicate Valid(id: ItemId) {
    && id.secs < Pow16(SECONDS_DIGITS) && IsLowerHex(id.key, KEY_DIGITS)
    && id.repr == Hex(id.secs, SECONDS_DIGITS) + "-" + id.key
  }

  /** The id of content with `key` created at `createdAt`, in nanoseconds
      since the epoch. */
  function New(createdAt: int, key: ContentKey): Result<ItemId, IdError> {
    var secs := createdAt / NANOS;
    if secs < 0 || secs >= SECONDS then Err(TimestampOutOfRange)
    else
      Powers();
      Ok(ItemId(Hex(secs, SECONDS_DIGITS) + "-" + key, secs, key))
  }

  /** The creation time an id names, in nanoseconds. */
  function Timestamp(id: ItemId): int {
    id.secs * NANOS
  }

  /** Where the first `-` of `text` is; its length when there is none. */
  function FirstDash(text: string): (k: nat)
    ensures k <= |text| && (k < |text| ==> text[k] == '-')
    ensures forall j :: 0 <= j < k ==> text[j] != '-'
  {
    if text == [] || text[0] == '-' then 0 else 1 + FirstDash(text[1..])
  }

  function Parse(text: string): Result<ItemId, IdError> {
    var dash := FirstDash(text);
    if dash == |text| then Err(InvalidItemId)
    else
      var ts, key := text[..dash], text[dash + 1..];
      if !IsLowerHex(ts, SECONDS_DIGITS) || !IsLowerHex(key, KEY_DIGITS) then Err(InvalidItemId)
      else Ok(ItemId(text, HexNumber(ts), key))
  }

  lemma Powers()
    ensures Pow16(SECONDS_DIGITS) == SECONDS && Pow16(KEY_DIGITS) == KEYS
  {
    assert Pow16(4) == 0x1_0000 && Pow16(8) == SECONDS;
  }

  /** Ids are made valid, print as themselves, and parse back; any other
      text is refused. */
  lemma ParseExactly(text: string, id: ItemId)
    ensures Parse(text) == Ok(id) <==> Valid(id) && text == id.repr
  {
    if Parse(text) == Ok(id) {
      var dash := FirstDash(text);
      assert text == text[..dash] + "-" + text[dash + 1..];
      HexOfNumber(text[..dash]);
    }
    if Valid(id) && text == id.repr {
      var ts := Hex(id.secs, SECONDS_DIGITS);
      NumberOfHex(id.secs, SECONDS_DIGITS);
      assert text[..8] == ts && text[8] == '-' && text[9..] == id.key;
      assert forall j :: 0 <= j < 8 ==> text[j] == ts[j] && text[j] != '-';
      assert FirstDash(text) == 8;
    }
  }

  /** An id of the current time parses back to itself, and keeps its second
      and its key; only times outside 32 bits of seconds get none. */
  lemma NewRoundTrip(createdAt: int, key: ContentKey)
    ensures New(createdAt, key).Ok? <==> 0 <= createdAt < SECONDS * NANOS
    ensures New(createdAt, key).Ok? ==>
      var id := New(createdAt, key).value;
      && Parse(id.repr) == Ok(id)
      && id.key == key && Timestamp(id) <= createdAt < Timestamp(id) + NANOS
      && New(Timestamp(id), key) == Ok(id)
  {
    Powers();
    if New(createdAt, key).Ok? {
      ParseExactly(New(createdAt, key).value.repr, New(createdAt, key).value);
    }
  }

  // ---------- order ----------

  /** The derived order of ids: by text, then by the other fields. */
  predicate IdLess(a: ItemId, b: ItemId) {
    || Less(a.repr, b.repr)
    || (a.repr == b.repr && (a.secs < b.secs || (a.secs == b.secs && Less(a.key, b.key))))
  }

  /** An id as one number: its digits without the dash. */
  function Rank(id: ItemId): nat
    requires Valid(id)
  {
    id.secs * KEYS + HexNumber(id.key)
  }

  /** The second a rank names. */
  function RankSeconds(rank: nat): nat {
    rank / KEYS
  }

  /** Ids are ordered as text exactly as their seconds and then their keys
      are, which is the order of their ranks; and a rank names one id. */
  lemma TextOrderIsTimeOrder(a: ItemId, b: ItemId)
    requires Valid(a) && Valid(b)
    ensures IdLess(a, b) <==> a.secs < b.secs || (a.secs == b.secs && Less(a.key, b.key))
    ensures IdLess(a, b) <==> Rank(a) < Rank(b)
    ensures a == b <==> Rank(a) == Rank(b)
    ensures RankSeconds(Rank(a)) == a.secs && Rank(a) < SECONDS * KEYS
  {
    hide Hex, HexNumber, Pow16;
    Powers();
    var x, y := Hex(a.secs, SECONDS_DIGITS), Hex(b.secs, SECONDS_DIGITS);
    NumberOfHex(a.secs, SECONDS_DIGITS);
    NumberOfHex(b.secs, SECONDS_DIGITS);
    HexOrder(x, y);
    HexOrder(a.key, b.key);
    assert a.repr == x + ("-" + a.key) && b.repr == y + ("-" + b.key);
    LessConcat(x, y, "-" + a.key, "-" + b.key);
    LessConcat("-", "-", a.key, b.key);
    assert !Less("-", "-");
    SameText(a, b);
    NotBoth(a.key, b.key);
    TwoDigits(a.secs, HexNumber(a.key), b.secs, HexNumber(b.key), KEYS);
    DivOfSum(a.secs, HexNumber(a.key), KEYS);
    MulMonotone(a.secs, SECONDS - 1, KEYS);
  }

  lemma SameText(a: ItemId, b: ItemId)
    requires Valid(a) && Valid(b)
    ensures a.repr == b.repr <==> a == b
  {
    if a.repr == b.repr {
      ParseExactly(a.repr, a);
      ParseExactly(a.repr, b);
    }
  }

  lemma {:induction false} NotBoth(a: string, b: string)
    ensures !(Less(a, b) && a == b)
  {
    if a != [] && b != [] {
      NotBoth(a[1..], b[1..]);
    }
  }

  /** Every rank below 2^80 is the rank of one id. */
  lemma RankIsOnto(rank: nat) returns (id: ItemId)
    requires rank < SECONDS * KEYS
    ensures Valid(id) && Rank(id) == rank
  {
    hide Hex, HexNumber;
    Powers();
    DivMod(rank, KEYS);
    DivSmall(rank, KEYS, SECONDS);
    var key: ContentKey := Hex(rank % KEYS, KEY_DIGITS);
    NumberOfHex(rank % KEYS, KEY_DIGITS);
    id := New(rank / KEYS * NANOS, key).value;
  }

  // ---------- the same item under another key ----------

  /** What an id is made from: `finish_keyed` records the id's own time. */
  datatype Meta = Meta(id: ItemId, createdAt: int, sha256: string, size: nat)

  predicate Finished(meta: Meta) {
    Valid(meta.id) && meta.createdAt == Timestamp(meta.id)
  }

  /** The item's id in another store, which derives content keys in its own
      way. */
  function IdFor(meta: Meta, contentKey: (string, nat) -> ContentKey): Result<ItemId, IdError> {
    New(meta.createdAt, contentKey(meta.sha256, meta.size))
  }

  predicate NewestFirst(metas: seq<Meta>) {
    forall i, j :: 0 <= i < j < |metas| ==> IdLess(metas[j].id, metas[i].id)
  }

  /** Re-keying gives every item an id with its old second and the new key. */
  lemma RekeyKeepsTheSecond(meta: Meta, contentKey: (string, nat) -> ContentKey)
    requires Finished(meta)
    ensures IdFor(meta, contentKey).Ok?
    ensures var id := IdFor(meta, contentKey).value;
      Valid(id) && id.secs == meta.id.secs && id.key == contentKey(meta.sha256, meta.size)
  {
    Powers();
  }

  /** Re-keying a newest-first list keeps it newest first, except that items
      of one second may trade places. */
  lemma RekeyKeepsOrder(metas: seq<Meta>, contentKey: (string, nat) -> ContentKey, i: nat, j: nat)
    requires NewestFirst(metas) && i < j < |metas|
    requires forall k :: 0 <= k < |metas| ==> Finished(metas[k])
    ensures IdFor(metas[i], contentKey).Ok? && IdFor(metas[j], contentKey).Ok?
    ensures var a, b := IdFor(metas[i], contentKey).value, IdFor(metas[j], contentKey).value;
      IdLess(b, a) <==> metas[j].id.secs < metas[i].id.secs || Less(b.key, a.key)
  {
    assert Finished(metas[i]) && Finished(metas[j]);
    RekeyKeepsTheSecond(metas[i], contentKey);
    RekeyKeepsTheSecond(metas[j], contentKey);
    TextOrderIsTimeOrder(metas[j].id, metas[i].id);
    TextOrderIsTimeOrder(IdFor(metas[j], contentKey).value, IdFor(metas[i], contentKey).value);
  }
}
