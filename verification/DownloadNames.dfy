/** The names a download may give its files. */
module DownloadNames {
  import opened Prelude
  import Ids = ItemIds

  const PART_SUFFIX: string := ".passalong-part"
  const MAX_NUMBERED_NAMES: nat := 999

  /** A number in decimal digits. */
  function Decimal(n: nat): (text: string)
    ensures text != "" && (n < 10 ==> |text| == 1) && (n < 100 ==> |text| <= 2) && (n < 1000 ==> |text| <= 3)
  {
    if n < 10 then ['0' + n as char] else Decimal(n / 10) + ['0' + (n % 10) as char]
  }

  predicate IsDigit(c: char) {
    '0' <= c <= '9'
  }

  /** The number decimal digits spell. */
  function DecimalValue(text: string): nat
    requires forall c :: c in text ==> IsDigit(c)
  {
    if text == "" then 0
    else
      assert IsDigit(text[|text| - 1]);
      10 * DecimalValue(text[..|text| - 1]) + (text[|text| - 1] as nat - '0' as nat)
  }

  /** It is spelled with digits, and with no zero in front. */
  lemma {:induction false} DecimalSpells(n: nat)
    ensures forall c :: c in Decimal(n) ==> IsDigit(c)
    ensures DecimalValue(Decimal(n)) == n
    ensures n > 0 ==> Decimal(n)[0] != '0'
  {
    var text := Decimal(n);
    if n >= 10 {
      DecimalSpells(n / 10);
      assert text[..|text| - 1] == Decimal(n / 10) && text[|text| - 1] == '0' + (n % 10) as char;
      assert text[|text| - 1] as nat - '0' as nat == n % 10;
    } else {
      assert text[..|text| - 1] == "" && text[0] as nat - '0' as nat == n;
    }
  }

  lemma DecimalInjective(m: nat, n: nat)
    requires Decimal(m) == Decimal(n)
    ensures m == n
  {
    DecimalSpells(m);
    DecimalSpells(n);
  }

  /** Where the last dot is. */
  function LastDot(name: string): (dot: Option<nat>)
    ensures dot.Some? ==> dot.value < |name| && name[dot.value] == '.' && '.' !in name[dot.value + 1..]
    ensures dot.None? ==> '.' !in name
  {
    if name == "" then None
    else if name[|name| - 1] == '.' then Some(|name| - 1)
    else LastDot(name[..|name| - 1])
  }

  /** Where a number goes: before the extension, which a leading or a trailing
      dot does not begin, and otherwise at the end. */
  function NumberGoesAt(name: string): (at: nat)
    ensures at <= |name|
  {
    var dot := LastDot(name);
    if dot.Some? && dot.value > 0 && dot.value + 1 < |name| then dot.value else |name|
  }

  function NumberedName(name: string, n: nat): string {
    var at := NumberGoesAt(name);
    name[..at] + (" (" + Decimal(n) + ")") + name[at..]
  }

  function CandidateName(name: string, n: nat): string {
    if n == 0 then name else NumberedName(name, n)
  }

  /** The part file of a download whose generator gave `random`. */
  function PartName(name: string, random: nat): string {
    assert Ids.Pow16(8) == 0x1_0000_0000 by {
      assert Ids.Pow16(4) == 0x1_0000;
    }
    name + "." + Ids.Hex(random % 0x1_0000_0000, 8) + PART_SUFFIX
  }

  /** The name and its numbered forms are all different. */
  lemma CandidatesDistinct(name: string, m: nat, n: nat)
    requires m != n
    ensures CandidateName(name, m) != CandidateName(name, n)
  {
    hide Decimal, NumberGoesAt;
    if m > 0 && n > 0 && NumberedName(name, m) == NumberedName(name, n) {
      var at := NumberGoesAt(name);
      MiddleIsEqual(name[..at], " (" + Decimal(m) + ")", " (" + Decimal(n) + ")", name[at..]);
      MiddleIsEqual(" (", Decimal(m), Decimal(n), ")");
      DecimalInjective(m, n);
    }
  }

  lemma MiddleIsEqual(a: string, x: string, y: string, b: string)
    requires a + x + b == a + y + b
    ensures x == y
  {
    assert |x| == |y|;
    assert (a + x + b)[|a|..|a| + |x|] == x;
    assert (a + y + b)[|a|..|a| + |y|] == y;
  }

  /** No candidate of a download is the part file of a download of that name. */
  lemma PartIsNoCandidate(name: string, random: nat, n: nat)
    requires n <= MAX_NUMBERED_NAMES
    ensures PartName(name, random) != CandidateName(name, n)
  {
    hide Decimal, NumberGoesAt;
    assert |PartName(name, random)| == |name| + 24;
  }

  /** The first candidate is the name; the others keep the extension and what
      comes before it. */
  lemma ExtensionKept(stem: string, extension: string, n: nat)
    requires stem != "" && extension != "" && '.' !in extension
    ensures CandidateName(stem + "." + extension, n) ==
      if n == 0 then stem + "." + extension else stem + " (" + Decimal(n) + ")." + extension
  {
    hide Decimal;
    LastDotAt(stem, extension);
    var name := stem + "." + extension;
    assert name[..|stem|] == stem && name[|stem|..] == "." + extension;
  }

  /** In every other name, one without a dot or with none but a leading or a
      trailing one, the number stands at the end. */
  lemma NoExtension(name: string, n: nat)
    requires '.' !in name || name[|name| - 1] == '.' || (name[0] == '.' && '.' !in name[1..])
    ensures CandidateName(name, n) == if n == 0 then name else name + " (" + Decimal(n) + ")"
  {
    hide Decimal;
    if name != "" && name[0] == '.' && '.' !in name[1..] {
      LastDotAt("", name[1..]);
      assert name == "" + "." + name[1..];
    }
    assert NumberGoesAt(name) == |name|;
    assert name[..|name|] == name && name[|name|..] == "";
  }

  /** A part's name: the download's, eight hex digits of its random number,
      and the suffix. */
  lemma PartForm(name: string, random: nat)
    ensures exists digits ::
      && PartName(name, random) == name + "." + digits + ".passalong-part"
      && Ids.IsLowerHex(digits, 8) && Ids.HexNumber(digits) == random % 0x1_0000_0000
  {
    assert Ids.Pow16(8) == 0x1_0000_0000 by {
      assert Ids.Pow16(4) == 0x1_0000;
    }
    hide Ids.Hex, Ids.HexNumber, Ids.Pow16;
    Ids.NumberOfHex(random % 0x1_0000_0000, 8);
  }

  lemma {:induction false} LastDotAt(stem: string, extension: string)
    requires '.' !in extension
    ensures LastDot(stem + "." + extension) == Some(|stem|)
    decreases |extension|
  {
    var name := stem + "." + extension;
    if extension == "" {
      assert name == stem + ".";
    } else {
      assert name[..|name| - 1] == stem + "." + extension[..|extension| - 1];
      LastDotAt(stem, extension[..|extension| - 1]);
    }
  }
}
