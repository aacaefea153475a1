/** The text built from a service-class mask; the class bits are those of section 7.11 of 3GPP TS 27.007. */
module ServiceClass {
  const DEDICATED_PAD_ACCESS := 128

  function GetServiceClassName(mask: int): string {
    match mask
    case 1 => "Voice"
    case 4 => "Fax"
    case 8 => "Message"
    case 16 => "Sync"
    case 32 => "Async"
    case 64 => "Package"
    case 128 => "Pad"
    case _ => "Unknow"
  }

  /** `value & mask` for a positive value and a power of two. */
  function And(value: int, mask: int): int
    decreases mask
  {
    if mask <= 1 then value % 2 else 2 * And(value / 2, mask / 2)
  }

  predicate HasBit(value: int, mask: int) {
    value > 0 && And(value, mask) != 0
  }

  const CLASSES := 8

  /** The bit of class `n`. */
  function Mask(n: nat): (mask: int)
    ensures mask > 0
  {
    if n == 0 then 1 else 2 * Mask(n - 1)
  }

  lemma MaskValues()
    ensures Mask(0) == 1 && Mask(1) == 2 && Mask(2) == 4 && Mask(3) == 8 && Mask(4) == 16
    ensures Mask(5) == 32 && Mask(6) == 64 && Mask(7) == 128 && Mask(8) == 256
  {
    assert Mask(2) == 4 && Mask(4) == 16 && Mask(6) == 64;
  }

  /** The set bits of `value` among the first `n` classes, in ascending order. */
  function SetMasks(value: int, n: nat): seq<int>
    requires n <= CLASSES
  {
    if n == 0 then []
    else SetMasks(value, n - 1) + if HasBit(value, Mask(n - 1)) then [Mask(n - 1)] else []
  }

  /** One line for each class. */
  function ClassLines(masks: seq<int>): string {
    if masks == [] then ""
    else ClassLines(masks[..|masks| - 1]) + "\n" + GetServiceClassName(masks[|masks| - 1])
  }

  lemma MaskBound(n: nat)
    requires n <= CLASSES
    ensures Mask(n) <= DEDICATED_PAD_ACCESS <==> n < CLASSES
  {
    MaskValues();
  }

  /** The text of one more class. */
  lemma NextLine(message: string, classx: int, n: nat)
    requires n < CLASSES
    ensures HasBit(classx, Mask(n)) ==>
              message + ClassLines(SetMasks(classx, n)) + "\n" + GetServiceClassName(And(classx, Mask(n)))
              == message + ClassLines(SetMasks(classx, n + 1))
    ensures !HasBit(classx, Mask(n)) ==>
              message + ClassLines(SetMasks(classx, n)) == message + ClassLines(SetMasks(classx, n + 1))
  {
    BitStep(classx, n);
    var masks, name := SetMasks(classx, n), GetServiceClassName(Mask(n));
    assert (masks + [Mask(n)])[..|masks|] == masks && masks + [] == masks;
    assert message + ClassLines(masks) + "\n" + name == message + (ClassLines(masks) + "\n" + name);
  }

  /** The shifting loop: `mask` runs through the powers of two up to the last class. */
  method CreateServiceClassMessage(message: string, classx: int) returns (result: string)
    ensures result == message + ClassLines(SetMasks(classx, CLASSES))
  {
    result := message;
    var mask := 1;
    ghost var n := 0;
    MaskBound(n);
    while mask <= DEDICATED_PAD_ACCESS
      invariant n <= CLASSES && mask == Mask(n) && (mask <= DEDICATED_PAD_ACCESS <==> n < CLASSES)
      invariant result == message + ClassLines(SetMasks(classx, n))
      decreases CLASSES - n
    {
      NextLine(message, classx, n);
      if HasBit(classx, mask) {
        result := result + "\n";
        result := result + GetServiceClassName(And(classx, mask));
      }
      mask := 2 * mask;
      n := n + 1;
      MaskBound(n);
    }
  }

  function Sum(masks: seq<int>): int {
    if masks == [] then 0 else Sum(masks[..|masks| - 1]) + masks[|masks| - 1]
  }

  lemma MulPos(k: int, d: int)
    requires k >= 1 && d > 0
    ensures k * d >= d
  {}

  lemma QuotientUnique(d: int, q: int, r: int, q': int, r': int)
    requires 0 <= r < d && 0 <= r' < d && q * d + r == q' * d + r'
    ensures q == q' && r == r'
  {
    assert (q - q') * d == r' - r;
    if q > q' { MulPos(q - q', d); }
    if q < q' {
      assert (q' - q) * d == r - r';
      MulPos(q' - q, d);
    }
  }

  lemma ModDouble(v: int, d: int)
    requires d > 0
    ensures v % (2 * d) == 2 * (v / 2 % d) + v % 2
  {
    var q, r := v / 2 / d, v / 2 % d;
    assert v / 2 == q * d + r;
    assert q * (2 * d) == 2 * (q * d);
    assert v == v / (2 * d) * (2 * d) + v % (2 * d);
    QuotientUnique(2 * d, q, 2 * r + v % 2, v / (2 * d), v % (2 * d));
  }

  /** The remainder modulo the next power of two adds the bit. */
  lemma {:induction false} BitStep(v: int, n: nat)
    ensures And(v, Mask(n)) == 0 || And(v, Mask(n)) == Mask(n)
    ensures v % Mask(n + 1) == v % Mask(n) + And(v, Mask(n))
    decreases n
  {
    if n > 0 {
      BitStep(v / 2, n - 1);
      ModDouble(v, Mask(n));
      ModDouble(v, Mask(n - 1));
    }
  }

  /** The set bits of the first `n` classes add up to the value modulo 2 to the n. */
  lemma {:induction false} SetMasksSum(value: int, n: nat)
    requires value > 0 && n <= CLASSES
    ensures Sum(SetMasks(value, n)) == value % Mask(n)
    decreases n
  {
    if n > 0 {
      SetMasksSum(value, n - 1);
      BitStep(value, n - 1);
      var init := SetMasks(value, n - 1);
      assert (init + [Mask(n - 1)])[..|init|] == init;
      assert init + [] == init;
    }
  }

  // ----- reading the text back

  /** The class a name stands for. */
  function MaskOf(name: string): int {
    if name == "Voice" then 1 else if name == "Fax" then 4 else if name == "Message" then 8
    else if name == "Sync" then 16 else if name == "Async" then 32 else if name == "Package" then 64
    else if name == "Pad" then 128 else 2
  }

  /** Where the last line of a text starts: after its last line break. */
  function LastLine(text: string): string {
    if text == "" || text[|text| - 1] == '\n' then "" else LastLine(text[..|text| - 1]) + [text[|text| - 1]]
  }

  lemma {:induction false} LastLineIs(text: string, line: string)
    requires '\n' !in line
    ensures LastLine(text + "\n" + line) == line
    decreases |line|
  {
    var whole := text + "\n" + line;
    if line != "" {
      var init := line[..|line| - 1];
      assert line[|line| - 1] in line;
      assert whole[..|whole| - 1] == text + "\n" + init;
      LastLineIs(text, init);
    }
  }

  predicate IsMask(mask: int) {
    mask in {1, 2, 4, 8, 16, 32, 64, 128}
  }

  lemma NamesAreLines(mask: int)
    requires IsMask(mask)
    ensures '\n' !in GetServiceClassName(mask) && MaskOf(GetServiceClassName(mask)) == mask
  {}

  /** The last line of a text is the last class, and what is before it is the text of the others. */
  lemma LastLineIsLastMask(masks: seq<int>)
    requires masks != [] && IsMask(masks[|masks| - 1])
    ensures var text := ClassLines(masks);
            var name := LastLine(text);
            && masks[|masks| - 1] == MaskOf(name)
            && |name| < |text| && ClassLines(masks[..|masks| - 1]) == text[..|text| - |name| - 1]
  {
    var init, name := ClassLines(masks[..|masks| - 1]), GetServiceClassName(masks[|masks| - 1]);
    NamesAreLines(masks[|masks| - 1]);
    LastLineIs(init, name);
    assert (init + "\n" + name)[..|init|] == init;
  }

  ghost predicate AllMasks(masks: seq<int>) {
    forall i | 0 <= i < |masks| :: IsMask(masks[i])
  }

  lemma SnocEqual(a: seq<int>, b: seq<int>)
    requires a != [] && b != []
    requires a[..|a| - 1] == b[..|b| - 1] && a[|a| - 1] == b[|b| - 1]
    ensures a == b
  {}

  /** The lines determine the classes. */
  lemma {:induction false} LinesDetermineMasks(a: seq<int>, b: seq<int>)
    requires AllMasks(a) && AllMasks(b) && ClassLines(a) == ClassLines(b)
    ensures a == b
    decreases |a|
  {
    if a == [] {
      LinesEmpty(b);
    } else if b == [] {
      LinesEmpty(a);
    } else {
      LastLineIsLastMask(a);
      LastLineIsLastMask(b);
      LinesDetermineMasks(a[..|a| - 1], b[..|b| - 1]);
      SnocEqual(a, b);
    }
  }

  lemma LinesEmpty(masks: seq<int>)
    ensures ClassLines(masks) == "" <==> masks == []
  {}

  lemma {:induction false} SetMasksAreMasks(value: int, n: nat)
    requires n <= CLASSES
    ensures AllMasks(SetMasks(value, n))
  {
    MaskValues();
    if n > 0 { SetMasksAreMasks(value, n - 1); }
  }

  /** Agreeing modulo the last power of two, two values have the same bits below it. */
  lemma {:induction false} SetMasksModulo(x: int, y: int, n: nat)
    requires x > 0 && y > 0 && n <= CLASSES && x % Mask(n) == y % Mask(n)
    ensures SetMasks(x, n) == SetMasks(y, n)
    decreases n
  {
    if n > 0 {
      BitStep(x, n - 1);
      BitStep(y, n - 1);
      SetMasksModulo(x, y, n - 1);
    }
  }

  /** Two positive masks give the same text exactly when they agree on the eight class bits; other values give none. */
  lemma ClassTextFaithful(x: int, y: int)
    ensures x > 0 && y > 0 ==>
              (ClassLines(SetMasks(x, CLASSES)) == ClassLines(SetMasks(y, CLASSES)) <==> x % 256 == y % 256)
    ensures x > 0 ==> Sum(SetMasks(x, CLASSES)) == x % 256
    ensures x <= 0 ==> ClassLines(SetMasks(x, CLASSES)) == ""
  {
    MaskValues();
    if x <= 0 { NothingSet(x, CLASSES); }
    if x > 0 { SetMasksSum(x, CLASSES); }
    if x > 0 && y > 0 {
      SetMasksSum(y, CLASSES);
      SetMasksAreMasks(x, CLASSES);
      SetMasksAreMasks(y, CLASSES);
      if x % 256 == y % 256 { SetMasksModulo(x, y, CLASSES); }
      if ClassLines(SetMasks(x, CLASSES)) == ClassLines(SetMasks(y, CLASSES)) {
        LinesDetermineMasks(SetMasks(x, CLASSES), SetMasks(y, CLASSES));
      }
    }
  }

  lemma {:induction false} NothingSet(x: int, n: nat)
    requires x <= 0 && n <= CLASSES
    ensures SetMasks(x, n) == []
  {
    if n > 0 { NothingSet(x, n - 1); }
  }
}
