/** Constants and report layout of the keyboard header: the modifier bits,
    the operation-key usage IDs, the key interval and the eight-byte boot
    keyboard input report (Appendix B.1 of the USB HID 1.11 specification). */
module HidReport {

  /** A C `uint8_t`. */
  type byte = x: int | 0 <= x < 256

  /** `1 << n` on a byte. */
  function Bit(n: nat): byte
    requires n < 8
  {
    ((1 as bv8) << n) as int
  }

  // Modifier bits of the report's first byte. OPTION is the Windows / Command key.
  const MODIFIER_LCTRL: byte := 1
  const MODIFIER_LSHIFT: byte := Bit(1)
  const MODIFIER_LALT: byte := Bit(2)
  const MODIFIER_OPTION: byte := Bit(3)
  const MODIFIER_RCTRL: byte := Bit(4)
  const MODIFIER_RSHIFT: byte := Bit(5)
  const MODIFIER_RALT: byte := Bit(6)

  /** The seven modifier constants, in the header's order. */
  const Modifiers: seq<byte> := [MODIFIER_LCTRL, MODIFIER_LSHIFT, MODIFIER_LALT, MODIFIER_OPTION,
                                 MODIFIER_RCTRL, MODIFIER_RSHIFT, MODIFIER_RALT]

  // Usage IDs of the operation keys (Keyboard/Keypad page 0x07).
  const KEY_ENTER: byte := 0x28
  const KEY_ESCAPE: byte := 0x29
  const KEY_DELETE: byte := 0x2A
  const KEY_TAB: byte := 0x2B
  const KEY_SPACE: byte := 0x2C

  /** Milliseconds a key is held down, and then held released. */
  const KEY_INTERVAL: int := 15

  /** True when `bit` is set in the modifier byte `m`, as `(m & bit) != 0` in C. */
  predicate Holds(m: byte, bit: byte)
  {
    (m as bv8) & (bit as bv8) != 0
  }

  /** `mods[0] | mods[1] | ...`, the way a caller combines modifiers, as a bit pattern. */
  function Combine(mods: seq<byte>): bv8
  {
    if mods == [] then 0 else Combine(mods[..|mods| - 1]) | (mods[|mods| - 1] as bv8)
  }

  /** The modifier constants are seven distinct single bits, one per bit 0..6,
      and none of them uses bit 7. */
  lemma ModifierBits()
    ensures |Modifiers| == 7
    ensures forall i | 0 <= i < 7 :: Modifiers[i] == Bit(i) && Modifiers[i] < 0x80
    ensures forall i, j | 0 <= i < j < 7 :: Modifiers[i] != Modifiers[j]
    ensures forall i, j | 0 <= i < 7 && 0 <= j < 7 :: Holds(Modifiers[i], Modifiers[j]) <==> i == j
  {
    ModifierValues();
    assert Modifiers == [1, 2, 4, 8, 16, 32, 64];
  }

  /** The modifier constants are the powers of two 1 to 64. */
  lemma ModifierValues()
    ensures Modifiers == [1, 2, 4, 8, 16, 32, 64]
  {
  }

  lemma OrHolds(x: bv8, y: bv8, z: bv8)
    ensures (x | y) & z != 0 <==> x & z != 0 || y & z != 0
    ensures x < 0x80 && y < 0x80 ==> x | y < 0x80
  {
  }

  /** Any OR of modifier constants is a byte below 0x80 from which every
      modifier can be read back: a bit is set exactly when that modifier was
      one of the operands. */
  lemma {:induction false} CombineRecovers(mods: seq<byte>, bit: byte)
    requires forall i | 0 <= i < |mods| :: mods[i] in Modifiers
    requires bit in Modifiers
    ensures Combine(mods) < 0x80
    ensures Combine(mods) & (bit as bv8) != 0 <==> bit in mods
  {
    if mods != [] {
      var prefix, last := mods[..|mods| - 1], mods[|mods| - 1];
      assert mods == prefix + [last];
      CombineRecovers(prefix, bit);
      CombineStep(prefix, last, bit);
    }
  }

  /** OR-ing one more modifier into a combination adds exactly that modifier. */
  lemma CombineStep(prefix: seq<byte>, last: byte, bit: byte)
    requires last in Modifiers && bit in Modifiers
    requires Combine(prefix) < 0x80
    requires Combine(prefix) & (bit as bv8) != 0 <==> bit in prefix
    ensures Combine(prefix + [last]) < 0x80
    ensures Combine(prefix + [last]) & (bit as bv8) != 0 <==> bit in prefix + [last]
  {
    var mods := prefix + [last];
    assert mods[..|mods| - 1] == prefix;
    assert bit in mods <==> bit in prefix || bit == last;
    var x, y := Combine(prefix), last as bv8;
    assert Combine(mods) == x | y;
    OrHolds(x, y, bit as bv8);
    SingleBits(last, bit);
  }

  /** Two modifier constants share a bit exactly when they are the same one. */
  lemma SingleBits(a: byte, b: byte)
    requires a in Modifiers && b in Modifiers
    ensures (a as bv8) & (b as bv8) != 0 <==> a == b
    ensures (a as bv8) < 0x80
  {
    var i :| 0 <= i < 7 && Modifiers[i] == a;
    var j :| 0 <= j < 7 && Modifiers[j] == b;
    ModifierBits();
  }

  /** The operation keys are the consecutive, hence distinct, usage IDs 0x28..0x2C. */
  lemma OperationKeysConsecutive()
    ensures KEY_ESCAPE == KEY_ENTER + 1 && KEY_DELETE == KEY_ENTER + 2
    ensures KEY_TAB == KEY_ENTER + 3 && KEY_SPACE == KEY_ENTER + 4
    ensures KEY_ENTER == 0x28
  {
  }

  // Byte offsets of the report's fields.
  const MODIFIER: nat := 0
  const RESERVED: nat := 1
  const KEYCODE1: nat := 2
  const KEYCODE2: nat := 3
  const KEYCODE3: nat := 4
  const KEYCODE4: nat := 5
  const KEYCODE5: nat := 6
  const KEYCODE6: nat := 7

  /** `sizeof(keyboardReport)`: the number of bytes sent per report. */
  const ReportSize: nat := 8

  /** The keyboard report struct, field by field. */
  datatype KeyboardReport = KeyboardReport(
    modifier: byte, reserved: byte,
    keycode1: byte, keycode2: byte, keycode3: byte,
    keycode4: byte, keycode5: byte, keycode6: byte)

  /** The struct's memory image, as the USB stack reads it through a `uint8_t*`. */
  function Bytes(r: KeyboardReport): (b: seq<byte>)
    ensures |b| == ReportSize
  {
    [r.modifier, r.reserved, r.keycode1, r.keycode2, r.keycode3, r.keycode4, r.keycode5, r.keycode6]
  }

  /** The struct that a report-sized block of memory holds. */
  function Parse(b: seq<byte>): KeyboardReport
    requires |b| == ReportSize
  {
    KeyboardReport(b[MODIFIER], b[RESERVED], b[KEYCODE1], b[KEYCODE2],
                   b[KEYCODE3], b[KEYCODE4], b[KEYCODE5], b[KEYCODE6])
  }

  /** Reading the struct back from its memory image gives the struct. */
  lemma ParseBytes(r: KeyboardReport)
    ensures Parse(Bytes(r)) == r
  {
  }

  /** Every eight bytes are the image of exactly one struct, its fields in the
      order MODIFIER, RESERVED, KEYCODE1..KEYCODE6. */
  lemma BytesParse(b: seq<byte>)
    requires |b| == ReportSize
    ensures Bytes(Parse(b)) == b
    ensures Parse(b).modifier == b[0] && Parse(b).reserved == b[1] && Parse(b).keycode1 == b[2]
  {
  }

  /** The report a key press sends: one modifier byte and one keycode, all else 0. */
  function Press(modifier: byte, keycode: byte): (b: seq<byte>)
    ensures |b| == ReportSize
    ensures b[MODIFIER] == modifier && b[KEYCODE1] == keycode
    ensures WellFormed(b)
  {
    Bytes(KeyboardReport(modifier, 0, keycode, 0, 0, 0, 0, 0))
  }

  /** The all-zero report that releases every key. */
  const Released: seq<byte> := Press(0, 0)

  /** A report of the shape this keyboard sends: RESERVED and KEYCODE2..KEYCODE6 are 0. */
  predicate WellFormed(b: seq<byte>)
  {
    |b| == ReportSize && b[RESERVED] == 0 &&
    b[KEYCODE2] == 0 && b[KEYCODE3] == 0 && b[KEYCODE4] == 0 && b[KEYCODE5] == 0 && b[KEYCODE6] == 0
  }

  /** The well-formed reports are exactly the press reports. */
  lemma WellFormedIsPress(b: seq<byte>)
    ensures WellFormed(b) <==> |b| == ReportSize && b == Press(b[MODIFIER], b[KEYCODE1])
  {
  }
}
