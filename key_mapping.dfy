/** The character mapper: which modifier and keycode a US QWERTY keyboard
    uses for an ASCII character, following the Keyboard/Keypad usage page
    (0x07, section 10 of the USB HID Usage Tables 1.12). This module states
    the mapping as a function; the keyboard's KeyMap method, which writes it
    into the report buffer, is proved against it. */
module KeyMapping {
  import opened HidReport

  datatype Option<T> = None | Some(value: T)

  /** What KeyMap does to the report: when `shift` holds it overwrites
      MODIFIER with MODIFIER_LSHIFT (otherwise MODIFIER is left as it was),
      and it writes `keycode` into KEYCODE1. */
  datatype KeyAction = KeyAction(shift: bool, keycode: byte)

  predicate IsUpper(c: char) { 'A' <= c <= 'Z' }
  predicate IsLower(c: char) { 'a' <= c <= 'z' }
  predicate IsDigit(c: char) { '0' <= c <= '9' }

  /** Usage ID of the n-th letter of the alphabet: 0x04 for A up to 0x1D for Z. */
  function LetterKey(n: int): byte
    requires 0 <= n < 26
  {
    0x04 + n
  }

  /** Usage ID of a digit key. The top row runs 1, 2, ..., 9, 0 from 0x1E to
      0x27, so a digit's position in that row is (d - 1) mod 10. */
  function DigitKey(c: char): byte
    requires IsDigit(c)
  {
    0x1E + (c as int - '1' as int) % 10
  }

  /** Usage ID of a symbol typed without shift, or 0 for any other character. */
  function SymbolKey(c: char): byte
  {
    match c
    case ' ' => KEY_SPACE
    case '/' => 0x38
    case '-' => 0x2D
    case '=' => 0x2E
    case '[' => 0x2F
    case ']' => 0x30
    case ';' => 0x33
    case ',' => 0x36
    case '.' => 0x37
    case _ => 0
  }

  /** For a symbol typed with shift, the character on the lower half of the
      same key; None for any other character. */
  function ShiftedPartner(c: char): Option<char>
  {
    match c
    case '!' => Some('1')
    case '@' => Some('2')
    case '#' => Some('3')
    case '$' => Some('4')
    case '%' => Some('5')
    case '^' => Some('6')
    case '&' => Some('7')
    case '*' => Some('8')
    case '(' => Some('9')
    case ')' => Some('0')
    case '_' => Some('-')
    case '+' => Some('=')
    case ':' => Some(';')
    case '<' => Some(',')
    case '>' => Some('.')
    case '?' => Some('/')
    case _ => None
  }

  /** Usage ID of a character typed without shift, or 0 when there is none. */
  function UnshiftedKey(c: char): byte
  {
    if IsLower(c) then LetterKey(c as int - 'a' as int)
    else if IsDigit(c) then DigitKey(c)
    else SymbolKey(c)
  }

  /** The action KeyMap takes for character `c`. A character in no table
      still sets MODIFIER_LSHIFT, with keycode 0. Each keycode produced is a
      usage ID of the page between 0x04 and 0x38, or 0 for none. */
  function KeyMapOf(c: char): (r: KeyAction)
    ensures r.keycode == 0 ==> r.shift
    ensures r.keycode == 0 || 0x04 <= r.keycode <= 0x38
  {
    if IsUpper(c) then KeyAction(true, LetterKey(c as int - 'A' as int))
    else if ShiftedPartner(c).Some? then KeyAction(true, UnshiftedKey(ShiftedPartner(c).value))
    else if UnshiftedKey(c) != 0 then KeyAction(false, UnshiftedKey(c))
    else KeyAction(true, 0)
  }

  /** A character the mapper has a key for. */
  predicate IsMapped(c: char)
  {
    KeyMapOf(c).keycode != 0
  }

  /** Uppercase letters hold shift and take keycode c - 0x3D, from 0x04 to 0x1D. */
  lemma UppercaseKeys(c: char)
    requires IsUpper(c)
    ensures KeyMapOf(c) == KeyAction(true, c as int - 0x3D)
    ensures 0x04 <= KeyMapOf(c).keycode <= 0x1D
  {
  }

  /** Uppercase keycodes increase strictly with the character. */
  lemma UppercaseIncreasing(c: char, d: char)
    requires IsUpper(c) && IsUpper(d) && c < d
    ensures KeyMapOf(c).keycode < KeyMapOf(d).keycode
  {
  }

  /** Lowercase letters leave MODIFIER alone and take keycode c - 0x5D, the
      keycode of the matching uppercase letter. */
  lemma LowercaseKeys(c: char)
    requires IsLower(c)
    ensures KeyMapOf(c) == KeyAction(false, c as int - 0x5D)
    ensures KeyMapOf(c).keycode == KeyMapOf((c as int - 0x20) as char).keycode
    ensures KeyMapOf((c as int - 0x20) as char).shift
  {
  }

  /** '0' takes 0x27 and '1'..'9' take c - 0x13, that is 0x1E..0x26 in order;
      digits leave MODIFIER alone. */
  lemma DigitKeys(c: char)
    requires IsDigit(c)
    ensures KeyMapOf(c) == KeyAction(false, if c == '0' then 0x27 else c as int - 0x13)
    ensures c != '0' ==> 0x1E <= KeyMapOf(c).keycode <= 0x26
  {
  }

  /** Keycodes of '1'..'9', then '0', increase strictly in keyboard order. */
  lemma DigitsIncreasing(c: char, d: char)
    requires '1' <= c < d <= '9'
    ensures KeyMapOf(c).keycode < KeyMapOf(d).keycode < KeyMapOf('0').keycode
  {
  }

  /** Each shifted symbol holds shift and takes the keycode of the unshifted
      character on the same key. */
  lemma ShiftedSharesKey(c: char)
    requires ShiftedPartner(c).Some?
    ensures KeyMapOf(c).shift && !KeyMapOf(ShiftedPartner(c).value).shift
    ensures KeyMapOf(c).keycode == KeyMapOf(ShiftedPartner(c).value).keycode != 0
  {
  }

  /** The symbol pairs on keys other than the digits share their keycodes:
      '-'/'_' 0x2D, '='/'+' 0x2E, ';'/':' 0x33. */
  lemma SymbolPairsLeft()
    ensures KeyMapOf('-') == KeyAction(false, 0x2D) && KeyMapOf('_') == KeyAction(true, 0x2D)
    ensures KeyMapOf('=') == KeyAction(false, 0x2E) && KeyMapOf('+') == KeyAction(true, 0x2E)
    ensures KeyMapOf(';') == KeyAction(false, 0x33) && KeyMapOf(':') == KeyAction(true, 0x33)
  {
  }

  /** ','/'<' 0x36, '.'/'>' 0x37, '/'/'?' 0x38; the brackets, whose shifted
      braces are not mapped, take 0x2F and 0x30. */
  lemma SymbolPairsRight()
    ensures KeyMapOf(',') == KeyAction(false, 0x36) && KeyMapOf('<') == KeyAction(true, 0x36)
    ensures KeyMapOf('.') == KeyAction(false, 0x37) && KeyMapOf('>') == KeyAction(true, 0x37)
    ensures KeyMapOf('/') == KeyAction(false, 0x38) && KeyMapOf('?') == KeyAction(true, 0x38)
    ensures KeyMapOf('[') == KeyAction(false, 0x2F) && KeyMapOf(']') == KeyAction(false, 0x30)
  {
  }

  /** The space character takes the usage ID of the space bar. */
  lemma SpaceIsKeySpace()
    ensures KeyMapOf(' ') == KeyAction(false, KEY_SPACE)
  {
  }

  /** A character is unmapped exactly when it is in no table, and then the
      mapper yields MODIFIER_LSHIFT with keycode 0. */
  lemma UnmappedKeys(c: char)
    ensures !IsMapped(c) <==>
      !IsUpper(c) && !IsLower(c) && !IsDigit(c) && SymbolKey(c) == 0 && ShiftedPartner(c).None?
    ensures !IsMapped(c) ==> KeyMapOf(c) == KeyAction(true, 0)
  {
  }

  /** Bytes 0x80 and above, the C0 control characters, DEL and the US QWERTY
      characters the tables leave out are all unmapped. */
  lemma UnmappedExamples(c: char)
    requires c as int >= 0x80 || c as int < 0x20 || c as int == 0x7F || c in "{}|\\'\"`~"
    ensures KeyMapOf(c) == KeyAction(true, 0)
  {
  }

  /** The character a US QWERTY host types when it receives `keycode` with
      shift held or not: the legend of the Keyboard/Keypad usage page. None
      for a usage that types no character (0, Enter, Escape, Delete, Tab, the
      non-US key 0x32 and everything above 0x38). */
  function HostChar(shift: bool, keycode: byte): Option<char>
  {
    if 0x04 <= keycode <= 0x1D then
      Some(((if shift then 'A' else 'a') as int + (keycode - 0x04)) as char)
    else if 0x1E <= keycode <= 0x27 then
      Some(if shift then "!@#$%^&*()"[keycode - 0x1E]
           else if keycode == 0x27 then '0'
           else ('1' as int + (keycode - 0x1E)) as char)
    else if keycode == KEY_SPACE then
      Some(' ')
    else if 0x2D <= keycode <= 0x38 && keycode != 0x32 then
      Some(if shift then "_+{}|~:\"~<>?"[keycode - 0x2D] else "-=[]\\#;'`,./"[keycode - 0x2D])
    else
      None
  }

  /** A host receiving the key KeyMap chose for a mapped character types
      that same character. */
  lemma HostTypesMapped(c: char)
    requires IsMapped(c)
    ensures HostChar(KeyMapOf(c).shift, KeyMapOf(c).keycode) == Some(c)
  {
    if IsUpper(c) || IsLower(c) || IsDigit(c) {
    } else if ShiftedPartner(c).Some? {
      HostTypesShifted(c);
    } else {
      HostTypesSymbol(c);
    }
  }

  /** HostTypesMapped for the shifted symbols. */
  lemma HostTypesShifted(c: char)
    requires ShiftedPartner(c).Some?
    ensures HostChar(KeyMapOf(c).shift, KeyMapOf(c).keycode) == Some(c)
  {
    if IsDigit(ShiftedPartner(c).value) {
      HostTypesShiftedDigit(c);
    } else {
      match c
      case '_' => case '+' => case ':' => case '<' => case '>' => case '?' =>
    }
  }

  /** HostTypesMapped for the shifted symbols of the digit row. */
  lemma HostTypesShiftedDigit(c: char)
    requires ShiftedPartner(c).Some? && IsDigit(ShiftedPartner(c).value)
    ensures HostChar(KeyMapOf(c).shift, KeyMapOf(c).keycode) == Some(c)
  {
    match c
    case '!' => case '@' => case '#' => case '$' => case '%' => case '^' =>
    case '&' => case '*' => case '(' => case ')' =>
  }

  /** HostTypesMapped for the symbols typed without shift. */
  lemma HostTypesSymbol(c: char)
    requires !IsUpper(c) && !IsLower(c) && !IsDigit(c) && ShiftedPartner(c).None? && SymbolKey(c) != 0
    ensures HostChar(KeyMapOf(c).shift, KeyMapOf(c).keycode) == Some(c)
  {
    match c
    case ' ' => case '/' => case '-' => case '=' => case '[' => case ']' =>
    case ';' => case ',' => case '.' =>
  }

  /** No two mapped characters share a key action. */
  lemma MappedInjective(c: char, d: char)
    requires IsMapped(c) && IsMapped(d) && KeyMapOf(c) == KeyMapOf(d)
    ensures c == d
  {
    HostTypesMapped(c);
    HostTypesMapped(d);
  }
}
