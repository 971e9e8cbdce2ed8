# USB HID keyboard emulator, modelled in Dafny

The system emulates a US QWERTY USB keyboard on a microcontroller. It turns
ASCII text and symbolic key names into boot-keyboard input reports (eight
bytes: a modifier byte, a reserved byte, six keycodes) and sends each key
event as a press report, a wait of `KEY_INTERVAL` (15 ms), an all-zero
release report and another wait.

The model has three modules, one file each:

- `hid_report.dfy`, module `HidReport`: the header. It holds the modifier
  bits, the operation-key usage IDs, `KEY_INTERVAL` and the report struct with
  its eight-byte memory image. It proves that the modifier bits are
  distinct single bits, that any OR of them can be decoded again, and that
  the struct and its bytes convert both ways.
- `key_mapping.dfy`, module `KeyMapping`: the character mapper. `KeyMapOf`
  states which modifier and keycode a character gets. It is written from the
  keyboard's layout: a letter's keycode is its place in the alphabet, a
  digit's its place in the top row, and a shifted symbol's the keycode of the
  character under it on the same key. The source's hex offsets and its table
  of shifted symbols are proved equal to this in `Keyboard.KeyMap`. Its table
  of unshifted symbols (`SymbolKey`) is taken as written; it is checked against
  the host's legend instead (`HostTypesMapped`). The module also holds the
  receiving side: `HostChar` is the US legend of the usage page, and
  `HostTypesMapped` proves that every mapped character is typed back
  unchanged.
- `hid_keyboard.dfy`, module `HidKeyboard`: the report session. Class
  `Keyboard` stands for the program's globals: the buffer `report`, the
  flag `initialized` (the pointer is not NULL) and `reportSize`. It also
  keeps one ghost log `events` of what the program does to the outside
  world, in order: `Sent(bytes)` for a report handed to the USB stack and
  `Waited(ms)` for a delay. The class invariant `Valid()` says that the log
  is `Paced`: every sent report has RESERVED and KEYCODE2..6 zero and is
  followed at once by one wait of 15 ms. It also says that the buffer is
  all zero between public calls. `SingleKeypress` depends on that last part,
  because it does not clear the buffer itself. Each public method states the
  events it appends: `KeyEvent(press)` (press, wait, release, wait) of
  `ChordReport` or `KeypressReport`, or `TypedEvents(str)`. The lemmas beside
  them relate those functions to each other, to the reports and total wait
  of a log, and to the host's view (`HostReadsTypedText`).

Strings are the C strings the callers pass, as `string` values whose
characters are bytes 1..255 without the NUL. `At(s, i)` reads the NUL at
index `|s|`, as the C code does with `key[1]` on a one-character key.

Three behaviours of the code are easy to miss; the model follows the code:

- An unmapped character is mapped to MODIFIER_LSHIFT with keycode 0: a
  press of shift alone rather than an empty report. The `else` branch of
  `KeyMap` sets shift whatever its table finds, the default keycode 0
  included. So `TypeString` sends a press of shift alone for it
  (`UnmappedTypedAsShift`). Bytes 0x80 and above take the same branch.
- `ModifiersAndKey` with an uppercase letter, a shifted symbol or an
  unmapped character replaces the caller's modifiers with MODIFIER_LSHIFT,
  because `KeyMap` assigns MODIFIER rather than OR-ing into it
  (`ChordModifierQuirk`).
- `SingleKeypress` does not reject a literal of several characters. It
  presses the first one (`KeypressFirstCharOnly`).

## Model

| member | source | states |
|---|---|---|
| `HidReport.ModifierBits` | HIDKeyboard.h:30-36 | the seven modifier constants are the bits 1 << 0 .. 1 << 6, pairwise distinct, below 0x80, and each shares a bit only with itself |
| `HidReport.CombineRecovers` | HIDKeyboard.h:30-36 | any OR of modifier constants is below 0x80 and has a modifier's bit set exactly when that modifier was OR-ed in |
| `HidReport.OperationKeysConsecutive` | HIDKeyboard.h:41-45 | ENTER, ESCAPE, DELETE, TAB and SPACE are the consecutive codes 0x28..0x2C |
| `HidReport.Bytes` | HIDKeyboard.h:60-70 | the report struct's memory image is eight bytes long |
| `HidReport.ParseBytes` | HIDKeyboard.h:60-70 | reading the struct back from its image gives the same struct |
| `HidReport.BytesParse` | HIDKeyboard.h:60-70 | every eight bytes are the image of one struct, fields in the order MODIFIER, RESERVED, KEYCODE1..6 |
| `HidReport.Press` | HIDKeyboard.h:60-70 | a press report is eight bytes with the given modifier at offset 0, the keycode at offset 2, and RESERVED and the other keycodes zero |
| `HidReport.WellFormedIsPress` | HIDKeyboard.h:60-70 | a report has RESERVED and KEYCODE2..6 zero exactly when it is a press report of one modifier byte and one keycode |
| `KeyMapping.KeyMapOf` | HIDKeyboard.c:44-118 | the mapper only ever yields keycode 0 together with shift, and every other keycode lies in 0x04..0x38 |
| `KeyMapping.UppercaseKeys` | HIDKeyboard.c:47-53 | 'A'..'Z' set MODIFIER_LSHIFT and keycode c - 0x3D, in 0x04..0x1D |
| `KeyMapping.UppercaseIncreasing` | HIDKeyboard.c:47-53 | uppercase keycodes increase strictly with the character |
| `KeyMapping.LowercaseKeys` | HIDKeyboard.c:56-61 | 'a'..'z' keep MODIFIER and take c - 0x5D, the keycode of the matching uppercase letter |
| `KeyMapping.DigitKeys` | HIDKeyboard.c:64-72 | '0' takes 0x27, '1'..'9' take c - 0x13 in 0x1E..0x26, and MODIFIER is kept |
| `KeyMapping.DigitsIncreasing` | HIDKeyboard.c:64-72 | digit keycodes increase in keyboard order 1..9 then 0 |
| `KeyMapping.ShiftedSharesKey` | HIDKeyboard.c:91-117 | each shifted symbol holds shift and takes the keycode of the unshifted character on its key |
| `KeyMapping.SymbolPairsLeft` | HIDKeyboard.c:75-116 | '-'/'_' share 0x2D, '='/'+' 0x2E, ';'/':' 0x33, unshifted without and shifted with LSHIFT |
| `KeyMapping.SymbolPairsRight` | HIDKeyboard.c:75-116 | ','/'<' share 0x36, '.'/'>' 0x37, '/'/'?' 0x38; '[' and ']' take 0x2F and 0x30 |
| `KeyMapping.SpaceIsKeySpace` | HIDKeyboard.c:78 | ' ' keeps MODIFIER and takes KEY_SPACE |
| `KeyMapping.UnmappedKeys` | HIDKeyboard.c:91-116 | a character is unmapped exactly when it is in no table, and then it yields (MODIFIER_LSHIFT, 0) |
| `KeyMapping.UnmappedExamples` | HIDKeyboard.c:91-116 | bytes 0x80 and above, C0 control characters, DEL and the US symbols the tables omit yield (MODIFIER_LSHIFT, 0) |
| `KeyMapping.HostTypesMapped` | HIDKeyboard.c:44-118 | a US QWERTY host receiving the action chosen for a mapped character types that character |
| `KeyMapping.MappedInjective` | HIDKeyboard.c:44-118 | no two mapped characters get the same modifier and keycode |
| `HidKeyboard.MapInto` | HIDKeyboard.c:44-118 | mapping a character into a buffer puts its keycode in KEYCODE1 and keeps a well-formed buffer well formed |
| `HidKeyboard.CharReport` | HIDKeyboard.c:157-163 | a character typed on the cleared buffer is a well-formed press of LSHIFT or nothing with its mapped keycode |
| `HidKeyboard.TypedReports` | HIDKeyboard.c:148-167 | typing n characters sends 2n reports, all well formed |
| `HidKeyboard.TypedReportsAt` | HIDKeyboard.c:159-166 | report 2i is the press report of character i and report 2i+1 the all-zero release |
| `HidKeyboard.TypedReportsExample` | HIDKeyboard.c:148-167 | "Ab" sends shift+0x04, release, 0x05, release; "" sends nothing |
| `HidKeyboard.UnmappedTypedAsShift` | HIDKeyboard.c:111-115 | an unmapped character is typed as a press of shift alone |
| `HidKeyboard.HostReadsTypedText` | HIDKeyboard.c:159-166 | a host receiving what TypeString sends for mapped characters types exactly that text |
| `HidKeyboard.KeyEvent` | HIDKeyboard.c:19-29 | one key event is four events: a send of the press, a 15 ms wait, a send of the all-zero release, a 15 ms wait |
| `HidKeyboard.PacedAt` | HIDKeyboard.c:19-29 | a paced log has even length, a well-formed send at every even position and a 15 ms wait at every odd one |
| `HidKeyboard.PacedAppend` | HIDKeyboard.c:19-29 | one key event after another keeps the log paced |
| `HidKeyboard.KeyEventPaced` | HIDKeyboard.c:19-29 | a key event pressing a well-formed report is paced |
| `HidKeyboard.KeyEventReports` | HIDKeyboard.c:19-29 | a key event sends exactly its press and the release and waits 30 ms in all |
| `HidKeyboard.PacedTiming` | HIDKeyboard.c:19-29 | in a paced log the total wait is 15 ms per report sent |
| `HidKeyboard.TypedEvents` | HIDKeyboard.c:148-167 | typing n characters produces 4n events |
| `HidKeyboard.TypedEventsAt` | HIDKeyboard.c:159-166 | events 4i..4i+3 of typing a string are the key event of character i |
| `HidKeyboard.TypedEventsReports` | HIDKeyboard.c:148-167 | typing a string is paced, sends exactly TypedReports of it and waits 30 ms per character |
| `HidKeyboard.ChordReport` | HIDKeyboard.c:190-232 | whatever ModifiersAndKey sends as its press is a well-formed report |
| `HidKeyboard.ChordOperations` | HIDKeyboard.c:209-224 | "/esc", "/del", "/tab" press 0x29, 0x2A, 0x2B with the given modifiers; any other "/..." presses the modifiers alone |
| `HidKeyboard.ChordExamples` | HIDKeyboard.c:190-232 | LCTRL\|LSHIFT with "/esc" presses {3, 0x29}; "ab" is rejected |
| `HidKeyboard.ChordLiteral` | HIDKeyboard.c:225-229 | a one-character key presses its mapped keycode with the caller's modifiers, or with LSHIFT alone when the mapper holds shift |
| `HidKeyboard.ChordModifierQuirk` | HIDKeyboard.c:205-229 | lowercase letters keep the caller's modifiers; uppercase, shifted and unmapped characters send the same report whatever modifiers were given |
| `HidKeyboard.ShiftChordIsUppercase` | HIDKeyboard.c:205-229 | Shift with a lowercase letter sends the same report as pressing the uppercase letter |
| `HidKeyboard.UnmodifiedChordIsKeypress` | HIDKeyboard.c:190-286 | with no modifiers, ModifiersAndKey and SingleKeypress send the same press for every accepted key other than "/space" and "/enter" |
| `HidKeyboard.KeypressReport` | HIDKeyboard.c:245-286 | whatever SingleKeypress sends as its press is a well-formed report |
| `HidKeyboard.KeypressOperations` | HIDKeyboard.c:253-276 | "/enter", "/space", "/esc", "/del", "/tab" press 0x28, 0x2C, 0x29, 0x2A, 0x2B without modifiers; an unknown "/..." sends an all-zero press |
| `HidKeyboard.KeypressSpaceAlias` | HIDKeyboard.c:268-271 | "/space" and " " send the same report |
| `HidKeyboard.KeypressFirstCharOnly` | HIDKeyboard.c:278-282 | a literal of several characters presses its first character only; "" presses shift alone |
| `HidKeyboard.Keyboard.constructor` | HIDKeyboard.c:10-11 | at program start the buffer pointer is NULL and the event log is empty |
| `HidKeyboard.Keyboard.Send` | HIDKeyboard.c:22 | sending appends a Sent event holding a copy of the first report_size bytes of the buffer |
| `HidKeyboard.Keyboard.Delay` | HIDKeyboard.c:23 | waiting appends a Waited event holding the duration |
| `HidKeyboard.Keyboard.Clear` | HIDKeyboard.c:26 | clearing leaves the buffer all zero |
| `HidKeyboard.Keyboard.PressKeys` | HIDKeyboard.c:19-29 | one key event appends, in this order, a send of the buffer, a 15 ms wait, a send of the zero report and a 15 ms wait, keeps the log paced and leaves the buffer zero |
| `HidKeyboard.Keyboard.KeyMap` | HIDKeyboard.c:44-118 | the offsets and switch tables write exactly the modifier and keycode KeyMapOf gives, MODIFIER untouched when no shift is needed |
| `HidKeyboard.Keyboard.KeyboardInit` | HIDKeyboard.c:129-137 | init makes a fresh zeroed eight-byte buffer and adds no event |
| `HidKeyboard.Keyboard.TypeString` | HIDKeyboard.c:148-167 | when initialized it appends TypedEvents(str): per character, its press, a wait, the release, a wait; otherwise no event |
| `HidKeyboard.Keyboard.ModifiersAndKey` | HIDKeyboard.c:190-232 | when initialized and the key is accepted it appends the key event of the chord press (press, wait, release, wait); otherwise no event and the buffer is unchanged |
| `HidKeyboard.Keyboard.SingleKeypress` | HIDKeyboard.c:245-286 | when initialized it always appends the key event of the key's press (press, wait, release, wait); otherwise no event and the buffer is unchanged |
| `HidKeyboard.Keyboard.KeyboardDeinit` | HIDKeyboard.c:293-300 | deinit leaves the session uninitialized whatever its state, so calling it twice is the same as once |

## Left out

- The USB stack (`USBD_HID_SendReport`, `hUsbDeviceFS`) is foreign code. Sending is modelled as appending a `Sent` event with a copy of the buffer to the ghost log `events`; transmission errors are not modelled.
- `HAL_Delay` is a platform timing primitive. Waiting is modelled as appending a `Waited` event with the duration to the same log; real time is not modelled.
- `malloc` and `free`: allocation is a fresh zeroed array plus the `initialized` flag. The unchecked `malloc` failure and the leak when `KeyboardInit` is called twice are not modelled.
- `Keyboard.ModifiersAndKey`: requires a key of at least one character, because on "" the C code reads `key[1]` past the end of the string.
- `Keyboard.TypeString`: the index `i` is an unbounded integer, so the wrap-around of `unsigned int` on strings longer than 2^32 - 1 is not modelled.
- The order of the two early returns in `ModifiersAndKey` (key check before the NULL check) is kept, but it cannot be observed: both return without effect.
- The commented-out functions `Enter`, `Delete`, `Tab`, `Escape` and `Option` (HIDKeyboard.c:302-340) are dead code.
- The header's `#include`s and `extern` declarations hold no logic.
- `HostChar` and `HostText` are not part of the source. They model what a US QWERTY host types, and are used only to state that the typed text arrives intact.
