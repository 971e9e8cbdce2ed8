/** The report session of the keyboard emulator: one eight-byte report
    buffer, allocated by KeyboardInit and released by KeyboardDeinit, from
    which every key event is sent as a press report followed by an all-zero
    release report. Sending a report and waiting are modelled as appending
    events to one log, in the order they happen. */
module HidKeyboard {
  import opened HidReport
  import opened KeyMapping

  /** A C string as the caller passes it: bytes 1..255, the terminating NUL
      not included. */
  predicate IsCString(s: string)
  {
    forall i | 0 <= i < |s| :: 0 < s[i] as int < 256
  }

  /** `s[i]` in C: the terminating NUL is read at index |s|, and 0 past it. */
  function At(s: string, i: nat): char
  {
    if i < |s| then s[i] else '\0'
  }

  /** The buffer after KeyMap(c) has written into `buf`: the key's keycode
      in KEYCODE1, the modifier byte replaced by shift when the key needs it,
      so a well-formed buffer stays well formed. */
  function MapInto(buf: seq<byte>, c: char): (r: seq<byte>)
    requires |buf| == ReportSize
    ensures |r| == ReportSize
    ensures WellFormed(buf) ==> WellFormed(r)
    ensures r[KEYCODE1] == KeyMapOf(c).keycode
  {
    var a := KeyMapOf(c);
    buf[MODIFIER := if a.shift then MODIFIER_LSHIFT else buf[MODIFIER]][KEYCODE1 := a.keycode]
  }

  /** The press report for character `c` typed on a cleared buffer. It holds
      shift exactly when the mapper asks for it and nothing else. */
  function CharReport(c: char): (r: seq<byte>)
    ensures WellFormed(r)
    ensures r == Press(if KeyMapOf(c).shift then MODIFIER_LSHIFT else 0, KeyMapOf(c).keycode)
  {
    MapInto(Released, c)
  }

  /** The reports TypeString sends for `s`: for each character its press
      report and then the release report. */
  function TypedReports(s: string): (r: seq<seq<byte>>)
    ensures |r| == 2 * |s|
    ensures forall k | 0 <= k < |r| :: WellFormed(r[k])
  {
    if s == [] then [] else TypedReports(s[..|s| - 1]) + [CharReport(s[|s| - 1]), Released]
  }

  /** A key argument of two or more characters that starts with '/': an
      operation-key name. */
  predicate IsOperationName(key: string)
  {
    |key| >= 2 && key[0] == '/'
  }

  /** The operation keys ModifiersAndKey knows, by name; 0 for any other name. */
  function ChordOperationKey(key: string): byte
  {
    if key == "/esc" then KEY_ESCAPE
    else if key == "/del" then KEY_DELETE
    else if key == "/tab" then KEY_TAB
    else 0
  }

  /** The operation keys SingleKeypress knows, by name; 0 for any other name. */
  function KeypressOperationKey(key: string): byte
  {
    if ChordOperationKey(key) != 0 then ChordOperationKey(key)
    else if key == "/space" then KEY_SPACE
    else if key == "/enter" then KEY_ENTER
    else 0
  }

  /** The press report ModifiersAndKey(modifiers, key) sends, or None when it
      rejects the key: any key of two or more characters not starting with '/'. */
  function ChordReport(modifiers: byte, key: string): (r: Option<seq<byte>>)
    requires |key| >= 1
    ensures r.Some? ==> WellFormed(r.value)
  {
    if |key| >= 2 && key[0] != '/' then None
    else if IsOperationName(key) then Some(Press(modifiers, ChordOperationKey(key)))
    else Some(MapInto(Press(modifiers, 0), key[0]))
  }

  /** The press report SingleKeypress(key) sends, on the cleared buffer that
      it relies on. */
  function KeypressReport(key: string): (r: seq<byte>)
    ensures WellFormed(r)
  {
    if IsOperationName(key) then Press(0, KeypressOperationKey(key)) else MapInto(Released, At(key, 0))
  }

  /** Report 2i of TypedReports(s) is the press report of character i and
      report 2i+1 the release report. */
  lemma {:induction false} TypedReportsAt(s: string, i: nat)
    requires i < |s|
    ensures TypedReports(s)[2 * i] == CharReport(s[i])
    ensures TypedReports(s)[2 * i + 1] == Released
  {
    var p := s[..|s| - 1];
    if i < |s| - 1 {
      TypedReportsAt(p, i);
      assert s[i] == p[i];
    }
  }

  /** Typing "Ab" sends shift+0x04, a release, 0x05 and a release; typing
      nothing sends nothing. */
  lemma TypedReportsExample()
    ensures TypedReports("Ab") == [Press(MODIFIER_LSHIFT, 0x04), Released, Press(0, 0x05), Released]
    ensures TypedReports("") == []
  {
  }

  /** An unmapped character is typed as a press of shift alone. */
  lemma UnmappedTypedAsShift(c: char)
    requires !IsMapped(c)
    ensures CharReport(c) == Press(MODIFIER_LSHIFT, 0)
  {
  }

  /** Whether a host reads shift as held in a modifier byte: either shift bit. */
  predicate ShiftHeld(m: byte)
  {
    Holds(m, MODIFIER_LSHIFT) || Holds(m, MODIFIER_RSHIFT)
  }

  /** The text a US QWERTY host types on receiving one report: the
      character of its keycode, if it has one. */
  function HostTyped(r: seq<byte>): string
  {
    var typed := if |r| == ReportSize then HostChar(ShiftHeld(r[MODIFIER]), r[KEYCODE1]) else None;
    if typed.Some? then [typed.value] else ""
  }

  /** The text a US QWERTY host types on receiving the reports `log`, each
      key press separated from the next by a release: every report whose
      keycode has a character contributes that character. */
  function HostText(log: seq<seq<byte>>): string
  {
    if log == [] then "" else HostText(log[..|log| - 1]) + HostTyped(log[|log| - 1])
  }

  /** One more report adds what the host types for it. */
  lemma HostTextSnoc(log: seq<seq<byte>>, r: seq<byte>)
    ensures HostText(log + [r]) == HostText(log) + HostTyped(r)
  {
    assert (log + [r])[..|log|] == log;
  }

  /** The host types a mapped character's press report as that character,
      and nothing for the release. */
  lemma HostTypesReport(c: char)
    requires IsMapped(c)
    ensures HostTyped(CharReport(c)) == [c]
    ensures HostTyped(Released) == ""
  {
    HostTypesMapped(c);
    assert ShiftHeld(CharReport(c)[MODIFIER]) == KeyMapOf(c).shift;
  }

  /** Typing one more mapped character adds that character to what the
      host types. */
  lemma HostReadsStep(p: string, c: char)
    requires IsMapped(c)
    ensures HostText(TypedReports(p + [c])) == HostText(TypedReports(p)) + [c]
  {
    var s := p + [c];
    assert s[..|s| - 1] == p;
    var pressed := TypedReports(p) + [CharReport(c)];
    assert TypedReports(s) == pressed + [Released];
    HostTextSnoc(TypedReports(p), CharReport(c));
    HostTextSnoc(pressed, Released);
    HostTypesReport(c);
  }

  /** A host receiving the reports TypeString sends for a string of mapped
      characters types exactly that string. */
  lemma {:induction false} HostReadsTypedText(s: string)
    requires forall i | 0 <= i < |s| :: IsMapped(s[i])
    ensures HostText(TypedReports(s)) == s
  {
    if s != [] {
      var p, c := s[..|s| - 1], s[|s| - 1];
      HostReadsTypedText(p);
      assert s == p + [c];
      HostReadsStep(p, c);
    }
  }

  /** The operation keys of ModifiersAndKey: "/esc", "/del" and "/tab" press
      0x29, 0x2A and 0x2B with the given modifiers; any other "/..." name
      presses the modifiers alone. */
  lemma ChordOperations(modifiers: byte, key: string)
    requires IsOperationName(key)
    ensures ChordReport(modifiers, "/esc") == Some(Press(modifiers, KEY_ESCAPE))
    ensures ChordReport(modifiers, "/del") == Some(Press(modifiers, KEY_DELETE))
    ensures ChordReport(modifiers, "/tab") == Some(Press(modifiers, KEY_TAB))
    ensures key != "/esc" && key != "/del" && key != "/tab" ==> ChordReport(modifiers, key) == Some(Press(modifiers, 0))
  {
  }

  /** Ctrl+Shift+Escape is one press of both modifiers with 0x29; a literal of
      two characters is rejected. */
  lemma ChordExamples()
    ensures ChordReport(Combine([MODIFIER_LCTRL, MODIFIER_LSHIFT]) as int, "/esc") == Some(Press(3, 0x29))
    ensures ChordReport(0, "ab") == None
  {
    assert Combine([MODIFIER_LCTRL, MODIFIER_LSHIFT]) == 3 by {
      assert [MODIFIER_LCTRL, MODIFIER_LSHIFT][..1] == [MODIFIER_LCTRL];
      assert [MODIFIER_LCTRL][..0] == [];
      assert Combine([MODIFIER_LCTRL]) == 1;
    }
  }

  /** A single character goes through the mapper: it keeps the caller's
      modifiers unless the mapper holds shift, which replaces them all. */
  lemma ChordLiteral(modifiers: byte, c: char)
    ensures ChordReport(modifiers, [c]) ==
      Some(Press(if KeyMapOf(c).shift then MODIFIER_LSHIFT else modifiers, KeyMapOf(c).keycode))
  {
    var a := KeyMapOf(c);
    PressUpdate(modifiers, 0, if a.shift then MODIFIER_LSHIFT else modifiers, a.keycode);
  }

  /** Writing MODIFIER and KEYCODE1 of a press report gives another press report. */
  lemma PressUpdate(m: byte, k: byte, m2: byte, k2: byte)
    ensures Press(m, k)[MODIFIER := m2][KEYCODE1 := k2] == Press(m2, k2)
  {
    var b := Press(m, k)[MODIFIER := m2][KEYCODE1 := k2];
    assert forall i | 0 <= i < ReportSize :: b[i] == Press(m2, k2)[i];
  }

  /** Hence a lowercase letter is pressed with exactly the caller's
      modifiers, and an uppercase letter, a shifted symbol or an unmapped
      character with MODIFIER_LSHIFT alone, whatever modifiers were asked for. */
  lemma ChordModifierQuirk(modifiers: byte, c: char)
    ensures IsLower(c) ==> ChordReport(modifiers, [c]) == Some(Press(modifiers, c as int - 0x5D))
    ensures KeyMapOf(c).shift ==> ChordReport(modifiers, [c]) == ChordReport(0, [c])
    ensures KeyMapOf(c).shift ==> ChordReport(modifiers, [c]).value[MODIFIER] == MODIFIER_LSHIFT
  {
    ChordLiteral(modifiers, c);
    ChordLiteral(0, c);
  }

  /** Shift with a lowercase letter sends the very report that typing the
      uppercase letter does. */
  lemma ShiftChordIsUppercase(c: char)
    requires IsLower(c)
    ensures ChordReport(MODIFIER_LSHIFT, [c]) == Some(KeypressReport([(c as int - 0x20) as char]))
  {
    ChordLiteral(MODIFIER_LSHIFT, c);
    LowercaseKeys(c);
    var u := (c as int - 0x20) as char;
    assert At([u], 0) == u;
    assert KeypressReport([u]) == CharReport(u);
  }

  /** Without modifiers, ModifiersAndKey sends what SingleKeypress sends for
      every key it accepts, except for the names only SingleKeypress knows. */
  lemma UnmodifiedChordIsKeypress(key: string)
    requires |key| >= 1 && ChordReport(0, key).Some?
    requires key != "/space" && key != "/enter"
    ensures ChordReport(0, key) == Some(KeypressReport(key))
  {
  }

  /** The operation keys of SingleKeypress, with no modifier; an unknown
      "/..." name sends an all-zero press. */
  lemma KeypressOperations(key: string)
    requires IsOperationName(key)
    ensures KeypressReport("/enter") == Press(0, KEY_ENTER)
    ensures KeypressReport("/space") == Press(0, KEY_SPACE)
    ensures KeypressReport("/esc") == Press(0, KEY_ESCAPE)
    ensures KeypressReport("/del") == Press(0, KEY_DELETE)
    ensures KeypressReport("/tab") == Press(0, KEY_TAB)
    ensures KeypressOperationKey(key) == 0 ==> KeypressReport(key) == Released
  {
  }

  /** "/space" and " " press the same key. */
  lemma KeypressSpaceAlias()
    ensures KeypressReport("/space") == KeypressReport(" ")
  {
  }

  /** A literal of several characters is not rejected: only its first
      character is pressed. The empty string presses shift alone. */
  lemma KeypressFirstCharOnly(key: string)
    requires |key| >= 2 && key[0] != '/'
    ensures KeypressReport(key) == KeypressReport([key[0]]) == CharReport(key[0])
    ensures KeypressReport("") == Press(MODIFIER_LSHIFT, 0)
  {
  }

  /** What the keyboard does to the outside world: hand a report to the USB
      stack, or wait a number of milliseconds. */
  datatype Event = Sent(bytes: seq<byte>) | Waited(ms: int)

  /** The events of one key event: the press report, a wait of the key
      interval, the release report, another wait. This is the specification
      of PressKeys, and through it of every public operation that presses a key. */
  function KeyEvent(press: seq<byte>): (r: seq<Event>)
    ensures |r| == 4 && r[0] == Sent(press) && r[2] == Sent(Released)
    ensures r[1] == Waited(KEY_INTERVAL) && r[3] == Waited(KEY_INTERVAL)
  {
    [Sent(press), Waited(KEY_INTERVAL), Sent(Released), Waited(KEY_INTERVAL)]
  }

  /** The events TypeString produces for `s`: one key event per character,
      pressing that character's report. */
  function TypedEvents(s: string): (r: seq<Event>)
    ensures |r| == 4 * |s|
  {
    if s == [] then [] else TypedEvents(s[..|s| - 1]) + KeyEvent(CharReport(s[|s| - 1]))
  }

  /** A log made of (send, wait) pairs: every report sent is well formed and
      is followed at once by one wait of the key interval. */
  predicate Paced(log: seq<Event>)
    decreases |log|
  {
    log == [] ||
    (|log| >= 2 && log[|log| - 2].Sent? && WellFormed(log[|log| - 2].bytes) &&
     log[|log| - 1] == Waited(KEY_INTERVAL) && Paced(log[..|log| - 2]))
  }

  /** The reports in a log, in the order they were sent. */
  function SentReports(log: seq<Event>): (r: seq<seq<byte>>)
    ensures |r| <= |log|
  {
    if log == [] then []
    else SentReports(log[..|log| - 1]) + (if log[|log| - 1].Sent? then [log[|log| - 1].bytes] else [])
  }

  /** The milliseconds waited over a log. */
  function TotalWait(log: seq<Event>): int
  {
    if log == [] then 0
    else TotalWait(log[..|log| - 1]) + (if log[|log| - 1].Waited? then log[|log| - 1].ms else 0)
  }

  /** In a paced log the even positions are well-formed sends and the odd
      positions waits of the key interval. */
  lemma {:induction false} PacedAt(log: seq<Event>, k: nat)
    requires Paced(log) && k < |log|
    ensures |log| % 2 == 0
    ensures k % 2 == 0 ==> log[k].Sent? && WellFormed(log[k].bytes)
    ensures k % 2 == 1 ==> log[k] == Waited(KEY_INTERVAL)
  {
    var q := log[..|log| - 2];
    if k < |q| {
      PacedAt(q, k);
      assert log[k] == q[k];
    } else if q != [] {
      PacedAt(q, 0);
    }
  }

  /** Two paced logs one after the other make a paced log. */
  lemma {:induction false} PacedAppend(a: seq<Event>, b: seq<Event>)
    requires Paced(a) && Paced(b)
    ensures Paced(a + b)
  {
    if b == [] {
      assert a + b == a;
    } else {
      var q := b[..|b| - 2];
      PacedAppend(a, q);
      assert (a + b)[..|a + b| - 2] == a + q;
    }
  }

  /** A key event pressing a well-formed report is paced. */
  lemma KeyEventPaced(press: seq<byte>)
    requires WellFormed(press)
    ensures Paced(KeyEvent(press))
  {
    var e := KeyEvent(press);
    assert e[..2] == [Sent(press), Waited(KEY_INTERVAL)];
    assert e[..2][..0] == [];
  }

  /** Appending a send and a wait adds one report and that wait. */
  lemma PairReports(q: seq<Event>, x: seq<byte>, ms: int)
    ensures SentReports(q + [Sent(x), Waited(ms)]) == SentReports(q) + [x]
    ensures TotalWait(q + [Sent(x), Waited(ms)]) == TotalWait(q) + ms
  {
    var l := q + [Sent(x), Waited(ms)];
    assert l[..|l| - 1] == q + [Sent(x)];
    assert (q + [Sent(x)])[..|q|] == q;
  }

  /** A key event sends its press report and then the release report. */
  lemma KeyEventReports(press: seq<byte>)
    ensures SentReports(KeyEvent(press)) == [press, Released]
    ensures TotalWait(KeyEvent(press)) == 2 * KEY_INTERVAL
  {
    var first := [Sent(press), Waited(KEY_INTERVAL)];
    PairReports([], press, KEY_INTERVAL);
    assert [] + first == first;
    PairReports(first, Released, KEY_INTERVAL);
    assert KeyEvent(press) == first + [Sent(Released), Waited(KEY_INTERVAL)];
  }

  /** The reports of a log split with the log. */
  lemma {:induction false} SentReportsAppend(a: seq<Event>, b: seq<Event>)
    ensures SentReports(a + b) == SentReports(a) + SentReports(b)
    ensures TotalWait(a + b) == TotalWait(a) + TotalWait(b)
  {
    if b == [] {
      assert a + b == a;
    } else {
      var q := b[..|b| - 1];
      SentReportsAppend(a, q);
      assert (a + b)[..|a + b| - 1] == a + q;
    }
  }

  /** Typing `s` is paced, sends exactly TypedReports(s) and waits the key
      interval twice per character. */
  lemma {:induction false} TypedEventsReports(s: string)
    ensures Paced(TypedEvents(s))
    ensures SentReports(TypedEvents(s)) == TypedReports(s)
    ensures TotalWait(TypedEvents(s)) == 2 * KEY_INTERVAL * |s|
  {
    if s != [] {
      var p, c := s[..|s| - 1], s[|s| - 1];
      TypedEventsReports(p);
      KeyEventPaced(CharReport(c));
      KeyEventReports(CharReport(c));
      PacedAppend(TypedEvents(p), KeyEvent(CharReport(c)));
      SentReportsAppend(TypedEvents(p), KeyEvent(CharReport(c)));
    }
  }

  /** Typing one more character of `s` adds that character's key event,
      after whatever log came before. */
  lemma TypedEventsStep(log: seq<Event>, s: string, i: nat)
    requires i < |s|
    ensures TypedEvents(s[..i + 1]) == TypedEvents(s[..i]) + KeyEvent(CharReport(s[i]))
    ensures log + TypedEvents(s[..i + 1]) == (log + TypedEvents(s[..i])) + KeyEvent(CharReport(s[i]))
  {
    assert s[..i + 1][..i] == s[..i];
  }

  /** Events 4i..4i+3 of TypedEvents(s) are the key event of character i. */
  lemma {:induction false} TypedEventsAt(s: string, i: nat)
    requires i < |s|
    ensures TypedEvents(s)[4 * i .. 4 * i + 4] == KeyEvent(CharReport(s[i]))
  {
    var p := s[..|s| - 1];
    if i < |s| - 1 {
      TypedEventsAt(p, i);
      assert s[i] == p[i];
      assert TypedEvents(s)[4 * i .. 4 * i + 4] == TypedEvents(p)[4 * i .. 4 * i + 4];
    }
  }

  /** In a paced log, the total wait is the key interval once per report sent. */
  lemma {:induction false} PacedTiming(log: seq<Event>)
    requires Paced(log)
    ensures TotalWait(log) == KEY_INTERVAL * |SentReports(log)|
  {
    if log != [] {
      var q := log[..|log| - 2];
      PacedTiming(q);
      assert log == q + [Sent(log[|log| - 2].bytes), Waited(KEY_INTERVAL)];
      PairReports(q, log[|log| - 2].bytes, KEY_INTERVAL);
    }
  }

  /** The session state. One object stands for the program's globals:
      `report` is the buffer `report_struct` points to, `initialized` says
      that pointer is not NULL, `reportSize` is `report_size`. */
  class Keyboard {
    var report: array<byte>
    var reportSize: nat
    var initialized: bool
    /** Every report handed to the USB stack and every wait, in order. */
    ghost var events: seq<Event>

    /** While allocated, the buffer holds exactly one report. */
    ghost predicate Allocated()
      reads this
    {
      initialized ==> report.Length == ReportSize && reportSize == ReportSize
    }

    /** The invariant between public calls: an allocated buffer holds one
        report and is all zero, and every report sent so far was well formed
        and was followed at once by one wait of the key interval. */
    ghost predicate Valid()
      reads this, report
    {
      Allocated() && Paced(events) && (initialized ==> report[..] == Released)
    }

    /** The state at program start: `report_struct` is NULL, nothing sent. */
    constructor ()
      ensures Valid() && !initialized
      ensures events == []
    {
      report := new byte[0];
      reportSize := 0;
      initialized := false;
      events := [];
    }

    /** Hand the buffer's contents to the USB stack. */
    method Send()
      requires reportSize <= report.Length
      modifies this`events
      ensures events == old(events) + [Sent(report[..reportSize])]
    {
      events := events + [Sent(report[..reportSize])];
    }

    /** Wait `ms` milliseconds. */
    method Delay(ms: int)
      modifies this`events
      ensures events == old(events) + [Waited(ms)]
    {
      events := events + [Waited(ms)];
    }

    /** `memset(report_struct, 0, report_size)`. */
    method Clear()
      requires initialized && Allocated()
      modifies report
      ensures report[..] == Released
    {
      forall i | 0 <= i < report.Length {
        report[i] := 0;
      }
      assert report[..] == Released by {
        assert forall i | 0 <= i < ReportSize :: report[..][i] == Released[i];
      }
    }

    /** Send the buffer as a press, wait, zero it, send the release, wait. */
    method PressKeys()
      requires initialized && Allocated() && Paced(events) && WellFormed(report[..])
      modifies this`events, report
      ensures Valid()
      ensures events == old(events) + KeyEvent(old(report[..]))
    {
      ghost var press := report[..];
      KeyEventPaced(press);
      PacedAppend(events, KeyEvent(press));
      assert report[..reportSize] == report[..];
      Send();
      Delay(KEY_INTERVAL);
      Clear();
      assert report[..reportSize] == Released;
      Send();
      Delay(KEY_INTERVAL);
      assert events == old(events) + KeyEvent(press);
    }

    /** Write the modifier and keycode for character `s` into the buffer. */
    method KeyMap(s: char)
      requires initialized && Allocated()
      modifies report
      ensures report[..] == MapInto(old(report[..]), s)
    {
      if 0x41 <= s as int <= 0x5A {
        report[MODIFIER] := MODIFIER_LSHIFT;
        report[KEYCODE1] := s as int - 0x3D;
        return;
      } else if 0x61 <= s as int <= 0x7A {
        report[KEYCODE1] := s as int - 0x5D;
        return;
      } else if 0x30 <= s as int <= 0x39 {
        report[KEYCODE1] := if s as int == 0x30 then 0x27 else s as int - 0x13;
      } else if s == ' ' || s == '/' || s == '-' || s == '=' || s == '[' || s == ']' || s == ';' || s == ',' || s == '.' {
        match s {
          case ' ' => report[KEYCODE1] := KEY_SPACE; return;
          case '/' => report[KEYCODE1] := 0x38; return;
          case '-' => report[KEYCODE1] := 0x2D; return;
          case '=' => report[KEYCODE1] := 0x2E; return;
          case '[' => report[KEYCODE1] := 0x2F; return;
          case ']' => report[KEYCODE1] := 0x30; return;
          case ';' => report[KEYCODE1] := 0x33; return;
          case ',' => report[KEYCODE1] := 0x36; return;
          case '.' => report[KEYCODE1] := 0x37; return;
          case _ =>
        }
      } else {
        var temp: byte :=
          match s
          case '!' => 0x1E
          case '@' => 0x1F
          case '#' => 0x20
          case '$' => 0x21
          case '%' => 0x22
          case '^' => 0x23
          case '&' => 0x24
          case '*' => 0x25
          case '(' => 0x26
          case ')' => 0x27
          case '_' => 0x2D
          case '+' => 0x2E
          case ':' => 0x33
          case '<' => 0x36
          case '>' => 0x37
          case '?' => 0x38
          case _ => 0;
        report[MODIFIER] := MODIFIER_LSHIFT;
        report[KEYCODE1] := temp;
        return;
      }
    }

    /** Allocate the buffer and zero it. */
    method KeyboardInit()
      requires Valid()
      modifies this`report, this`reportSize, this`initialized
      ensures Valid() && initialized && fresh(report)
      ensures events == old(events)
    {
      reportSize := ReportSize;
      report := new byte[reportSize];
      initialized := true;
      Clear();
    }

    /** Type `str` character by character. Without a buffer it sends nothing;
        otherwise each character is one press of its mapped key and one
        release, unmapped characters included. */
    method TypeString(str: string)
      requires Valid() && IsCString(str)
      modifies this`events, report
      ensures Valid()
      ensures old(initialized) ==> events == old(events) + TypedEvents(str)
      ensures !old(initialized) ==> events == old(events) && report[..] == old(report[..])
    {
      if !initialized {
        return;
      }
      Clear();
      ghost var before := events;
      var i := 0;
      while At(str, i) != '\0'
        invariant 0 <= i <= |str|
        invariant Valid() && initialized
        invariant events == before + TypedEvents(str[..i])
        decreases |str| - i
      {
        KeyMap(str[i]);
        assert report[..] == CharReport(str[i]);
        PressKeys();
        TypedEventsStep(before, str, i);
        i := i + 1;
      }
      assert str[..i] == str;
    }

    /** Press `key` together with the modifier bits `modifiers`, then release.
        A key of two or more characters not starting with '/' is rejected. */
    method ModifiersAndKey(modifiers: byte, key: string)
      requires Valid() && IsCString(key) && |key| >= 1
      modifies this`events, report
      ensures Valid()
      ensures old(initialized) && ChordReport(modifiers, key).Some? ==>
        events == old(events) + KeyEvent(ChordReport(modifiers, key).value)
      ensures !old(initialized) || ChordReport(modifiers, key).None? ==>
        events == old(events) && report[..] == old(report[..])
    {
      if At(key, 1) != '\0' && key[0] != '/' {
        return;
      }
      if !initialized {
        return;
      }
      assert At(key, 1) != '\0' <==> |key| >= 2;
      Clear();
      report[MODIFIER] := modifiers;
      assert report[..] == Press(modifiers, 0);
      if key[0] == '/' && At(key, 1) != '\0' {
        if key == "/esc" {
          report[KEYCODE1] := KEY_ESCAPE;
        } else if key == "/del" {
          report[KEYCODE1] := KEY_DELETE;
        } else if key == "/tab" {
          report[KEYCODE1] := KEY_TAB;
        }
        assert report[..] == Press(modifiers, ChordOperationKey(key));
      } else {
        KeyMap(key[0]);
      }
      PressKeys();
    }

    /** Press and release one key: a character, or an operation key named
        with a leading '/'. The buffer is not cleared first. */
    method SingleKeypress(key: string)
      requires Valid() && IsCString(key)
      modifies this`events, report
      ensures Valid()
      ensures old(initialized) ==> events == old(events) + KeyEvent(KeypressReport(key))
      ensures !old(initialized) ==> events == old(events) && report[..] == old(report[..])
    {
      if !initialized {
        return;
      }
      assert At(key, 1) != '\0' <==> |key| >= 2;
      if At(key, 0) == '/' && At(key, 1) != '\0' {
        if key == "/esc" {
          report[KEYCODE1] := KEY_ESCAPE;
        } else if key == "/del" {
          report[KEYCODE1] := KEY_DELETE;
        } else if key == "/tab" {
          report[KEYCODE1] := KEY_TAB;
        } else if key == "/space" {
          report[KEYCODE1] := KEY_SPACE;
        } else if key == "/enter" {
          report[KEYCODE1] := KEY_ENTER;
        }
        assert report[..] == Press(0, KeypressOperationKey(key));
      } else {
        KeyMap(At(key, 0));
      }
      PressKeys();
    }

    /** Release the buffer. Calling it again does nothing more. */
    method KeyboardDeinit()
      requires Valid()
      modifies this`initialized
      ensures Valid() && !initialized
      ensures events == old(events)
    {
      if initialized {
        initialized := false;
      }
    }
  }
}
