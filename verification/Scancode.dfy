/** Keyboard scancodes: decoding them one sequence at a time, and undoing the keyboard controller's translation. */
module Scancode {
  import opened Basics

  /** Keys that have a name. */
  datatype Name =
    | Esc | F1 | F2 | F3 | F4 | F5 | F6 | F7 | F8 | F9 | F10 | F11 | F12 | Backtick | N1 | N2 | N3 | N4 | N5 | N6
    | N7 | N8 | N9 | N0 | Minus | Equals | Backspace | Tab | Q | W | E | R | T | Y | U | I | O | P | BracketLeft
    | BracketRight | Backslash | CapsLock | A | S | D | F | G | H | J | K | L | Semicolon | Quote | Enter | ShiftLeft
    | Z | X | C | V | B | N | M | Comma | Dot | Slash | ShiftRight | CtrlLeft | AltLeft | Space | AltRight
    | CtrlRight | PrintScreen | ScrollLock | Pause | Insert | Home | PageUp | Del | End | PageDown | Up | Left | Down
    | Right | NumLock | NumDiv | NumMul | NumSub | NumAdd | Num7 | Num8 | Num9 | Num4 | Num5 | Num6 | Num1 | Num2
    | Num3 | Num0 | NumDot | NumEnter | WinLeft | WinRight | WinMenu | MmBack | MmForward | MmPlay | MmPause | MmStop
    | MmVolumeUp | MmVolumeDown | WebHome | WebFavourites | WebSearch | WebMail | PwrOn | PwrSleep | PwrWake

  /** A key by name, or by the code or the prefix and code that no name is known for. */
  datatype Key = Named(name: Name) | Unknown(code: Byte) | Extended(prefix: Byte, code: Byte)

  datatype Event = Event(key: Key, up: bool)

  datatype CodeSet = Set1 | Set2 | Set3

  // The tables.

  /** What the controller translated into a byte. */
  function UndoTranslation(c: Byte): Byte {
    match c
    case 0x00 => 0xff case 0x01 => 0x76 case 0x02 => 0x16 case 0x03 => 0x1e case 0x04 => 0x26 case 0x05 => 0x25
    case 0x06 => 0x2e case 0x07 => 0x36 case 0x08 => 0x3d case 0x09 => 0x3e case 0x0a => 0x46 case 0x0b => 0x45
    case 0x0c => 0x4e case 0x0d => 0x55 case 0x0e => 0x66 case 0x0f => 0x0d case 0x10 => 0x15 case 0x11 => 0x1d
    case 0x12 => 0x24 case 0x13 => 0x2d case 0x14 => 0x2c case 0x15 => 0x35 case 0x16 => 0x3c case 0x17 => 0x43
    case 0x18 => 0x44 case 0x19 => 0x4d case 0x1a => 0x54 case 0x1b => 0x5b case 0x1c => 0x5a case 0x1d => 0x14
    case 0x1e => 0x1c case 0x1f => 0x1b case 0x20 => 0x23 case 0x21 => 0x2b case 0x22 => 0x34 case 0x23 => 0x33
    case 0x24 => 0x3b case 0x25 => 0x42 case 0x26 => 0x4b case 0x27 => 0x4c case 0x28 => 0x52 case 0x29 => 0x0e
    case 0x2a => 0x12 case 0x2b => 0x5d case 0x2c => 0x1a case 0x2d => 0x22 case 0x2e => 0x21 case 0x2f => 0x2a
    case 0x30 => 0x32 case 0x31 => 0x31 case 0x32 => 0x3a case 0x33 => 0x41 case 0x34 => 0x49 case 0x35 => 0x4a
    case 0x36 => 0x59 case 0x37 => 0x7c case 0x38 => 0x11 case 0x39 => 0x29 case 0x3a => 0x58 case 0x3b => 0x05
    case 0x3c => 0x06 case 0x3d => 0x04 case 0x3e => 0x0c case 0x3f => 0x03 case 0x40 => 0x0b case 0x41 => 0x02
    case 0x42 => 0x0a case 0x43 => 0x01 case 0x44 => 0x09 case 0x45 => 0x77 case 0x46 => 0x7e case 0x47 => 0x6c
    case 0x48 => 0x75 case 0x49 => 0x7d case 0x4a => 0x7b case 0x4b => 0x6b case 0x4c => 0x73 case 0x4d => 0x74
    case 0x4e => 0x79 case 0x4f => 0x69 case 0x50 => 0x72 case 0x51 => 0x7a case 0x52 => 0x70 case 0x53 => 0x71
    case 0x54 => 0x84 case 0x55 => 0x60 case 0x56 => 0x61 case 0x57 => 0x78 case 0x58 => 0x07 case 0x59 => 0x0f
    case 0x5a => 0x17 case 0x5b => 0x1f case 0x5c => 0x27 case 0x5d => 0x2f case 0x5e => 0x37 case 0x5f => 0x3f
    case 0x60 => 0x47 case 0x61 => 0x4f case 0x62 => 0x56 case 0x63 => 0x5e case 0x64 => 0x08 case 0x65 => 0x10
    case 0x66 => 0x18 case 0x67 => 0x20 case 0x68 => 0x28 case 0x69 => 0x30 case 0x6a => 0x38 case 0x6b => 0x40
    case 0x6c => 0x48 case 0x6d => 0x50 case 0x6e => 0x57 case 0x6f => 0x6f case 0x70 => 0x13 case 0x71 => 0x19
    case 0x72 => 0x39 case 0x73 => 0x51 case 0x74 => 0x53 case 0x75 => 0x5c case 0x76 => 0x5f case 0x77 => 0x62
    case 0x78 => 0x63 case 0x79 => 0x64 case 0x7a => 0x65 case 0x7b => 0x67 case 0x7c => 0x68 case 0x7d => 0x6a
    case 0x7e => 0x6d case 0x7f => 0x6e case 0xff => 0x00
    case _ => c
  }

  /** The set 2 code for a set 1 code without its highest bit. */
  function Set1ToSet2(c: Byte): Byte
    requires c < 0x80
  {
    match c
    case 0x00 => 0x00 case 0x01 => 0x76 case 0x02 => 0x16 case 0x03 => 0x1e case 0x04 => 0x26 case 0x05 => 0x25
    case 0x06 => 0x2e case 0x07 => 0x36 case 0x08 => 0x3d case 0x09 => 0x3e case 0x0a => 0x46 case 0x0b => 0x45
    case 0x0c => 0x4e case 0x0d => 0x55 case 0x0e => 0x66 case 0x0f => 0x0d case 0x10 => 0x15 case 0x11 => 0x1d
    case 0x12 => 0x24 case 0x13 => 0x2d case 0x14 => 0x2c case 0x15 => 0x35 case 0x16 => 0x3c case 0x17 => 0x43
    case 0x18 => 0x44 case 0x19 => 0x4d case 0x1a => 0x54 case 0x1b => 0x5b case 0x1c => 0x5a case 0x1d => 0x14
    case 0x1e => 0x1c case 0x1f => 0x1b case 0x20 => 0x23 case 0x21 => 0x2b case 0x22 => 0x34 case 0x23 => 0x33
    case 0x24 => 0x3b case 0x25 => 0x42 case 0x26 => 0x4b case 0x27 => 0x4c case 0x28 => 0x52 case 0x29 => 0x0e
    case 0x2a => 0x12 case 0x2b => 0x5d case 0x2c => 0x1a case 0x2d => 0x22 case 0x2e => 0x21 case 0x2f => 0x2a
    case 0x30 => 0x32 case 0x31 => 0x31 case 0x32 => 0x3a case 0x33 => 0x41 case 0x34 => 0x49 case 0x35 => 0x4a
    case 0x36 => 0x59 case 0x37 => 0x7c case 0x38 => 0x11 case 0x39 => 0x29 case 0x3a => 0x58 case 0x3b => 0x05
    case 0x3c => 0x06 case 0x3d => 0x04 case 0x3e => 0x0c case 0x3f => 0x03 case 0x40 => 0x0b case 0x41 => 0x83
    case 0x42 => 0x0a case 0x43 => 0x01 case 0x44 => 0x09 case 0x45 => 0x77 case 0x46 => 0x7e case 0x47 => 0x6c
    case 0x48 => 0x75 case 0x49 => 0x7d case 0x4a => 0x7b case 0x4b => 0x6b case 0x4c => 0x73 case 0x4d => 0x74
    case 0x4e => 0x79 case 0x4f => 0x69 case 0x50 => 0x72 case 0x51 => 0x7a case 0x52 => 0x70 case 0x53 => 0x71
    case 0x54 => 0x84 case 0x55 => 0x60 case 0x56 => 0x61 case 0x57 => 0x78 case 0x58 => 0x07 case 0x59 => 0x0f
    case 0x5a => 0x17 case 0x5b => 0x1f case 0x5c => 0x27 case 0x5d => 0x2f case 0x5e => 0x37 case 0x5f => 0x3f
    case 0x60 => 0x47 case 0x61 => 0x4f case 0x62 => 0x56 case 0x63 => 0x5e case 0x64 => 0x08 case 0x65 => 0x10
    case 0x66 => 0x18 case 0x67 => 0x20 case 0x68 => 0x28 case 0x69 => 0x30 case 0x6a => 0x38 case 0x6b => 0x40
    case 0x6c => 0x48 case 0x6d => 0x50 case 0x6e => 0x57 case 0x6f => 0x6f case 0x70 => 0x13 case 0x71 => 0x19
    case 0x72 => 0x39 case 0x73 => 0x51 case 0x74 => 0x53 case 0x75 => 0x5c case 0x76 => 0x5f case 0x77 => 0x62
    case 0x78 => 0x63 case 0x79 => 0x64 case 0x7a => 0x65 case 0x7b => 0x67 case 0x7c => 0x68 case 0x7d => 0x6a
    case 0x7e => 0x6d
    case _ => 0x6e
  }

  /** The set 3 code for a set 2 code; zero for those that are the same. */
  function Set2ToSet3(c: Byte): Byte {
    match c
    case 0x01 => 0x47 case 0x03 => 0x27 case 0x04 => 0x17 case 0x05 => 0x07 case 0x06 => 0x0f case 0x07 => 0x5e
    case 0x09 => 0x4f case 0x0a => 0x3f case 0x0b => 0x2f case 0x0c => 0x1f case 0x11 => 0x19 case 0x14 => 0x11
    case 0x58 => 0x14 case 0x5d => 0x5c case 0x76 => 0x08 case 0x77 => 0x76 case 0x78 => 0x56 case 0x79 => 0x7c
    case 0x7b => 0x84 case 0x7c => 0x7e case 0x7e => 0x5f case 0x83 => 0x37 case 0x84 => 0x57
    case _ => 0
  }

  /** The set 3 code for a set 2 code after the prefix 0xe0; zero for those that there are none for. */
  function Set2E0ToSet3(c: Byte): Byte {
    match c
    case 0x11 => 0x39 case 0x14 => 0x58 case 0x1f => 0x8b case 0x27 => 0x8c case 0x2f => 0x8d case 0x3f => 0x7f
    case 0x4a => 0x77 case 0x5a => 0x79 case 0x69 => 0x65 case 0x6b => 0x61 case 0x6c => 0x6e case 0x70 => 0x67
    case 0x71 => 0x64 case 0x72 => 0x60 case 0x74 => 0x6a case 0x75 => 0x63 case 0x7a => 0x6d case 0x7c => 0x57
    case 0x7d => 0x6f case 0x7e => 0x62
    case _ => 0
  }

  function KeyName(c: Byte): Option<Name> {
    match c
    case 0x07 => Some(F1) case 0x08 => Some(Esc) case 0x0d => Some(Tab) case 0x0e => Some(Backtick)
    case 0x0f => Some(F2) case 0x11 => Some(CtrlLeft) case 0x12 => Some(ShiftLeft) case 0x14 => Some(CapsLock)
    case 0x15 => Some(Q) case 0x16 => Some(N1) case 0x17 => Some(F3) case 0x19 => Some(AltLeft) case 0x1a => Some(Z)
    case 0x1b => Some(S) case 0x1c => Some(A) case 0x1d => Some(W) case 0x1e => Some(N2) case 0x1f => Some(F4)
    case 0x21 => Some(C) case 0x22 => Some(X) case 0x23 => Some(D) case 0x24 => Some(E) case 0x25 => Some(N4)
    case 0x26 => Some(N3) case 0x27 => Some(F5) case 0x29 => Some(Space) case 0x2a => Some(V) case 0x2b => Some(F)
    case 0x2c => Some(T) case 0x2d => Some(R) case 0x2e => Some(N5) case 0x2f => Some(F6) case 0x31 => Some(N)
    case 0x32 => Some(B) case 0x33 => Some(H) case 0x34 => Some(G) case 0x35 => Some(Y) case 0x36 => Some(N6)
    case 0x37 => Some(F7) case 0x39 => Some(AltRight) case 0x3a => Some(M) case 0x3b => Some(J) case 0x3c => Some(U)
    case 0x3d => Some(N7) case 0x3e => Some(N8) case 0x3f => Some(F8) case 0x41 => Some(Comma) case 0x42 => Some(K)
    case 0x43 => Some(I) case 0x44 => Some(O) case 0x45 => Some(N0) case 0x46 => Some(N9) case 0x47 => Some(F9)
    case 0x49 => Some(Dot) case 0x4a => Some(Slash) case 0x4b => Some(L) case 0x4c => Some(Semicolon)
    case 0x4d => Some(P) case 0x4e => Some(Minus) case 0x4f => Some(F10) case 0x52 => Some(Quote)
    case 0x54 => Some(BracketLeft) case 0x55 => Some(Equals) case 0x56 => Some(F11) case 0x57 => Some(PrintScreen)
    case 0x58 => Some(CtrlRight) case 0x59 => Some(ShiftRight) case 0x5a => Some(Enter)
    case 0x5b => Some(BracketRight) case 0x5c => Some(Backslash) case 0x5e => Some(F12) case 0x5f => Some(ScrollLock)
    case 0x60 => Some(Down) case 0x61 => Some(Left) case 0x62 => Some(Pause) case 0x63 => Some(Up)
    case 0x64 => Some(Del) case 0x65 => Some(End) case 0x66 => Some(Backspace) case 0x67 => Some(Insert)
    case 0x69 => Some(Num1) case 0x6a => Some(Right) case 0x6b => Some(Num4) case 0x6c => Some(Num7)
    case 0x6d => Some(PageDown) case 0x6e => Some(Home) case 0x6f => Some(PageUp) case 0x70 => Some(Num0)
    case 0x71 => Some(NumDot) case 0x72 => Some(Num2) case 0x73 => Some(Num5) case 0x74 => Some(Num6)
    case 0x75 => Some(Num8) case 0x76 => Some(NumLock) case 0x77 => Some(NumDiv) case 0x79 => Some(NumEnter)
    case 0x7a => Some(Num3) case 0x7c => Some(NumAdd) case 0x7d => Some(Num9) case 0x7e => Some(NumMul)
    case 0x7f => Some(PwrSleep) case 0x84 => Some(NumSub) case 0x8b => Some(WinLeft) case 0x8c => Some(WinRight)
    case 0x8d => Some(WinMenu)
    case _ => None
  }

  /** The two tables for set 1 codes differ in exactly two places. */
  lemma TablesAgree(c: Byte)
    requires c < 0x80
    ensures UndoTranslation(c) == Set1ToSet2(c) <==> c != 0 && c != 0x41
  {
  }

  lemma UndoneIsNoPrefix(c: Byte)
    requires c < 0x80
    ensures UndoTranslation(c) < 0xe0 || UndoTranslation(c) == 0xff
  {
  }

  // Decoding byte by byte.

  /** Without the highest bit. */
  function Low(c: Byte): Byte {
    if c >= 0x80 then c - 0x80 else c
  }

  /** What has been seen of an incomplete sequence. */
  datatype State = State(prefix: Byte, up: bool)

  const START := State(0, false)

  predicate IsPrefix(codes: CodeSet, c: Byte) {
    (codes != Set3 && 0xe0 <= c < 0xf0) || (codes != Set1 && c == 0xf0)
  }

  function AfterPrefix(codes: CodeSet, s: State, c: Byte): State {
    if codes != Set3 && 0xe0 <= c < 0xf0 then s.(prefix := c) else s.(up := true)
  }

  function PlainKey(c: Byte): Key {
    match KeyName(c)
    case Some(name) => Named(name)
    case None => Unknown(c)
  }

  /** The key for a set 2 code after a prefix, which is zero for none. */
  function KeyAfter(prefix: Byte, c: Byte): Key {
    if prefix == 0xe0 then
      if c == 0x37 then Named(PwrOn)
      else if c == 0x5e then Named(PwrWake)
      else if Set2E0ToSet3(c) != 0 then PlainKey(Set2E0ToSet3(c))
      else Extended(0xe0, c)
    else if prefix == 0xe1 && c == 0x14 then Named(Pause)
    else if prefix != 0 then Extended(prefix, c)
    else PlainKey(if Set2ToSet3(c) != 0 then Set2ToSet3(c) else c)
  }

  function EventOf(codes: CodeSet, s: State, c: Byte): Event {
    match codes
    case Set1 => Event(KeyAfter(s.prefix, Set1ToSet2(Low(c))), s.up || c >= 0x80)
    case Set2 => Event(KeyAfter(s.prefix, c), s.up)
    case Set3 => Event(PlainKey(c), s.up)
  }

  /** The events that bytes decode to, and what is pending after them. */
  function Decode(codes: CodeSet, s: State, bytes: seq<Byte>): (seq<Event>, State)
    decreases |bytes|
  {
    if bytes == [] then
      ([], s)
    else if IsPrefix(codes, bytes[0]) then
      Decode(codes, AfterPrefix(codes, s, bytes[0]), bytes[1..])
    else
      var (events, pending) := Decode(codes, START, bytes[1..]);
      ([EventOf(codes, s, bytes[0])] + events, pending)
  }

  // Translation.

  function UndoOne(c: Byte): seq<Byte> {
    if c >= 0x80 && !(0xe0 <= c < 0xf0) then [0xf0, UndoTranslation(Low(c))] else [UndoTranslation(c)]
  }

  function Undo(bytes: seq<Byte>): seq<Byte> {
    if bytes == [] then [] else UndoOne(bytes[0]) + Undo(bytes[1..])
  }

  predicate Differs(c: Byte) {
    Low(c) == 0 || Low(c) == 0x41
  }

  lemma FirstKeysDiffer(prefix: Byte)
    ensures KeyAfter(prefix, 0) != KeyAfter(prefix, 0xff)
  {
  }

  lemma SecondKeysDiffer(prefix: Byte)
    ensures KeyAfter(prefix, 0x83) != KeyAfter(prefix, 2)
  {
  }

  lemma SpecialCodes()
    ensures Set1ToSet2(0) == 0 && UndoTranslation(0) == 0xff
    ensures Set1ToSet2(0x41) == 0x83 && UndoTranslation(0x41) == 2
  {
  }

  /** A single translated byte means the same undone, unless the tables differ on it; then it means another key. */
  lemma CodeMeansTheSame(prefix: Byte, c: Byte)
    requires c < 0x80
    ensures KeyAfter(prefix, Set1ToSet2(c)) == KeyAfter(prefix, UndoTranslation(c)) <==> c != 0 && c != 0x41
  {
    if c == 0 {
      SpecialCodes();
      FirstKeysDiffer(prefix);
    } else if c == 0x41 {
      SpecialCodes();
      SecondKeysDiffer(prefix);
    } else {
      TablesAgree(c);
    }
  }

  predicate NoSpecials(bytes: seq<Byte>) {
    forall k | 0 <= k < |bytes| :: !Differs(bytes[k])
  }

  function Prepend(e: Event, r: (seq<Event>, State)): (seq<Event>, State) {
    ([e] + r.0, r.1)
  }

  lemma DecodeOne(codes: CodeSet, s: State, c: Byte, rest: seq<Byte>)
    ensures IsPrefix(codes, c) ==>
              Decode(codes, s, [c] + rest) == Decode(codes, AfterPrefix(codes, s, c), rest)
    ensures !IsPrefix(codes, c) ==>
              Decode(codes, s, [c] + rest) == Prepend(EventOf(codes, s, c), Decode(codes, START, rest))
  {
    assert ([c] + rest)[1..] == rest;
  }

  lemma DecodeBreak(s: State, c: Byte, rest: seq<Byte>)
    requires !IsPrefix(Set2, c)
    ensures Decode(Set2, s, [0xf0, c] + rest)
         == Prepend(Event(KeyAfter(s.prefix, c), true), Decode(Set2, START, rest))
  {
    assert [0xf0, c] + rest == [0xf0] + ([c] + rest);
    DecodeOne(Set2, s, 0xf0, [c] + rest);
    DecodeOne(Set2, s.(up := true), c, rest);
  }

  /** The event of a translated byte, decoded as set 2: a break code comes apart into two bytes. */
  lemma DecodeUndone(s: State, c: Byte, rest: seq<Byte>)
    requires !s.up && !IsPrefix(Set1, c)
    ensures Decode(Set2, s, UndoOne(c) + rest)
         == Prepend(Event(KeyAfter(s.prefix, UndoTranslation(Low(c))), c >= 0x80), Decode(Set2, START, rest))
  {
    UndoneIsNoPrefix(Low(c));
    var u := UndoTranslation(Low(c));
    if c >= 0x80 {
      assert UndoOne(c) == [0xf0, u];
      DecodeBreak(s, u, rest);
    } else {
      assert UndoOne(c) == [u];
      DecodeOne(Set2, s, u, rest);
    }
  }

  lemma UndonePrefix(s: State, c: Byte, rest: seq<Byte>)
    requires IsPrefix(Set1, c)
    ensures Decode(Set2, s, UndoOne(c) + rest) == Decode(Set2, AfterPrefix(Set1, s, c), rest)
  {
    assert UndoTranslation(c) == c;
    DecodeOne(Set2, s, c, rest);
  }

  lemma PrependSame(e: Event, a: (seq<Event>, State), f: Event, b: (seq<Event>, State))
    ensures Prepend(e, a) == Prepend(f, b) <==> e == f && a == b
  {
    assert Prepend(e, a).0[0] == e && Prepend(e, a).0[1..] == a.0;
    assert Prepend(f, b).0[0] == f && Prepend(f, b).0[1..] == b.0;
  }

  lemma CodeRoutes(s: State, c: Byte, rest: seq<Byte>, undone: seq<Byte>)
    requires !s.up && !IsPrefix(Set1, c)
    ensures Decode(Set1, s, [c] + rest) == Decode(Set2, s, UndoOne(c) + undone)
       <==> !Differs(c) && Decode(Set1, START, rest) == Decode(Set2, START, undone)
  {
    var e := EventOf(Set1, s, c);
    var f := Event(KeyAfter(s.prefix, UndoTranslation(Low(c))), c >= 0x80);
    DecodeOne(Set1, s, c, rest);
    DecodeUndone(s, c, undone);
    CodeMeansTheSame(s.prefix, Low(c));
    PrependSame(e, Decode(Set1, START, rest), f, Decode(Set2, START, undone));
  }

  lemma NoSpecialsFirst(c: Byte, rest: seq<Byte>)
    ensures NoSpecials([c] + rest) <==> !Differs(c) && NoSpecials(rest)
  {
    var bytes := [c] + rest;
    assert bytes[0] == c && forall k | 0 <= k < |rest| :: rest[k] == bytes[k + 1];
  }

  lemma UndoFirst(c: Byte, rest: seq<Byte>)
    ensures Undo([c] + rest) == UndoOne(c) + Undo(rest)
  {
    assert ([c] + rest)[1..] == rest;
  }

  /** Decoding translated bytes as set 1, and decoding what they were before translation as set 2, gives the same
      events and leaves the same pending, exactly when there is none of the bytes that the tables differ on. */
  lemma {:induction false} RoutesMeanTheSame(s: State, bytes: seq<Byte>)
    requires !s.up
    ensures Decode(Set1, s, bytes) == Decode(Set2, s, Undo(bytes)) <==> NoSpecials(bytes)
    decreases |bytes|
  {
    if bytes != [] {
      var (c, rest) := (bytes[0], bytes[1..]);
      assert bytes == [c] + rest;
      NoSpecialsFirst(c, rest);
      UndoFirst(c, rest);
      if IsPrefix(Set1, c) {
        DecodeOne(Set1, s, c, rest);
        UndonePrefix(s, c, Undo(rest));
        RoutesMeanTheSame(AfterPrefix(Set1, s, c), rest);
      } else {
        CodeRoutes(s, c, rest, Undo(rest));
        RoutesMeanTheSame(START, rest);
      }
    }
  }

  // Decoding as bytes arrive.

  function Prefixes(codes: CodeSet, bytes: seq<Byte>): (k: nat)
    ensures k <= |bytes| && (k < |bytes| ==> !IsPrefix(codes, bytes[k]))
    ensures forall i | 0 <= i < k :: IsPrefix(codes, bytes[i])
  {
    if bytes == [] || !IsPrefix(codes, bytes[0]) then 0 else 1 + Prefixes(codes, bytes[1..])
  }

  function Pending(codes: CodeSet, s: State, prefixes: seq<Byte>): State {
    if prefixes == [] then s
    else AfterPrefix(codes, Pending(codes, s, prefixes[..|prefixes| - 1]), prefixes[|prefixes| - 1])
  }

  /** What is left when all complete sequences are taken out. */
  function Remaining(codes: CodeSet, bytes: seq<Byte>): seq<Byte>
    decreases |bytes|
  {
    var k := Prefixes(codes, bytes);
    if k == |bytes| then bytes else Remaining(codes, bytes[k + 1..])
  }

  function Before(events: seq<Event>, r: (seq<Event>, State)): (seq<Event>, State) {
    (events + r.0, r.1)
  }

  lemma NothingBefore(r: (seq<Event>, State))
    ensures Before([], r) == r
  {
    assert [] + r.0 == r.0;
  }

  lemma PrependBefore(e: Event, events: seq<Event>, r: (seq<Event>, State))
    ensures Prepend(e, Before(events, r)) == Before([e] + events, r)
  {
    assert [e] + (events + r.0) == [e] + events + r.0;
  }

  lemma {:induction false} DecodeInParts(codes: CodeSet, s: State, a: seq<Byte>, b: seq<Byte>)
    ensures var (events, pending) := Decode(codes, s, a);
            Decode(codes, s, a + b) == Before(events, Decode(codes, pending, b))
    decreases |a|
  {
    if a == [] {
      assert a + b == b;
      NothingBefore(Decode(codes, s, b));
    } else {
      var (c, rest) := (a[0], a[1..]);
      assert a == [c] + rest && a + b == [c] + (rest + b);
      DecodeOne(codes, s, c, rest);
      DecodeOne(codes, s, c, rest + b);
      if IsPrefix(codes, c) {
        DecodeInParts(codes, AfterPrefix(codes, s, c), rest, b);
      } else {
        DecodeInParts(codes, START, rest, b);
        var (events, pending) := Decode(codes, START, rest);
        PrependBefore(EventOf(codes, s, c), events, Decode(codes, pending, b));
      }
    }
  }

  lemma {:induction false} PrefixesDecodeToNothing(codes: CodeSet, s: State, p: seq<Byte>)
    requires forall i | 0 <= i < |p| :: IsPrefix(codes, p[i])
    ensures Decode(codes, s, p) == ([], Pending(codes, s, p))
  {
    if p != [] {
      var (q, c) := (p[..|p| - 1], p[|p| - 1]);
      assert p == q + [c] && [c] + [] == [c];
      PrefixesDecodeToNothing(codes, s, q);
      DecodeInParts(codes, s, q, [c]);
      DecodeOne(codes, Pending(codes, s, q), c, []);
      NothingBefore(Decode(codes, Pending(codes, s, q), [c]));
    }
  }

  /** The event of the first complete sequence. */
  function FirstEvent(codes: CodeSet, bytes: seq<Byte>): Event
    requires Prefixes(codes, bytes) < |bytes|
  {
    var k := Prefixes(codes, bytes);
    EventOf(codes, Pending(codes, START, bytes[..k]), bytes[k])
  }

  /** What comes after the first complete sequence. */
  function Rest(codes: CodeSet, bytes: seq<Byte>): seq<Byte>
    requires Prefixes(codes, bytes) < |bytes|
  {
    bytes[Prefixes(codes, bytes) + 1..]
  }

  lemma SplitAt(bytes: seq<Byte>, k: nat)
    requires k < |bytes|
    ensures bytes == bytes[..k] + ([bytes[k]] + bytes[k + 1..])
  {
  }

  lemma SequenceIsOneEvent(codes: CodeSet, p: seq<Byte>, c: Byte, rest: seq<Byte>)
    requires (forall i | 0 <= i < |p| :: IsPrefix(codes, p[i])) && !IsPrefix(codes, c)
    ensures Decode(codes, START, p + ([c] + rest))
         == Prepend(EventOf(codes, Pending(codes, START, p), c), Decode(codes, START, rest))
  {
    PrefixesDecodeToNothing(codes, START, p);
    DecodeInParts(codes, START, p, [c] + rest);
    DecodeOne(codes, Pending(codes, START, p), c, rest);
    NothingBefore(Decode(codes, Pending(codes, START, p), [c] + rest));
  }

  /** The first complete sequence is one event. */
  lemma FirstSequence(codes: CodeSet, bytes: seq<Byte>)
    requires Prefixes(codes, bytes) < |bytes|
    ensures Decode(codes, START, bytes) == Prepend(FirstEvent(codes, bytes), Decode(codes, START, Rest(codes, bytes)))
  {
    var k := Prefixes(codes, bytes);
    SplitAt(bytes, k);
    SequenceIsOneEvent(codes, bytes[..k], bytes[k], bytes[k + 1..]);
  }

  /** Taking complete sequences out leaves the same pending. */
  lemma {:induction false} RemainderMeansTheSame(codes: CodeSet, bytes: seq<Byte>)
    ensures Decode(codes, START, Remaining(codes, bytes)) == ([], Decode(codes, START, bytes).1)
    decreases |bytes|
  {
    var k := Prefixes(codes, bytes);
    if k == |bytes| {
      PrefixesDecodeToNothing(codes, START, bytes);
    } else {
      FirstSequence(codes, bytes);
      RemainderMeansTheSame(codes, bytes[k + 1..]);
    }
  }

  /** Bytes arrive in chunks, and after each of them all complete sequences are taken out. */
  function InChunks(codes: CodeSet, queue: seq<Byte>, chunks: seq<seq<Byte>>): (seq<Event>, seq<Byte>)
    decreases |chunks|
  {
    if chunks == [] then
      ([], queue)
    else
      var bytes := queue + chunks[0];
      var (events, left) := InChunks(codes, Remaining(codes, bytes), chunks[1..]);
      (Decode(codes, START, bytes).0 + events, left)
  }

  function Joined(chunks: seq<seq<Byte>>): seq<Byte> {
    if chunks == [] then [] else chunks[0] + Joined(chunks[1..])
  }

  /** What comes later decodes the same, whether or not complete sequences have been taken out before. */
  lemma DrainedThenMore(codes: CodeSet, bytes: seq<Byte>, more: seq<Byte>)
    ensures Decode(codes, START, Remaining(codes, bytes)).0 == []
    ensures Decode(codes, START, bytes + more)
         == Before(Decode(codes, START, bytes).0, Decode(codes, START, Remaining(codes, bytes) + more))
  {
    var left := Remaining(codes, bytes);
    RemainderMeansTheSame(codes, bytes);
    DecodeInParts(codes, START, bytes, more);
    DecodeInParts(codes, START, left, more);
    NothingBefore(Decode(codes, Decode(codes, START, bytes).1, more));
  }

  lemma JoinedFirst(queue: seq<Byte>, chunks: seq<seq<Byte>>)
    requires chunks != []
    ensures queue + Joined(chunks) == queue + chunks[0] + Joined(chunks[1..])
  {
  }

  /** However a stream is cut into chunks, it gives the same events, and leaves the same pending. */
  lemma {:induction false} ChunksMeanTheSame(codes: CodeSet, queue: seq<Byte>, chunks: seq<seq<Byte>>)
    requires Decode(codes, START, queue).0 == []
    ensures var (events, left) := InChunks(codes, queue, chunks);
            var (all, pending) := Decode(codes, START, queue + Joined(chunks));
            events == all && Decode(codes, START, left) == ([], pending)
    decreases |chunks|
  {
    if chunks == [] {
      assert queue + [] == queue;
    } else {
      var bytes := queue + chunks[0];
      var (left, rest) := (Remaining(codes, bytes), Joined(chunks[1..]));
      DrainedThenMore(codes, bytes, rest);
      ChunksMeanTheSame(codes, left, chunks[1..]);
      JoinedFirst(queue, chunks);
    }
  }

  lemma Regroup(events: seq<Event>, e: Event, r: (seq<Event>, State))
    ensures events + Prepend(e, r).0 == events + [e] + r.0
  {
    assert events + ([e] + r.0) == events + [e] + r.0;
  }

  /** The queue of bytes from the keyboard. */
  class ScancodeQueue {
    var bytes: seq<Byte>

    constructor ()
      ensures bytes == []
    {
      bytes := [];
    }

    /** Queue a byte as it comes from a keyboard interface. */
    method Put(c: Byte, translated: bool)
      modifies this
      ensures bytes == old(bytes) + if translated then UndoOne(c) else [c]
    {
      var code := c;
      if translated {
        if code >= 0x80 && !(0xe0 <= code < 0xf0) {
          bytes := bytes + [0xf0];
          code := Low(code);
        }
        code := UndoTranslation(code);
      }
      bytes := bytes + [code];
    }

    /** Take one complete sequence out, or nothing at all. */
    method Extract(codes: CodeSet) returns (e: Option<Event>)
      modifies this
      ensures Prefixes(codes, old(bytes)) == |old(bytes)| ==> e == None && bytes == old(bytes)
      ensures Prefixes(codes, old(bytes)) < |old(bytes)| ==>
                e == Some(FirstEvent(codes, old(bytes))) && bytes == Rest(codes, old(bytes))
    {
      var (ext, up) := (0, false);
      var i := 0;
      while i < |bytes| && IsPrefix(codes, bytes[i])
        invariant i <= Prefixes(codes, bytes)
        invariant State(ext, up) == Pending(codes, START, bytes[..i])
        modifies {}
      {
        var c := bytes[i];
        assert bytes[..i + 1][..i] == bytes[..i];
        if codes != Set3 && 0xe0 <= c < 0xf0 {
          ext := c;
        } else {
          up := true;
        }
        i := i + 1;
      }
      if i == |bytes| {
        e := None;
      } else {
        e := Some(EventOf(codes, State(ext, up), bytes[i]));
        bytes := bytes[i + 1..];
      }
    }

    /** Take all complete sequences out. */
    method Drain(codes: CodeSet) returns (events: seq<Event>)
      modifies this
      ensures events == Decode(codes, START, old(bytes)).0 && bytes == Remaining(codes, old(bytes))
    {
      events := [];
      var more := true;
      ghost var (all, left) := (Decode(codes, START, bytes).0, Remaining(codes, bytes));
      while more
        invariant more ==> events + Decode(codes, START, bytes).0 == all && Remaining(codes, bytes) == left
        invariant !more ==> events == all && bytes == left
        decreases |bytes|, more
      {
        ghost var before := bytes;
        var e := Extract(codes);
        if e.Some? {
          FirstSequence(codes, before);
          Regroup(events, e.value, Decode(codes, START, bytes));
          events := events + [e.value];
        } else {
          PrefixesDecodeToNothing(codes, START, before);
          more := false;
        }
      }
    }
  }
}
