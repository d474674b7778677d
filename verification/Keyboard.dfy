/** What a keyboard sends, by the names of its keys, and that it is decoded to just that. */
module Keyboard {
  import opened Basics
  import opened Scancode

  /** The keys by their codes, as keyboards have them: in set 1. */
  function Set1Plain(c: Byte): Option<Name> {
    match c
    case 0x01 => Some(Esc) case 0x02 => Some(N1) case 0x03 => Some(N2) case 0x04 => Some(N3)
    case 0x05 => Some(N4) case 0x06 => Some(N5) case 0x07 => Some(N6) case 0x08 => Some(N7) case 0x09 => Some(N8)
    case 0x0a => Some(N9) case 0x0b => Some(N0) case 0x0c => Some(Minus) case 0x0d => Some(Equals)
    case 0x0e => Some(Backspace) case 0x0f => Some(Tab) case 0x10 => Some(Q) case 0x11 => Some(W)
    case 0x12 => Some(E) case 0x13 => Some(R) case 0x14 => Some(T) case 0x15 => Some(Y) case 0x16 => Some(U)
    case 0x17 => Some(I) case 0x18 => Some(O) case 0x19 => Some(P) case 0x1a => Some(BracketLeft)
    case 0x1b => Some(BracketRight) case 0x1c => Some(Enter) case 0x1d => Some(CtrlLeft) case 0x1e => Some(A)
    case 0x1f => Some(S) case 0x20 => Some(D) case 0x21 => Some(F) case 0x22 => Some(G) case 0x23 => Some(H)
    case 0x24 => Some(J) case 0x25 => Some(K) case 0x26 => Some(L) case 0x27 => Some(Semicolon)
    case 0x28 => Some(Quote) case 0x29 => Some(Backtick) case 0x2a => Some(ShiftLeft)
    case 0x2b => Some(Backslash) case 0x2c => Some(Z) case 0x2d => Some(X) case 0x2e => Some(C)
    case 0x2f => Some(V) case 0x30 => Some(B) case 0x31 => Some(N) case 0x32 => Some(M) case 0x33 => Some(Comma)
    case 0x34 => Some(Dot) case 0x35 => Some(Slash) case 0x36 => Some(ShiftRight) case 0x37 => Some(NumMul)
    case 0x38 => Some(AltLeft) case 0x39 => Some(Space) case 0x3a => Some(CapsLock) case 0x3b => Some(F1)
    case 0x3c => Some(F2) case 0x3d => Some(F3) case 0x3e => Some(F4) case 0x3f => Some(F5) case 0x40 => Some(F6)
    case 0x41 => Some(F7) case 0x42 => Some(F8) case 0x43 => Some(F9) case 0x44 => Some(F10)
    case 0x45 => Some(NumLock) case 0x46 => Some(ScrollLock) case 0x47 => Some(Num7) case 0x48 => Some(Num8)
    case 0x49 => Some(Num9) case 0x4a => Some(NumSub) case 0x4b => Some(Num4) case 0x4c => Some(Num5)
    case 0x4d => Some(Num6) case 0x4e => Some(NumAdd) case 0x4f => Some(Num1) case 0x50 => Some(Num2)
    case 0x51 => Some(Num3) case 0x52 => Some(Num0) case 0x53 => Some(NumDot) case 0x54 => Some(PrintScreen)
    case 0x57 => Some(F11) case 0x58 => Some(F12)
    case _ => None
  }

  /** In set 1, behind 0xe0. */
  function Set1Prefixed(c: Byte): Option<Name> {
    match c
    case 0x1c => Some(NumEnter) case 0x1d => Some(CtrlRight) case 0x35 => Some(NumDiv)
    case 0x37 => Some(PrintScreen) case 0x38 => Some(AltRight) case 0x46 => Some(Pause) case 0x47 => Some(Home)
    case 0x48 => Some(Up) case 0x49 => Some(PageUp) case 0x4b => Some(Left) case 0x4d => Some(Right)
    case 0x4f => Some(End) case 0x50 => Some(Down) case 0x51 => Some(PageDown) case 0x52 => Some(Insert)
    case 0x53 => Some(Del) case 0x5b => Some(WinLeft) case 0x5c => Some(WinRight) case 0x5d => Some(WinMenu)
    case 0x5e => Some(PwrOn) case 0x5f => Some(PwrSleep) case 0x63 => Some(PwrWake)
    case _ => None
  }

  /** In set 2. */
  function Set2Plain(c: Byte): Option<Name> {
    match c
    case 0x01 => Some(F9) case 0x03 => Some(F5) case 0x04 => Some(F3) case 0x05 => Some(F1) case 0x06 => Some(F2)
    case 0x07 => Some(F12) case 0x09 => Some(F10) case 0x0a => Some(F8) case 0x0b => Some(F6)
    case 0x0c => Some(F4) case 0x0d => Some(Tab) case 0x0e => Some(Backtick) case 0x11 => Some(AltLeft)
    case 0x12 => Some(ShiftLeft) case 0x14 => Some(CtrlLeft) case 0x15 => Some(Q) case 0x16 => Some(N1)
    case 0x1a => Some(Z) case 0x1b => Some(S) case 0x1c => Some(A) case 0x1d => Some(W) case 0x1e => Some(N2)
    case 0x21 => Some(C) case 0x22 => Some(X) case 0x23 => Some(D) case 0x24 => Some(E) case 0x25 => Some(N4)
    case 0x26 => Some(N3) case 0x29 => Some(Space) case 0x2a => Some(V) case 0x2b => Some(F) case 0x2c => Some(T)
    case 0x2d => Some(R) case 0x2e => Some(N5) case 0x31 => Some(N) case 0x32 => Some(B) case 0x33 => Some(H)
    case 0x34 => Some(G) case 0x35 => Some(Y) case 0x36 => Some(N6) case 0x3a => Some(M) case 0x3b => Some(J)
    case 0x3c => Some(U) case 0x3d => Some(N7) case 0x3e => Some(N8) case 0x41 => Some(Comma)
    case 0x42 => Some(K) case 0x43 => Some(I) case 0x44 => Some(O) case 0x45 => Some(N0) case 0x46 => Some(N9)
    case 0x49 => Some(Dot) case 0x4a => Some(Slash) case 0x4b => Some(L) case 0x4c => Some(Semicolon)
    case 0x4d => Some(P) case 0x4e => Some(Minus) case 0x52 => Some(Quote) case 0x54 => Some(BracketLeft)
    case 0x55 => Some(Equals) case 0x58 => Some(CapsLock) case 0x59 => Some(ShiftRight) case 0x5a => Some(Enter)
    case 0x5b => Some(BracketRight) case 0x5d => Some(Backslash) case 0x66 => Some(Backspace)
    case 0x69 => Some(Num1) case 0x6b => Some(Num4) case 0x6c => Some(Num7) case 0x70 => Some(Num0)
    case 0x71 => Some(NumDot) case 0x72 => Some(Num2) case 0x73 => Some(Num5) case 0x74 => Some(Num6)
    case 0x75 => Some(Num8) case 0x76 => Some(Esc) case 0x77 => Some(NumLock) case 0x78 => Some(F11)
    case 0x79 => Some(NumAdd) case 0x7a => Some(Num3) case 0x7b => Some(NumSub) case 0x7c => Some(NumMul)
    case 0x7d => Some(Num9) case 0x7e => Some(ScrollLock) case 0x83 => Some(F7) case 0x84 => Some(PrintScreen)
    case _ => None
  }

  /** In set 2, behind 0xe0. */
  function Set2Prefixed(c: Byte): Option<Name> {
    match c
    case 0x11 => Some(AltRight) case 0x14 => Some(CtrlRight) case 0x1f => Some(WinLeft)
    case 0x27 => Some(WinRight) case 0x2f => Some(WinMenu) case 0x37 => Some(PwrOn) case 0x3f => Some(PwrSleep)
    case 0x4a => Some(NumDiv) case 0x5a => Some(NumEnter) case 0x5e => Some(PwrWake) case 0x69 => Some(End)
    case 0x6b => Some(Left) case 0x6c => Some(Home) case 0x70 => Some(Insert) case 0x71 => Some(Del)
    case 0x72 => Some(Down) case 0x74 => Some(Right) case 0x75 => Some(Up) case 0x7a => Some(PageDown)
    case 0x7c => Some(PrintScreen) case 0x7d => Some(PageUp) case 0x7e => Some(Pause)
    case _ => None
  }

  /** The key that a keyboard means by a code, and what may come before it; zero for nothing. Codes of set 1 are
      those of keys that go down. */
  function KeyAt(codes: CodeSet, prefix: Byte, c: Byte): Option<Name> {
    match codes
    case Set1 => if prefix == 0 then Set1Plain(c) else if prefix == 0xe0 then Set1Prefixed(c)
                 else if prefix == 0xe1 && c == 0x1d then Some(Pause) else None
    case Set2 => if prefix == 0 then Set2Plain(c) else if prefix == 0xe0 then Set2Prefixed(c)
                 else if prefix == 0xe1 && c == 0x14 then Some(Pause) else None
    case Set3 => if prefix == 0 then KeyName(c) else None
  }

  lemma PlainKeys1(c: Byte)
    requires 0x00 <= c < 0x20
    ensures KeyAfter(0, c) == match Set2Plain(c) case Some(n) => Named(n) case None => PlainKey(c)
  {
  }

  lemma PlainKeys2(c: Byte)
    requires 0x20 <= c < 0x70
    ensures KeyAfter(0, c) == match Set2Plain(c) case Some(n) => Named(n) case None => PlainKey(c)
  {
  }

  lemma PlainKeys3(c: Byte)
    requires 0x70 <= c < 0x76
    ensures KeyAfter(0, c) == match Set2Plain(c) case Some(n) => Named(n) case None => PlainKey(c)
  {
  }

  lemma PlainKeys4(c: Byte)
    requires 0x76 <= c < 0x79
    ensures KeyAfter(0, c) == match Set2Plain(c) case Some(n) => Named(n) case None => PlainKey(c)
  {
  }

  lemma PlainKeys5(c: Byte)
    requires 0x79 <= c < 0x7b
    ensures KeyAfter(0, c) == match Set2Plain(c) case Some(n) => Named(n) case None => PlainKey(c)
  {
  }

  lemma PlainKeys6(c: Byte)
    requires 0x7b <= c < 0x7d
    ensures KeyAfter(0, c) == match Set2Plain(c) case Some(n) => Named(n) case None => PlainKey(c)
  {
  }

  lemma PlainKeys7(c: Byte)
    requires 0x7d <= c < 0x80
    ensures KeyAfter(0, c) == match Set2Plain(c) case Some(n) => Named(n) case None => PlainKey(c)
  {
  }

  lemma PlainKeys8(c: Byte)
    requires 0x80 <= c < 0x100
    ensures KeyAfter(0, c) == match Set2Plain(c) case Some(n) => Named(n) case None => PlainKey(c)
  {
  }

  lemma PlainKeys(c: Byte)
    ensures KeyAfter(0, c) == match Set2Plain(c) case Some(n) => Named(n) case None => PlainKey(c)
  {
    if c < 0x20 {
      PlainKeys1(c);
    } else if c < 0x70 {
      PlainKeys2(c);
    } else if c < 0x76 {
      PlainKeys3(c);
    } else if c < 0x79 {
      PlainKeys4(c);
    } else if c < 0x7b {
      PlainKeys5(c);
    } else if c < 0x7d {
      PlainKeys6(c);
    } else if c < 0x80 {
      PlainKeys7(c);
    } else {
      PlainKeys8(c);
    }
  }

  lemma PrefixedKeys1(c: Byte)
    requires 0x00 <= c < 0x68
    ensures KeyAfter(0xe0, c) == match Set2Prefixed(c) case Some(n) => Named(n) case None => Extended(0xe0, c)
  {
  }

  lemma PrefixedKeys2(c: Byte)
    requires 0x68 <= c < 0x74
    ensures KeyAfter(0xe0, c) == match Set2Prefixed(c) case Some(n) => Named(n) case None => Extended(0xe0, c)
  {
  }

  lemma PrefixedKeys3(c: Byte)
    requires 0x74 <= c < 0x100
    ensures KeyAfter(0xe0, c) == match Set2Prefixed(c) case Some(n) => Named(n) case None => Extended(0xe0, c)
  {
  }

  lemma PrefixedKeys(c: Byte)
    ensures KeyAfter(0xe0, c) == match Set2Prefixed(c) case Some(n) => Named(n) case None => Extended(0xe0, c)
  {
    if c < 0x68 {
      PrefixedKeys1(c);
    } else if c < 0x74 {
      PrefixedKeys2(c);
    } else {
      PrefixedKeys3(c);
    }
  }

  lemma PlainSets1(c: Byte)
    requires 0x00 <= c < 0x30 && Set1Plain(c).Some?
    ensures c < 0x80 && Set2Plain(Set1ToSet2(c)) == Set1Plain(c)
  {
  }

  lemma PlainSets2(c: Byte)
    requires 0x30 <= c < 0x4a && Set1Plain(c).Some?
    ensures c < 0x80 && Set2Plain(Set1ToSet2(c)) == Set1Plain(c)
  {
  }

  lemma PlainSets3(c: Byte)
    requires 0x4a <= c < 0x100 && Set1Plain(c).Some?
    ensures c < 0x80 && Set2Plain(Set1ToSet2(c)) == Set1Plain(c)
  {
  }

  lemma PlainSets(c: Byte)
    requires Set1Plain(c).Some?
    ensures c < 0x80 && Set2Plain(Set1ToSet2(c)) == Set1Plain(c)
  {
    if c < 0x30 {
      PlainSets1(c);
    } else if c < 0x4a {
      PlainSets2(c);
    } else {
      PlainSets3(c);
    }
  }

  lemma PrefixedSets1(c: Byte)
    requires 0x00 <= c < 0x4c && Set1Prefixed(c).Some?
    ensures c < 0x80 && Set2Prefixed(Set1ToSet2(c)) == Set1Prefixed(c)
  {
  }

  lemma PrefixedSets2(c: Byte)
    requires 0x4c <= c < 0x100 && Set1Prefixed(c).Some?
    ensures c < 0x80 && Set2Prefixed(Set1ToSet2(c)) == Set1Prefixed(c)
  {
  }

  lemma PrefixedSets(c: Byte)
    requires Set1Prefixed(c).Some?
    ensures c < 0x80 && Set2Prefixed(Set1ToSet2(c)) == Set1Prefixed(c)
  {
    if c < 0x4c {
      PrefixedSets1(c);
    } else {
      PrefixedSets2(c);
    }
  }

  /** The key that is decoded is the one that the keyboard means. Where it means none, a plain code is taken for one
      of set 3, and another is kept as it is, with what comes before it. */
  lemma KeyIsTheOneMeant(prefix: Byte, c: Byte)
    ensures KeyAfter(prefix, c) == match KeyAt(Set2, prefix, c)
                                   case Some(name) => Named(name)
                                   case None => if prefix == 0 then PlainKey(c) else Extended(prefix, c)
  {
    if prefix == 0 {
      PlainKeys(c);
    } else if prefix == 0xe0 {
      PrefixedKeys(c);
    }
  }

  /** The keys of set 1 are those of set 2, behind the same prefixes. */
  lemma SetsHaveTheSameKeys(prefix: Byte, c: Byte)
    requires KeyAt(Set1, prefix, c).Some?
    ensures c < 0x80 && KeyAt(Set2, prefix, Set1ToSet2(c)) == KeyAt(Set1, prefix, c)
  {
    if prefix == 0 {
      PlainSets(c);
    } else if prefix == 0xe0 {
      PrefixedSets(c);
    }
  }

  /** A key with a code in some set, which goes down or up. */
  datatype Stroke = Stroke(prefix: Byte, code: Byte, up: bool)

  function NameOf(codes: CodeSet, k: Stroke): Name
    requires KeyAt(codes, k.prefix, k.code).Some?
  {
    KeyAt(codes, k.prefix, k.code).value
  }

  lemma CodesAreNoPrefixes(codes: CodeSet, prefix: Byte, c: Byte)
    requires KeyAt(codes, prefix, c).Some?
    ensures c < 0xe0 && (codes == Set1 ==> c < 0x80)
    ensures prefix == 0 || (0xe0 <= prefix < 0xf0 && codes != Set3)
  {
  }

  /** What the keyboard sends. In set 1, the highest bit says that the key goes up; in the other sets, 0xf0 does. */
  function Encode(codes: CodeSet, k: Stroke): seq<Byte>
    requires KeyAt(codes, k.prefix, k.code).Some?
  {
    Sequence(k.prefix, k.up && codes != Set1, LastByte(codes, k))
  }

  function LastByte(codes: CodeSet, k: Stroke): Byte
    requires KeyAt(codes, k.prefix, k.code).Some?
  {
    CodesAreNoPrefixes(codes, k.prefix, k.code);
    if codes == Set1 && k.up then k.code + 0x80 else k.code
  }

  function Sequence(prefix: Byte, release: bool, code: Byte): seq<Byte> {
    (if prefix == 0 then [] else [prefix]) + (if release then [0xf0] else []) + [code]
  }

  /** What a sequence of bytes decodes to, whatever comes after it. */
  lemma SequenceIsDecoded(codes: CodeSet, prefix: Byte, release: bool, code: Byte, rest: seq<Byte>)
    requires prefix == 0 || (0xe0 <= prefix < 0xf0 && codes != Set3)
    requires !IsPrefix(codes, code) && (codes == Set1 ==> !release)
    ensures Decode(codes, START, Sequence(prefix, release, code) + rest) ==
            Prepend(EventOf(codes, State(prefix, release), code), Decode(codes, START, rest))
  {
    var bytes := (if release then [0xf0] else []) + [code] + rest;
    PrefixIsDecoded(codes, prefix, bytes);
    assert Sequence(prefix, release, code) + rest == (if prefix == 0 then [] else [prefix]) + bytes;
    if release {
      assert bytes == [0xf0] + ([code] + rest);
      DecodeOne(codes, State(prefix, false), 0xf0, [code] + rest);
    } else {
      assert bytes == [code] + rest;
    }
    DecodeOne(codes, State(prefix, release), code, rest);
  }

  lemma PrefixIsDecoded(codes: CodeSet, prefix: Byte, bytes: seq<Byte>)
    requires prefix == 0 || (0xe0 <= prefix < 0xf0 && codes != Set3)
    ensures Decode(codes, START, (if prefix == 0 then [] else [prefix]) + bytes) ==
            Decode(codes, State(prefix, false), bytes)
  {
    if prefix == 0 {
      assert [] + bytes == bytes;
    } else {
      DecodeOne(codes, START, prefix, bytes);
    }
  }

  /** In set 1, a code may look like a prefix with its highest bit set. There is one key with such a code. */
  predicate Lost(codes: CodeSet, k: Stroke)
    requires KeyAt(codes, k.prefix, k.code).Some?
  {
    codes == Set1 && k.up && NameOf(codes, k) == PwrWake
  }

  lemma LostExactly(k: Stroke)
    requires KeyAt(Set1, k.prefix, k.code).Some?
    ensures 0x60 <= k.code < 0x70 <==> NameOf(Set1, k) == PwrWake
  {
  }

  lemma StrokeIsNamed(codes: CodeSet, k: Stroke)
    requires KeyAt(codes, k.prefix, k.code).Some?
    ensures EventOf(codes, State(k.prefix, k.up && codes != Set1), LastByte(codes, k)) ==
            Event(Named(NameOf(codes, k)), k.up)
  {
    CodesAreNoPrefixes(codes, k.prefix, k.code);
    match codes {
      case Set1 =>
        SetsHaveTheSameKeys(k.prefix, k.code);
        KeyIsTheOneMeant(k.prefix, Set1ToSet2(k.code));
      case Set2 => KeyIsTheOneMeant(k.prefix, k.code);
      case Set3 =>
    }
  }

  /** What a key sends is that key's event, whatever comes after it, unless it is lost. */
  lemma StrokeComesBack(codes: CodeSet, k: Stroke, rest: seq<Byte>)
    requires KeyAt(codes, k.prefix, k.code).Some? && !Lost(codes, k)
    ensures Decode(codes, START, Encode(codes, k) + rest) ==
            Prepend(Event(Named(NameOf(codes, k)), k.up), Decode(codes, START, rest))
  {
    CodesAreNoPrefixes(codes, k.prefix, k.code);
    StrokeIsNamed(codes, k);
    LastByteExactly(codes, k);
    SequenceIsDecoded(codes, k.prefix, k.up && codes != Set1, LastByte(codes, k), rest);
  }

  lemma LastByteExactly(codes: CodeSet, k: Stroke)
    requires KeyAt(codes, k.prefix, k.code).Some?
    ensures IsPrefix(codes, LastByte(codes, k)) <==> Lost(codes, k)
  {
    CodesAreNoPrefixes(codes, k.prefix, k.code);
    if codes == Set1 {
      LostExactly(k);
    }
  }

  predicate AllMeant(codes: CodeSet, strokes: seq<Stroke>) {
    forall i | 0 <= i < |strokes| :: KeyAt(codes, strokes[i].prefix, strokes[i].code).Some?
  }

  function EncodeAll(codes: CodeSet, strokes: seq<Stroke>): seq<Byte>
    requires AllMeant(codes, strokes)
  {
    if strokes == [] then [] else Encode(codes, strokes[0]) + EncodeAll(codes, strokes[1..])
  }

  function Typed(codes: CodeSet, strokes: seq<Stroke>): seq<Event>
    requires AllMeant(codes, strokes)
  {
    seq(|strokes|, i requires 0 <= i < |strokes| => Event(Named(NameOf(codes, strokes[i])), strokes[i].up))
  }

  lemma {:induction false} TypingComesBack(codes: CodeSet, strokes: seq<Stroke>)
    requires AllMeant(codes, strokes) && forall i | 0 <= i < |strokes| :: !Lost(codes, strokes[i])
    ensures Decode(codes, START, EncodeAll(codes, strokes)) == (Typed(codes, strokes), START)
  {
    if strokes != [] {
      TypingComesBack(codes, strokes[1..]);
      StrokeComesBack(codes, strokes[0], EncodeAll(codes, strokes[1..]));
      assert Typed(codes, strokes) == [Typed(codes, strokes)[0]] + Typed(codes, strokes[1..]);
    }
  }

  /** How many of the bytes are no prefixes; each of them is the last of an event. */
  function Lasts(codes: CodeSet, bytes: seq<Byte>): nat {
    if bytes == [] then 0 else (if IsPrefix(codes, bytes[0]) then 0 else 1) + Lasts(codes, bytes[1..])
  }

  lemma {:induction false} EventsAreLasts(codes: CodeSet, s: State, bytes: seq<Byte>)
    ensures |Decode(codes, s, bytes).0| == Lasts(codes, bytes)
    decreases |bytes|
  {
    if bytes != [] {
      EventsAreLasts(codes, if IsPrefix(codes, bytes[0]) then AfterPrefix(codes, s, bytes[0]) else START, bytes[1..]);
    }
  }

  lemma {:induction false} LastsInParts(codes: CodeSet, a: seq<Byte>, b: seq<Byte>)
    ensures Lasts(codes, a + b) == Lasts(codes, a) + Lasts(codes, b)
  {
    if a == [] {
      assert a + b == b;
    } else {
      LastsInParts(codes, a[1..], b);
      assert (a + b)[1..] == a[1..] + b;
    }
  }

  lemma StrokeHasOneLast(codes: CodeSet, k: Stroke)
    requires KeyAt(codes, k.prefix, k.code).Some?
    ensures Lasts(codes, Encode(codes, k)) == if Lost(codes, k) then 0 else 1
  {
    var (prefix, c) := (if k.prefix == 0 then [] else [k.prefix], LastByte(codes, k));
    var release := if k.up && codes != Set1 then [0xf0] else [];
    CodesAreNoPrefixes(codes, k.prefix, k.code);
    LastByteExactly(codes, k);
    LastsInParts(codes, prefix + release, [c]);
    LastsInParts(codes, prefix, release);
    LastsOfOne(codes, c);
    LastsOfOne(codes, 0xf0);
    LastsOfOne(codes, k.prefix);
  }

  lemma LastsOfOne(codes: CodeSet, c: Byte)
    ensures Lasts(codes, [c]) == if IsPrefix(codes, c) then 0 else 1
  {
    assert [c][1..] == [];
  }

  lemma {:induction false} LostStrokesAreMissing(codes: CodeSet, strokes: seq<Stroke>)
    requires AllMeant(codes, strokes)
    ensures Lasts(codes, EncodeAll(codes, strokes)) <= |strokes|
    ensures (exists i | 0 <= i < |strokes| :: Lost(codes, strokes[i])) ==>
              Lasts(codes, EncodeAll(codes, strokes)) < |strokes|
  {
    if strokes != [] {
      LostStrokesAreMissing(codes, strokes[1..]);
      StrokeHasOneLast(codes, strokes[0]);
      LastsInParts(codes, Encode(codes, strokes[0]), EncodeAll(codes, strokes[1..]));
      if i :| 0 <= i < |strokes| && Lost(codes, strokes[i]) {
        assert i > 0 ==> Lost(codes, strokes[1..][i - 1]);
      }
    }
  }

  /** Whatever is typed, in any set, comes back as it was typed, with nothing pending, if and only if no key goes up
      that has a code like a prefix then. */
  lemma TypingComesBackExactly(codes: CodeSet, strokes: seq<Stroke>)
    requires AllMeant(codes, strokes)
    ensures Decode(codes, START, EncodeAll(codes, strokes)) == (Typed(codes, strokes), START) <==>
            forall k | k in strokes :: !(codes == Set1 && k.up && NameOf(codes, k) == PwrWake)
  {
    if forall i | 0 <= i < |strokes| :: !Lost(codes, strokes[i]) {
      TypingComesBack(codes, strokes);
    } else {
      EventsAreLasts(codes, START, EncodeAll(codes, strokes));
      LostStrokesAreMissing(codes, strokes);
    }
  }

  lemma OnlyF7IsSpecial(prefix: Byte, c: Byte)
    requires KeyAt(Set1, prefix, c).Some?
    ensures Low(c) != 0 && (Low(c) == 0x41 <==> KeyAt(Set1, prefix, c) == Some(F7))
  {
  }

  /** From a keyboard whose codes are translated to set 1, a key comes back by undoing that, if and only if it is
      not F7, nor lost. */
  lemma TranslatedComesBackExactly(k: Stroke)
    requires KeyAt(Set1, k.prefix, k.code).Some?
    ensures var name := NameOf(Set1, k);
            Decode(Set2, START, Undo(Encode(Set1, k))) == ([Event(Named(name), k.up)], START) <==>
            name != F7 && !(name == PwrWake && k.up)
  {
    var bytes := Encode(Set1, k);
    TypingComesBackExactly(Set1, [k]);
    TypingOne(Set1, k);
    RoutesMeanTheSame(START, bytes);
    SpecialExactly(k);
    if Lost(Set1, k) {
      LostStaysLost(k);
    }
  }

  lemma TypingOne(codes: CodeSet, k: Stroke)
    requires KeyAt(codes, k.prefix, k.code).Some?
    ensures EncodeAll(codes, [k]) == Encode(codes, k)
    ensures Typed(codes, [k]) == [Event(Named(NameOf(codes, k)), k.up)]
  {
    assert [k][1..] == [];
    assert Encode(codes, k) + [] == Encode(codes, k);
  }

  lemma SpecialExactly(k: Stroke)
    requires KeyAt(Set1, k.prefix, k.code).Some?
    ensures NoSpecials(Encode(Set1, k)) <==> NameOf(Set1, k) != F7
  {
    CodesAreNoPrefixes(Set1, k.prefix, k.code);
    OnlyF7IsSpecial(k.prefix, k.code);
    var bytes := Encode(Set1, k);
    assert bytes[|bytes| - 1] == LastByte(Set1, k);
    assert Low(LastByte(Set1, k)) == Low(k.code);
  }

  lemma LostStaysLost(k: Stroke)
    requires KeyAt(Set1, k.prefix, k.code).Some? && Lost(Set1, k)
    ensures Decode(Set1, START, Encode(Set1, k)).0 == [] && NoSpecials(Encode(Set1, k))
  {
    SpecialExactly(k);
    StrokeHasOneLast(Set1, k);
    EventsAreLasts(Set1, START, Encode(Set1, k));
  }
}
