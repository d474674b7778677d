/** How voices, operators and registers are laid out on an OPL chip, and the records that go into the
    registers, as bytes. */
module OplLayout {
  import opened Basics

  /** OPL2, OPL3 and the OPL3-L variant with a busy flag. */
  datatype OplType = Opl2 | Opl3 | Opl3L

  /** Registers 0xc0, 0xa0, 0xb0 of one channel, in that order. */
  type ChannelRecord = s: seq<Byte> | |s| == 3 witness [0, 0, 0]
  /** Registers 0x20, 0x40, 0x60, 0x80, 0xe0 of one operator, in that order. */
  type OperatorRecord = s: seq<Byte> | |s| == 5 witness [0, 0, 0, 0, 0]

  // ----- Channels and operators

  /** The operator slot used by operator `op` of 2-operator channel `ch`; a 4-operator voice uses
      operators 0 to 3 of its primary channel. */
  function Slot(ch: nat, op: nat): nat
  {
    ch + 3 * (ch / 3) + 3 * op
  }

  /** The 2-operator channel whose registers control 4-operator channel `k` (0, 1, 2, 9, 10, 11). */
  function Primary(k: nat): nat
    requires k < 6
  {
    if k < 3 then k else k + 6
  }

  function Secondary(k: nat): nat
    requires k < 6
  {
    Primary(k) + 3
  }

  /** Whether 2-operator channel `ch` is one half of a 4-operator channel. */
  predicate Paired(ch: nat)
  {
    ch < 6 || 9 <= ch < 15
  }

  /** The 4-operator channel that a paired 2-operator channel belongs to. */
  function PairOf(ch: nat): (k: nat)
    requires Paired(ch)
    ensures k < 6 && (ch == Primary(k) || ch == Secondary(k))
  {
    if ch < 3 then ch else if ch < 6 then ch - 3 else if ch < 12 then ch - 6 else ch - 9
  }

  function Places(four: bool): nat
  {
    if four then 6 else 18
  }

  /** The channel that carries the frequency and key-on bit of a voice at `place`. */
  function KeyChannel(four: bool, place: nat): nat
    requires place < Places(four)
  {
    if four then Primary(place) else place
  }

  function Operators(four: bool): nat
  {
    if four then 4 else 2
  }

  /** The slot of operator `i` of a voice at `place`. */
  function OperatorSlot(four: bool, place: nat, i: nat): (s: nat)
    requires place < Places(four) && i < Operators(four)
    ensures s < 36
  {
    Slot(KeyChannel(four, place), i)
  }

  /** Whether operator slot `s` belongs to the voice at `place`. */
  predicate Uses(four: bool, place: nat, s: nat)
    requires place < Places(four)
  {
    exists i: nat | i < Operators(four) :: s == OperatorSlot(four, place, i)
  }

  /** Two places overlap when they are the same or one is a half of the other. */
  predicate Overlap(four: bool, place: nat, four': bool, place': nat)
    requires place < Places(four) && place' < Places(four')
  {
    if four == four' then place == place'
    else if four then Paired(place') && PairOf(place') == place
    else Paired(place) && PairOf(place) == place'
  }

  /** Each pairing is exact: a 4-operator channel's two halves name it back, and no other channel does. */
  lemma PairingIsExact(k: nat, ch: nat)
    requires k < 6 && ch < 18
    ensures Paired(ch) && PairOf(ch) == k <==> ch == Primary(k) || ch == Secondary(k)
  {
  }

  /** The 2-operator channel that an operator slot belongs to. */
  function ChannelOf(s: nat): nat
  {
    3 * (s / 6) + s % 3
  }

  /** Operators 0 and 1 of a channel are its own, and operators 2 and 3 are those of the channel 3 further on. */
  lemma SlotOfChannel(ch: nat, op: nat)
    requires op < 4
    ensures ChannelOf(Slot(ch, op)) == (if op < 2 then ch else ch + 3)
    ensures Slot(ch, op) / 3 % 2 == op % 2
    ensures ch < 18 && op < 2 ==> Slot(ch, op) < 36
  {
    var q, r := ch / 3, ch % 3;
    assert Slot(ch, op) == 6 * q + 3 * op + r;
    if op == 0 || op == 1 {
      DivideBySix(q, op, r);
    } else {
      DivideBySix(q + 1, op - 2, r);
    }
  }

  lemma DivideBySix(q: nat, i: nat, r: nat)
    requires i < 2 && r < 3
    ensures (6 * q + 3 * i + r) / 6 == q && (6 * q + 3 * i + r) % 3 == r && (6 * q + 3 * i + r) / 3 == 2 * q + i
  {
  }

  lemma SlotFromChannel(s: nat)
    ensures Slot(ChannelOf(s), s / 3 % 2) == s
    ensures ChannelOf(s) >= 3 ==> Slot(ChannelOf(s) - 3, s / 3 % 2 + 2) == s
    ensures s < 36 ==> ChannelOf(s) < 18
  {
    assert ChannelOf(s) / 3 == s / 6;
    assert ChannelOf(s) >= 3 ==> (ChannelOf(s) - 3) / 3 == s / 6 - 1;
  }

  /** A 2-operator voice uses the two operators of its channel, and a 4-operator voice those of both halves. */
  lemma UsesByChannel(four: bool, place: nat, s: nat)
    requires place < Places(four)
    ensures Uses(four, place, s) <==>
            if four then Paired(ChannelOf(s)) && PairOf(ChannelOf(s)) == place else ChannelOf(s) == place
  {
    var ch := KeyChannel(four, place);
    if i: nat :| i < Operators(four) && s == OperatorSlot(four, place, i) {
      SlotOfChannel(ch, i);
    }
    SlotFromChannel(s);
    if ChannelOf(s) == ch {
      assert s == OperatorSlot(four, place, s / 3 % 2);
    } else if four && ChannelOf(s) == ch + 3 {
      assert s == OperatorSlot(four, place, s / 3 % 2 + 2);
    }
  }

  /** Two voices share an operator exactly when their places overlap. */
  lemma OperatorsMeetExactlyWhenOverlapping(four: bool, place: nat, four': bool, place': nat)
    requires place < Places(four) && place' < Places(four')
    ensures (exists s: nat :: Uses(four, place, s) && Uses(four', place', s)) <==> Overlap(four, place, four', place')
  {
    if s: nat :| Uses(four, place, s) && Uses(four', place', s) {
      UsesByChannel(four, place, s);
      UsesByChannel(four', place', s);
    }
    if Overlap(four, place, four', place') {
      var ch := if four then KeyChannel(four', place') else KeyChannel(four, place);
      var s := Slot(ch, 0);
      SlotOfChannel(ch, 0);
      UsesByChannel(four, place, s);
      UsesByChannel(four', place', s);
    }
  }

  // ----- Register numbers

  function OperatorOffset(slot: nat): nat
    requires slot < 36
  {
    var n := slot % 18;
    n + 2 * (n / 6) + (if slot >= 18 then 0x100 else 0)
  }

  function ChannelOffset(ch: nat): nat
    requires ch < 18
  {
    ch + (if ch >= 9 then 0x100 - 9 else 0)
  }

  const OPERATOR_REGISTERS: seq<nat> := [0x20, 0x40, 0x60, 0x80, 0xe0]
  const CHANNEL_REGISTERS: seq<nat> := [0xc0, 0xa0, 0xb0]
  const SETUP_REGISTERS: seq<nat> := [0x01, 0x08, 0x101, 0x105]
  const TIMER_REGISTERS: seq<nat> := [0x02, 0x03, 0x04]

  function OperatorRegister(slot: nat, j: nat): nat
    requires slot < 36 && j < 5
  {
    OPERATOR_REGISTERS[j] + OperatorOffset(slot)
  }

  function ChannelRegister(ch: nat, j: nat): nat
    requires ch < 18 && j < 3
  {
    CHANNEL_REGISTERS[j] + ChannelOffset(ch)
  }

  /** The record byte that a register number stands for. */
  datatype Cell =
    | OperatorCell(slot: nat, byte: nat)
    | ChannelCell(ch: nat, byte: nat)
    | SetupCell(byte: nat)
    | TimerCell(byte: nat)
    | FourOpCell
    | PercussionCell

  predicate IsCell(c: Cell)
  {
    match c
    case OperatorCell(slot, j) => slot < 36 && j < 5
    case ChannelCell(ch, j) => ch < 18 && j < 3
    case SetupCell(j) => j < 4
    case TimerCell(j) => j < 3
    case FourOpCell => true
    case PercussionCell => true
  }

  function Register(c: Cell): (r: nat)
    requires IsCell(c)
    ensures r < 0x200
  {
    match c
    case OperatorCell(slot, j) => OperatorRegister(slot, j)
    case ChannelCell(ch, j) => ChannelRegister(ch, j)
    case SetupCell(j) => SETUP_REGISTERS[j]
    case TimerCell(j) => TIMER_REGISTERS[j]
    case FourOpCell => 0x104
    case PercussionCell => 0xbd
  }

  /** No two record bytes share a register. */
  lemma RegistersAreDistinct(c: Cell, d: Cell)
    requires IsCell(c) && IsCell(d) && Register(c) == Register(d)
    ensures c == d
  {
    match c {
      case OperatorCell(slot, j) =>
        match d {
          case OperatorCell(slot', j') => OperatorRegistersDistinct(slot, j, slot', j');
          case ChannelCell(ch, j') =>
          case SetupCell(j') =>
          case TimerCell(j') =>
          case _ =>
        }
      case ChannelCell(ch, j) =>
      case _ =>
    }
  }

  lemma OperatorRegistersDistinct(slot: nat, j: nat, slot': nat, j': nat)
    requires slot < 36 && slot' < 36 && j < 5 && j' < 5
    requires OperatorRegister(slot, j) == OperatorRegister(slot', j')
    ensures slot == slot' && j == j'
  {
  }

  // ----- Fields inside records

  /** Bit 5 of register 0xb0. */
  predicate KeyOn(c: ChannelRecord)
  {
    c[2] / 32 % 2 == 1
  }

  function WithKey(c: ChannelRecord, on: bool): (r: ChannelRecord)
    ensures KeyOn(r) == on && r[0] == c[0] && r[1] == c[1]
    ensures r[2] % 32 == c[2] % 32 && r[2] / 64 == c[2] / 64
  {
    c[2 := c[2] - 32 * (c[2] / 32 % 2) + (if on then 32 else 0)]
  }

  /** Bit 0 of register 0xc0. */
  function WithConnection(c: ChannelRecord, bit: nat): (r: ChannelRecord)
    requires bit < 2
    ensures r[0] % 2 == bit && r[0] / 2 == c[0] / 2 && r[1..] == c[1..]
    ensures KeyOn(r) == KeyOn(c)
  {
    c[0 := c[0] - c[0] % 2 + bit]
  }

  /** A key bit that is put back as it was leaves nothing but the change of the connection bit. */
  lemma KeyPutBack(c: ChannelRecord, on: bool, bit: nat)
    requires bit < 2
    ensures var written := WithConnection(WithKey(c, on), bit);
            && KeyOn(written) == on && WithKey(WithKey(written, KeyOn(c)), on) == written
            && WithKey(written, KeyOn(c)) == WithConnection(c, bit)
  {
  }

  /** Sustain level and release rate (both halves of register 0x80) at their maximum: the fastest fade. */
  function FastRelease(o: OperatorRecord): OperatorRecord
  {
    o[3 := 0xff]
  }
}
