/** Register access with a write-back cache: the driver's index latch, the cached records, and the chip behind them. */
module OplRegisters {
  import opened Basics
  import opened OplLayout

  const ZERO_OPERATOR: OperatorRecord := [0, 0, 0, 0, 0]
  const ZERO_CHANNEL: ChannelRecord := [0, 0, 0]

  type OperatorBank = s: seq<OperatorRecord> | |s| == 36
    witness seq<OperatorRecord>(36, _ => ZERO_OPERATOR)
  type ChannelBank = s: seq<ChannelRecord> | |s| == 18
    witness seq<ChannelRecord>(18, _ => ZERO_CHANNEL)
  type FourOpBits = s: seq<bool> | |s| == 6
    witness [false, false, false, false, false, false]
  type StrikeCounts = s: seq<nat> | |s| == 18 witness seq<nat>(18, _ => 0)
  /** The chip's own memory: registers 0x000 to 0x1ff. */
  type ChipMemory = s: seq<Byte> | |s| == 0x200
    witness seq<Byte>(0x200, _ => 0)

  /** Register 0x104, one bit for each 4-operator channel. */
  function Pack(bits: FourOpBits): Byte
  {
    (if bits[0] then 1 else 0) + (if bits[1] then 2 else 0) + (if bits[2] then 4 else 0)
    + (if bits[3] then 8 else 0) + (if bits[4] then 16 else 0) + (if bits[5] then 32 else 0)
  }

  lemma PackIsBits(bits: FourOpBits, k: nat)
    requires k < 6
    ensures Pack(bits) / [1, 2, 4, 8, 16, 32][k] % 2 == 1 <==> bits[k]
  {
  }

  /** Whether writing channel `ch` only touches register 0xc0: it is the secondary half of a joined pair. */
  predicate Partial(kind: OplType, fourOp: FourOpBits, ch: nat)
    requires ch < 18
  {
    !kind.Opl2? && Paired(ch) && ch == Secondary(PairOf(ch)) && fourOp[PairOf(ch)]
  }

  /** Registers 0x20 to 0x31, 0x40 to 0x51 and so on, in both banks: what the constructor's operator loop writes. */
  predicate Swept(r: nat)
  {
    var n := r % 0x100;
    0x20 <= n < 0x32 || 0x40 <= n < 0x52 || 0x60 <= n < 0x72 || 0x80 <= n < 0x92 || 0xe0 <= n < 0xf2
  }

  lemma SweptOperators(slot: nat, j: nat)
    requires slot < 36 && j < 5
    ensures Swept(OperatorRegister(slot, j)) <==> slot % 18 < 14
  {
    var n := slot % 18;
    var m := n + 2 * (n / 6);
    assert m < 22 && (m < 18 <==> n < 14);
    assert OperatorRegister(slot, j) % 0x100 == OPERATOR_REGISTERS[j] + m;
  }

  lemma SweptChannels(ch: nat, j: nat)
    requires ch < 18 && j < 3
    ensures !Swept(ChannelRegister(ch, j))
  {
    assert ChannelRegister(ch, j) % 0x100 == CHANNEL_REGISTERS[j] + if ch >= 9 then ch - 9 else ch;
  }

  /** The sweep runs over consecutive registers, while the operators' registers have gaps: it misses the last four
      operators of each bank, and touches nothing but operators. */
  lemma SweptCells(c: Cell)
    requires IsCell(c)
    ensures Swept(Register(c)) <==> c.OperatorCell? && c.slot % 18 < 14
  {
    match c {
      case OperatorCell(slot, j) => SweptOperators(slot, j);
      case ChannelCell(ch, j) => SweptChannels(ch, j);
      case _ =>
    }
  }

  /** Where a write to register `r` goes. The OPL2 has one bank, and its port cuts register numbers to eight bits. */
  function Port(kind: OplType, r: nat): nat
  {
    if kind.Opl2? then r % 0x100 else r
  }

  /** How often the keys of channels have gone on, after one channel's record has changed. */
  function Struck(counts: StrikeCounts, ch: nat, before: ChannelRecord, after: ChannelRecord): StrikeCounts
    requires ch < 18
  {
    if !KeyOn(before) && KeyOn(after) then counts[ch := counts[ch] + 1] else counts
  }

  /** The last four operators of each bank. */
  predicate Missed(kind: OplType, slot: nat)
  {
    slot < (if kind.Opl2? then 18 else 36) && slot % 18 >= 14
  }

  /** The channel that is written for another. */
  function OnChip(kind: OplType, ch: nat): nat
  {
    if kind.Opl2? then ch % 9 else ch
  }

  /** Record bytes that have a register for themselves. On the OPL2 those of the upper bank have none, and two
      registers of the lower bank are also written for 0x101 and 0x104. */
  predicate Visible(kind: OplType, c: Cell)
  {
    IsCell(c) && (kind.Opl2? ==> Register(c) < 0x100 && c != SetupCell(0) && c != TimerCell(2))
  }

  /** Record bytes that may be written without touching any of those. */
  predicate Harmless(kind: OplType, c: Cell)
  {
    IsCell(c) && (kind.Opl2? ==> Register(c) < 0x100 || c.SetupCell? || c.FourOpCell?)
  }

  lemma WritesElsewhere(kind: OplType, c: Cell, cell: Cell)
    requires Visible(kind, c) && Harmless(kind, cell) && c != cell
    ensures Register(c) != Port(kind, Register(cell))
  {
    if kind.Opl2? && Register(cell) >= 0x100 {
      UpperTargets(cell);
      LowRegisters(c);
    } else {
      SamePort(kind, c, cell);
    }
  }

  lemma SamePort(kind: OplType, c: Cell, cell: Cell)
    requires IsCell(c) && IsCell(cell) && c != cell && (kind.Opl2? ==> Register(cell) < 0x100)
    ensures Register(c) != Port(kind, Register(cell))
  {
    if Register(c) == Register(cell) {
      RegistersAreDistinct(c, cell);
    }
  }

  lemma UpperTargets(c: Cell)
    requires IsCell(c) && Register(c) >= 0x100 && (c.SetupCell? || c.FourOpCell?)
    ensures Register(c) % 0x100 == 1 || Register(c) % 0x100 == 4 || Register(c) % 0x100 == 5
  {
  }

  /** Registers 0x01, 0x04 and 0x05. */
  lemma LowRegisters(c: Cell)
    requires IsCell(c)
    ensures Register(c) == 1 ==> c == SetupCell(0)
    ensures Register(c) == 4 ==> c == TimerCell(2)
    ensures Register(c) != 5
  {
  }

  /** Since the chip held `was`, these record bytes have been written wherever the cache was right or the writing
      forced, and no other record bytes. */
  ghost predicate Written(kind: OplType, chip: ChipMemory, was: ChipMemory, force: bool, cells: seq<Cell>,
                          value: seq<Byte>, cache: seq<Byte>)
    requires |cells| <= |value| == |cache| && forall i | 0 <= i < |cells| :: IsCell(cells[i])
  {
    && (forall c | Visible(kind, c) && c !in cells :: chip[Register(c)] == was[Register(c)])
    && forall j | 0 <= j < |cells| && Visible(kind, cells[j]) && (force || was[Register(cells[j])] == cache[j]) ::
         chip[Register(cells[j])] == value[j]
  }

  /** The chip once the first `n` bytes have been written, those that differ from the cache or, if the writing is
      forced, all of them. */
  ghost function Poured(kind: OplType, chip: ChipMemory, force: bool, regs: seq<nat>, offset: nat, value: seq<Byte>,
                        cache: seq<Byte>, n: nat): ChipMemory
    requires n <= |regs| <= |value| == |cache| && forall i | 0 <= i < |regs| :: regs[i] + offset < 0x200
  {
    if n == 0 then chip
    else
      var before := Poured(kind, chip, force, regs, offset, value, cache, n - 1);
      if force || value[n - 1] != cache[n - 1] then before[Port(kind, regs[n - 1] + offset) := value[n - 1]] else before
  }

  lemma {:induction false} PouredIsWritten(kind: OplType, chip: ChipMemory, force: bool, regs: seq<nat>, offset: nat,
                                           value: seq<Byte>, cache: seq<Byte>, cells: seq<Cell>, n: nat)
    requires n <= |cells| == |regs| <= |value| == |cache| && AreCells(regs, offset, cells)
    requires forall i | 0 <= i < |cells| :: Harmless(kind, cells[i])
    ensures Written(kind, Poured(kind, chip, force, regs, offset, value, cache, n), chip, force, cells[..n],
                    value, cache)
  {
    if n > 0 {
      PouredIsWritten(kind, chip, force, regs, offset, value, cache, cells, n - 1);
      assert Register(cells[n - 1]) == regs[n - 1] + offset && cells[..n][..n - 1] == cells[..n - 1];
      WrittenOneMore(kind, Poured(kind, chip, force, regs, offset, value, cache, n),
                     Poured(kind, chip, force, regs, offset, value, cache, n - 1),
                     chip, force, value, cache, cells, n - 1);
    }
  }

  lemma WrittenOneMore(kind: OplType, chip': ChipMemory, chip: ChipMemory, was: ChipMemory, force: bool,
                       value: seq<Byte>, cache: seq<Byte>, cells: seq<Cell>, n: nat)
    requires n < |cells| <= |value| == |cache|
    requires forall i | 0 <= i < |cells| :: IsCell(cells[i]) && Harmless(kind, cells[i])
    requires forall i | 0 <= i < n :: cells[i] != cells[n]
    requires Written(kind, chip, was, force, cells[..n], value, cache)
    requires chip' == if force || value[n] != cache[n] then chip[Port(kind, Register(cells[n])) := value[n]] else chip
    ensures Written(kind, chip', was, force, cells[..n + 1], value, cache)
  {
    forall c | Visible(kind, c) && c != cells[n]
      ensures Register(c) != Port(kind, Register(cells[n]))
    {
      WritesElsewhere(kind, c, cells[n]);
    }
    assert cells[..n + 1] == cells[..n] + [cells[n]];
  }

  /** What the registers of a record stand for. */
  ghost predicate AreCells(regs: seq<nat>, offset: nat, cells: seq<Cell>)
    requires |cells| == |regs|
  {
    && (forall i | 0 <= i < |regs| :: IsCell(cells[i]) && Register(cells[i]) == regs[i] + offset)
    && forall i, j | 0 <= i < j < |regs| :: cells[i] != cells[j]
  }

  lemma PouredThree(kind: OplType, chip: ChipMemory, regs: seq<nat>, offset: nat, value: seq<Byte>, cache: seq<Byte>)
    requires 3 == |regs| == |value| == |cache| && forall i | 0 <= i < 3 :: regs[i] + offset < 0x200
    ensures Poured(kind, chip, true, regs, offset, value, cache, 3) ==
            chip[Port(kind, regs[0] + offset) := value[0]][Port(kind, regs[1] + offset) := value[1]]
                [Port(kind, regs[2] + offset) := value[2]]
  {
    var one := chip[Port(kind, regs[0] + offset) := value[0]];
    assert Poured(kind, chip, true, regs, offset, value, cache, 0) == chip;
    assert Poured(kind, chip, true, regs, offset, value, cache, 1) == one;
    assert Poured(kind, chip, true, regs, offset, value, cache, 2) == one[Port(kind, regs[1] + offset) := value[1]];
  }

  /** Registers that nothing goes to stay as they are. */
  lemma {:induction false} PouredElsewhere(kind: OplType, chip: ChipMemory, force: bool, regs: seq<nat>, offset: nat,
                                           value: seq<Byte>, cache: seq<Byte>, n: nat, r: nat)
    requires n <= |regs| <= |value| == |cache| && forall i | 0 <= i < |regs| :: regs[i] + offset < 0x200
    requires r < 0x200 && forall i | 0 <= i < n :: Port(kind, regs[i] + offset) != r
    ensures Poured(kind, chip, force, regs, offset, value, cache, n)[r] == chip[r]
  {
    if n > 0 {
      PouredElsewhere(kind, chip, force, regs, offset, value, cache, n - 1, r);
    }
  }

  /** The cached bytes once the first `n` have been updated. */
  function Updated(value: seq<Byte>, cache: seq<Byte>, n: nat): (r: seq<Byte>)
    requires n <= |value| == |cache|
    ensures |r| == |cache|
  {
    value[..n] + cache[n..]
  }

  lemma OneMoreUpdated(value: seq<Byte>, cache: seq<Byte>, n: nat)
    requires n < |value| == |cache|
    ensures Updated(value, cache, n)[n] == cache[n]
    ensures Updated(value, cache, n + 1) == Updated(value, cache, n)[n := value[n]]
  {
  }

  /** Since the chip held `was`, the sweep has cleared what it does in the banks before `bank`, and of that bank in
      the first `i` registers of each kind. */
  ghost predicate SweptUpTo(kind: OplType, chip: ChipMemory, was: ChipMemory, bank: nat, i: nat)
  {
    forall r | 0 <= r < 0x200 ::
      chip[r] == if Swept(r) && SweptNow(kind, r, bank, i) then 0 else was[r]
  }

  predicate SweptNow(kind: OplType, r: nat, bank: nat, i: nat)
  {
    if kind.Opl2? then r < 0x100 && (bank > 0 || r % 0x20 < i)
    else r / 0x100 < bank || (r / 0x100 == bank && r % 0x20 < i)
  }

  lemma SweptOneMore(kind: OplType, chip': ChipMemory, chip: ChipMemory, was: ChipMemory, bank: nat, i: nat)
    requires bank < 2 && i < 18 && SweptUpTo(kind, chip, was, bank, i)
    requires var base := (if kind.Opl2? then 0 else 0x100 * bank) + i;
             chip' == chip[base + 0x20 := 0][base + 0x40 := 0][base + 0x60 := 0][base + 0x80 := 0][base + 0xe0 := 0]
    ensures SweptUpTo(kind, chip', was, bank, i + 1)
  {
  }

  lemma PortOfSweep(kind: OplType, bank: nat, n: nat)
    requires bank < 2 && n < 0x100
    ensures Port(kind, 0x100 * bank + n) == (if kind.Opl2? then 0 else 0x100 * bank) + n
  {
  }

  lemma PortOfChannel(kind: OplType, ch: nat, j: nat)
    requires ch < 18 && j < 3
    ensures Port(kind, CHANNEL_REGISTERS[j] + ChannelOffset(ch)) == ChannelRegister(OnChip(kind, ch), j)
  {
  }

  lemma OtherThanChannel(c: Cell, ch: nat)
    requires IsCell(c) && ch < 18 && !(c.ChannelCell? && c.ch == ch)
    ensures forall j: nat | j < 3 :: Register(c) != ChannelRegister(ch, j)
  {
    forall j: nat | j < 3 && Register(c) == ChannelRegister(ch, j)
      ensures false
    {
      RegistersAreDistinct(c, ChannelCell(ch, j));
    }
  }

  lemma ChannelIsCleared(kind: OplType, chip: ChipMemory, was: ChipMemory, ch: nat)
    requires ch < 18
    requires var off := ChannelOffset(ch);
             chip == was[Port(kind, CHANNEL_REGISTERS[0] + off) := 0][Port(kind, CHANNEL_REGISTERS[1] + off) := 0]
                        [Port(kind, CHANNEL_REGISTERS[2] + off) := 0]
    ensures chip[0x01] == was[0x01] && chip[0x04] == was[0x04]
    ensures forall c: Cell | Visible(kind, c) ::
              chip[Register(c)] == if c.ChannelCell? && c.ch == OnChip(kind, ch) then 0 else was[Register(c)]
  {
    var on := OnChip(kind, ch);
    forall j: nat | j < 3
      ensures Port(kind, CHANNEL_REGISTERS[j] + ChannelOffset(ch)) == ChannelRegister(on, j)
    {
      PortOfChannel(kind, ch, j);
    }
    forall c: Cell | Visible(kind, c)
      ensures chip[Register(c)] == if c.ChannelCell? && c.ch == on then 0 else was[Register(c)]
    {
      if !(c.ChannelCell? && c.ch == on) {
        OtherThanChannel(c, on);
      }
    }
  }

  class BasicOpl {
    const kind: OplType

    // The driver's idea of the selected register, and the chip's: one index latch per register bank.
    var index: nat
    var latch: (Byte, Byte)
    var chip: ChipMemory

    // The cached records.
    var operators: OperatorBank
    var channels: ChannelBank
    var fourOp: FourOpBits
    var percussion: Byte
    var setup: seq<Byte>
    var timer: seq<Byte>
    // How often the key of each channel has gone on; each time the chip strikes a new sound.
    ghost var strikes: StrikeCounts

    /** The OPL2 has one bank and its port truncates register numbers to eight bits. */
    function BankOf(idx: nat): nat
      requires idx < 0x200
    {
      if kind.Opl2? then 0 else idx / 0x100
    }

    /** The register the driver believes selected is the one selected. */
    ghost predicate Selected()
      reads this
    {
      index < 0x200 && (if BankOf(index) == 0 then latch.0 else latch.1) == index % 0x100
    }

    /** The cached value of a register. */
    ghost function Cached(c: Cell): Byte
      requires IsCell(c) && |setup| == 4 && |timer| == 3
      reads this
    {
      match c
      case OperatorCell(slot, j) => operators[slot][j]
      case ChannelCell(ch, j) => channels[ch][j]
      case SetupCell(j) => setup[j]
      case TimerCell(j) => timer[j]
      case FourOpCell => Pack(fourOp)
      case PercussionCell => percussion
    }

    /** Every cached byte that has a register for itself is what the chip holds. The timer control register is left
        out: its interrupt reset bit does not stay set. */
    ghost predicate Coherent()
      reads this
    {
      && |setup| == 4 && |timer| == 3 && Selected()
      && (forall c: Cell | Visible(kind, c) && c != TimerCell(2) :: chip[Register(c)] == Cached(c))
    }

    /** Select the register if it is not selected already, then write it. */
    method DriverWrite(idx: nat, data: Byte)
      requires idx < 0x200 && Selected()
      modifies `index, `latch, `chip
      ensures Selected()
      ensures chip == old(chip)[Port(kind, idx) := data]
    {
      var hi := BankOf(idx) == 1;
      if index != idx {
        latch := if hi then (latch.0, idx % 0x100) else (idx % 0x100, latch.1);
        index := idx;
      }
      var selected := if hi then 0x100 + latch.1 else latch.0;
      chip := chip[selected := data];
    }

    method WriteOne(force: bool, idx: nat, i: nat, value: seq<Byte>, cache: seq<Byte>) returns (updated: seq<Byte>)
      requires i < |value| == |cache| && idx < 0x200 && Selected()
      modifies `index, `latch, `chip
      ensures Selected() && updated == cache[i := value[i]]
      ensures chip == if force || value[i] != cache[i] then old(chip)[Port(kind, idx) := value[i]] else old(chip)
    {
      updated := cache;
      if force || value[i] != updated[i] {
        updated := updated[i := value[i]];
        DriverWrite(idx, value[i]);
      }
    }

    /** Write the bytes of a record that differ from the cache, or all of them when forced; a record may have more
        bytes than registers are listed. */
    method DoWrite(force: bool, regs: seq<nat>, offset: nat, value: seq<Byte>, cache: seq<Byte>)
      returns (updated: seq<Byte>)
      requires |regs| <= |value| == |cache| && (forall i | 0 <= i < |regs| :: regs[i] + offset < 0x200) && Selected()
      modifies `index, `latch, `chip
      ensures Selected()
      ensures updated == value[..|regs|] + cache[|regs|..]
      ensures chip == Poured(kind, old(chip), force, regs, offset, value, cache, |regs|)
    {
      updated := cache;
      ghost var was := chip;
      for i := 0 to |regs|
        invariant Selected() && updated == Updated(value, cache, i)
        invariant chip == Poured(kind, was, force, regs, offset, value, cache, i)
      {
        OneMoreUpdated(value, cache, i);
        updated := WriteOne(force, regs[i] + offset, i, value, updated);
      }
    }

    /** The same for a record whose bytes are `cells`: it reaches the chip, and no other record does. */
    method WriteRecord(force: bool, regs: seq<nat>, offset: nat, value: seq<Byte>, cache: seq<Byte>,
                       ghost cells: seq<Cell>)
      returns (updated: seq<Byte>)
      requires |cells| == |regs| <= |value| == |cache| && AreCells(regs, offset, cells) && Selected()
      modifies `index, `latch, `chip
      ensures Selected()
      ensures updated == value[..|regs|] + cache[|regs|..]
      ensures chip == Poured(kind, old(chip), force, regs, offset, value, cache, |regs|)
      ensures (forall i | 0 <= i < |cells| :: Harmless(kind, cells[i])) ==>
                Written(kind, chip, old(chip), force, cells, value, cache)
    {
      ghost var was := chip;
      updated := DoWrite(force, regs, offset, value, cache);
      if forall i | 0 <= i < |cells| :: Harmless(kind, cells[i]) {
        PouredIsWritten(kind, was, force, regs, offset, value, cache, cells, |cells|);
        assert cells[..|cells|] == cells;
      }
    }

    method WriteOperator(value: OperatorRecord, slot: nat)
      requires slot < 36 && Coherent()
      modifies `index, `latch, `chip, `operators
      ensures operators == old(operators)[slot := value] && Selected() && |setup| == 4 && |timer| == 3
      ensures (kind.Opl2? ==> slot < 18) ==> Coherent()
    {
      ghost var cells := seq(5, j requires 0 <= j < 5 => OperatorCell(slot, j));
      var updated := WriteRecord(false, OPERATOR_REGISTERS, OperatorOffset(slot), value, operators[slot], cells);
      assert updated == value;
      operators := operators[slot := updated];
    }

    /** While a secondary channel is part of an active 4-operator voice, its frequency and key are left alone. */
    method WriteChannel(value: ChannelRecord, ch: nat)
      requires ch < 18 && Coherent()
      modifies `index, `latch, `chip, `channels, `strikes
      ensures Selected() && |setup| == 4 && |timer| == 3 && ((kind.Opl2? ==> ch < 9) ==> Coherent())
      ensures strikes == Struck(old(strikes), ch, old(channels[ch]), channels[ch])
      ensures channels ==
              old(channels)[ch := if Partial(kind, fourOp, ch) then [value[0]] + old(channels[ch])[1..] else value]
    {
      var regs := CHANNEL_REGISTERS;
      if !kind.Opl2? {
        if Paired(ch) && ch == Secondary(PairOf(ch)) && fourOp[PairOf(ch)] {
          regs := CHANNEL_REGISTERS[..1];
        }
      }
      assert value[..|regs|] + channels[ch][|regs|..] ==
             if Partial(kind, fourOp, ch) then [value[0]] + channels[ch][1..] else value;
      WriteChannelBytes(regs, value, ch);
    }

    /** Write the first bytes of a channel record. */
    method WriteChannelBytes(regs: seq<nat>, value: ChannelRecord, ch: nat)
      requires ch < 18 && Coherent() && regs <= CHANNEL_REGISTERS
      modifies `index, `latch, `chip, `channels, `strikes
      ensures Selected() && |setup| == 4 && |timer| == 3 && ((kind.Opl2? ==> ch < 9) ==> Coherent())
      ensures strikes == Struck(old(strikes), ch, old(channels[ch]), channels[ch])
      ensures channels == old(channels)[ch := value[..|regs|] + old(channels[ch])[|regs|..]]
    {
      ghost var cells := seq(|regs|, j requires 0 <= j < |regs| => ChannelCell(ch, j));
      var updated := WriteRecord(false, regs, ChannelOffset(ch), value, channels[ch], cells);
      strikes := Struck(strikes, ch, channels[ch], updated);
      channels := channels[ch := updated];
    }

    method WriteFourOp(value: FourOpBits)
      requires Coherent()
      modifies `index, `latch, `chip, `fourOp
      ensures Coherent() && fourOp == value
    {
      ghost var cells := [FourOpCell];
      assert Visible(kind, cells[0]) ==> chip[Register(cells[0])] == Pack(fourOp);
      var updated := WriteRecord(false, [0x104], 0, [Pack(value)], [Pack(fourOp)], cells);
      assert Visible(kind, cells[0]) ==> chip[Register(cells[0])] == Pack(value);
      fourOp := value;
    }

    method SetFourOp(k: nat, on: bool)
      requires k < 6 && Coherent()
      modifies `index, `latch, `chip, `fourOp
      ensures Coherent() && fourOp == old(fourOp)[k := on]
    {
      WriteFourOp(fourOp[k := on]);
    }

    method WritePercussion(value: Byte)
      requires Coherent()
      modifies `index, `latch, `chip, `percussion
      ensures Coherent() && percussion == value
    {
      ghost var cells := [PercussionCell];
      assert Visible(kind, cells[0]) ==> chip[Register(cells[0])] == percussion;
      var updated := WriteRecord(false, [0xbd], 0, [value], [percussion], cells);
      assert Visible(kind, cells[0]) ==> chip[Register(cells[0])] == value;
      percussion := updated[0];
    }

    method WriteSetup(value: seq<Byte>)
      requires |value| == 4 && Coherent()
      modifies `index, `latch, `chip, `setup
      ensures Coherent() && setup == value
    {
      ghost var cells := seq(4, j requires 0 <= j < 4 => SetupCell(j));
      setup := WriteRecord(false, SETUP_REGISTERS, 0, value, setup, cells);
    }

    /** The cached interrupt reset bit is cleared again after the write. */
    method WriteTimer(value: seq<Byte>)
      requires |value| == 3 && Coherent()
      modifies `index, `latch, `chip, `timer
      ensures Coherent() && timer == value[2 := value[2] % 0x80]
    {
      ghost var cells := seq(3, j requires 0 <= j < 3 => TimerCell(j));
      timer := WriteRecord(false, TIMER_REGISTERS, 0, value, timer, cells);
      timer := timer[2 := timer[2] % 0x80];
    }
  
    // ----- Setting up

    /** The constructor clears every record in the cache and writes zeros to the chip. The cache then agrees with
        the chip exactly when the operators that its last loop misses were zero already. */
    constructor (kind: OplType, chip: ChipMemory, index: nat, latch: (Byte, Byte))
      requires index < 0x200
      requires (if kind.Opl2? || index < 0x100 then latch.0 else latch.1) == index % 0x100
      ensures this.kind == kind && Selected()
      ensures operators == seq(36, _ => ZERO_OPERATOR) && channels == seq(18, _ => ZERO_CHANNEL)
      ensures forall k | 0 <= k < 6 :: !fourOp[k]
      ensures Coherent() <==>
              forall slot: nat, j: nat | Missed(kind, slot) && j < 5 :: chip[OperatorRegister(slot, j)] == 0
      ensures |setup| == 4 && |timer| == 3
      ensures kind.Opl2? ==> setup[0] == 0x20 && timer[2] == 0x60 && this.chip[0x01] == 0 && this.chip[0x04] == 0
    {
      this.kind, this.chip, this.index, this.latch := kind, chip, index, latch;
      operators := seq(36, _ => ZERO_OPERATOR);
      channels := seq(18, _ => ZERO_CHANNEL);
      fourOp := [false, false, false, false, false, false];
      percussion := 0;
      setup, timer := [0, 0, 0, 0], [0, 0, 0];
      strikes := seq(18, _ => 0);
      new;
      Init();
      ClearChannels();
      ClearOperators();
      forall c: Cell | IsCell(c)
        ensures Swept(Register(c)) <==> c.OperatorCell? && c.slot % 18 < 14
      {
        SweptCells(c);
      }
      CoherentOnceCleared(chip);
    }

    /** When the chip holds what is cached, but for operators that the sweep missed, it is coherent exactly when those
        were zero. */
    lemma CoherentOnceCleared(was: ChipMemory)
      requires Selected() && |setup| == 4 && |timer| == 3 && operators == seq(36, _ => ZERO_OPERATOR)
      requires forall c: Cell | Visible(kind, c) && c != TimerCell(2) ::
                 chip[Register(c)] == if c.OperatorCell? && c.slot % 18 >= 14 then was[Register(c)] else Cached(c)
      ensures Coherent() <==>
              forall slot: nat, j: nat | Missed(kind, slot) && j < 5 :: was[OperatorRegister(slot, j)] == 0
    {
      if Coherent() {
        forall slot: nat, j: nat | Missed(kind, slot) && j < 5
          ensures was[OperatorRegister(slot, j)] == 0
        {
          assert Visible(kind, OperatorCell(slot, j));
        }
      } else {
        var c :| Visible(kind, c) && c != TimerCell(2) && chip[Register(c)] != Cached(c);
        assert c.OperatorCell? && c.slot % 18 >= 14 && Cached(c) == 0;
        assert was[OperatorRegister(c.slot, c.byte)] != 0;
      }
    }

    method Init()
      requires Selected() && |setup| == 4 && |timer| == 3
      modifies `index, `latch, `chip, `setup, `timer, `fourOp, `percussion
      ensures Selected() && |setup| == 4 && |timer| == 3 && forall k | 0 <= k < 6 :: !fourOp[k]
      ensures forall c: Cell | Visible(kind, c) && c != TimerCell(2) ::
                chip[Register(c)] == if c.OperatorCell? || c.ChannelCell? then old(chip[Register(c)]) else Cached(c)
      ensures kind.Opl2? ==> setup[0] == 0x20 && timer[2] == 0x60 && chip[0x01] == 0 && chip[0x04] == 0
    {
      InitSetup();
      InitTimer();
      InitFourOpAndPercussion();
    }

    /** On the OPL2 the third byte goes where the first one went. */
    method InitSetup()
      requires Selected() && |setup| == 4
      modifies `index, `latch, `chip, `setup
      ensures Selected() && setup == [if kind.Opl2? then 0x20 else 0, 0x40, 0,
                                      if kind.Opl2? then 0 else if kind.Opl3? then 0x01 else 0x05]
      ensures forall c: Cell | Visible(kind, c) ::
                chip[Register(c)] == if c.SetupCell? then setup[c.byte] else old(chip[Register(c)])
      ensures kind.Opl2? ==> chip[0x01] == 0
    {
      ghost var (cells, was) := (seq(4, j requires 0 <= j < 4 => SetupCell(j)), chip);
      var s: seq<Byte> := [if kind.Opl2? then 0x20 else 0, 0x40, 0,
                           if kind.Opl2? then 0 else if kind.Opl3? then 0x01 else 0x05];
      var cache := setup;
      setup := WriteRecord(true, SETUP_REGISTERS, 0, s, setup, cells);
      assert Poured(kind, was, true, SETUP_REGISTERS, 0, s, cache, 3)[Port(kind, 0x101)] == 0;
      forall c: Cell | Visible(kind, c) && c.SetupCell?
        ensures chip[Register(c)] == setup[c.byte]
      {
        assert cells[c.byte] == c;
      }
    }

    /** Mask both timers, then reset the interrupt. */
    method InitTimer()
      requires Selected() && |setup| == 4 && |timer| == 3
      modifies `index, `latch, `chip, `timer
      ensures Selected() && timer == [0, 0, 0x60]
      ensures chip[Register(TimerCell(0))] == 0 && chip[Register(TimerCell(1))] == 0 && chip[0x01] == old(chip[0x01])
      ensures forall c: Cell | Visible(kind, c) && !c.TimerCell? :: chip[Register(c)] == old(chip[Register(c)])
    {
      SetTimer(true, [0, 0, 0x60]);
      SetTimer(false, [0, 0, 0xe0]);
      timer := timer[2 := timer[2] % 0x80];
    }

    method SetTimer(force: bool, value: seq<Byte>)
      requires Selected() && |value| == |timer| == 3
      requires !force ==> chip[2] == timer[0] && chip[3] == timer[1]
      modifies `index, `latch, `chip, `timer
      ensures Selected() && timer == value && chip[2] == value[0] && chip[3] == value[1]
      ensures chip[0x01] == old(chip[0x01])
      ensures forall c: Cell | Visible(kind, c) && !c.TimerCell? :: chip[Register(c)] == old(chip[Register(c)])
    {
      ghost var (cells, was, cache) := (seq(3, j requires 0 <= j < 3 => TimerCell(j)), chip, timer);
      timer := WriteRecord(force, TIMER_REGISTERS, 0, value, timer, cells);
      PouredElsewhere(kind, was, force, TIMER_REGISTERS, 0, value, cache, 3, 1);
      assert Register(cells[0]) == 2 && Register(cells[1]) == 3;
    }

    method InitFourOpAndPercussion()
      requires Selected() && |setup| == 4 && |timer| == 3
      modifies `index, `latch, `chip, `fourOp, `percussion
      ensures Selected() && fourOp == [false, false, false, false, false, false] && percussion == 0
      ensures chip[Port(kind, Register(FourOpCell))] == 0 && chip[Register(PercussionCell)] == 0
      ensures chip[0x01] == old(chip[0x01])
      ensures forall c: Cell | Visible(kind, c) && !c.FourOpCell? && !c.PercussionCell? ::
                chip[Register(c)] == old(chip[Register(c)])
    {
      InitByte(0x104, FourOpCell);
      fourOp := [false, false, false, false, false, false];
      InitByte(0xbd, PercussionCell);
      percussion := 0;
    }

    method InitByte(idx: nat, ghost cell: Cell)
      requires Selected() && (cell == FourOpCell || cell == PercussionCell) && idx == Register(cell)
      modifies `index, `latch, `chip
      ensures Selected() && chip == old(chip)[Port(kind, idx) := 0]
      ensures forall c: Cell | Visible(kind, c) && c != cell :: chip[Register(c)] == old(chip[Register(c)])
    {
      ghost var was := chip;
      var byte := WriteRecord(true, [idx], 0, [0], [0], [cell]);
      assert Poured(kind, was, true, [idx], 0, [0], [0], 0) == was;
    }

    method ClearChannels()
      requires Selected()
      modifies `index, `latch, `chip
      ensures Selected() && chip[0x01] == old(chip[0x01]) && chip[0x04] == old(chip[0x04])
      ensures forall c: Cell | Visible(kind, c) ::
                chip[Register(c)] == if c.ChannelCell? then 0 else old(chip[Register(c)])
    {
      for ch := 0 to 18
        invariant Selected() && chip[0x01] == old(chip[0x01]) && chip[0x04] == old(chip[0x04])
        invariant forall c: Cell | Visible(kind, c) ::
                    chip[Register(c)] == if c.ChannelCell? && c.ch < ch then 0 else old(chip[Register(c)])
      {
        ClearChannel(ch);
      }
    }

    method ClearChannel(ch: nat)
      requires Selected() && ch < 18
      modifies `index, `latch, `chip
      ensures Selected() && chip[0x01] == old(chip[0x01]) && chip[0x04] == old(chip[0x04])
      ensures forall c: Cell | Visible(kind, c) ::
                chip[Register(c)] == if c.ChannelCell? && c.ch == OnChip(kind, ch) then 0 else old(chip[Register(c)])
    {
      ghost var was := chip;
      var scratch := DoWrite(true, CHANNEL_REGISTERS, ChannelOffset(ch), ZERO_CHANNEL, ZERO_CHANNEL);
      PouredThree(kind, was, CHANNEL_REGISTERS, ChannelOffset(ch), ZERO_CHANNEL, ZERO_CHANNEL);
      ChannelIsCleared(kind, chip, was, ch);
    }

    method ClearOperators()
      requires Selected()
      modifies `index, `latch, `chip
      ensures Selected()
      ensures forall r | 0 <= r < 0x200 ::
                chip[r] == if Swept(r) && (kind.Opl2? ==> r < 0x100) then 0 else old(chip[r])
    {
      ghost var was := chip;
      for bank := 0 to 2
        invariant Selected()
        invariant SweptUpTo(kind, chip, was, bank, 0)
      {
        for i := 0 to 18
          invariant Selected()
          invariant SweptUpTo(kind, chip, was, bank, i)
        {
          ghost var before := chip;
          Sweep(bank, i);
          SweptOneMore(kind, chip, before, was, bank, i);
        }
      }
    }

    method Sweep(bank: nat, i: nat)
      requires Selected() && bank < 2 && i < 18
      modifies `index, `latch, `chip
      ensures Selected()
      ensures var base := (if kind.Opl2? then 0 else 0x100 * bank) + i;
              chip == old(chip)[base + 0x20 := 0][base + 0x40 := 0][base + 0x60 := 0][base + 0x80 := 0]
                               [base + 0xe0 := 0]
    {
      WriteZero(bank, i + 0x20);
      WriteZero(bank, i + 0x40);
      WriteZero(bank, i + 0x60);
      WriteZero(bank, i + 0x80);
      WriteZero(bank, i + 0xe0);
    }

    method WriteZero(bank: nat, n: nat)
      requires Selected() && bank < 2 && n < 0x100
      modifies `index, `latch, `chip
      ensures Selected() && chip == old(chip)[(if kind.Opl2? then 0 else 0x100 * bank) + n := 0]
    {
      PortOfSweep(kind, bank, n);
      DriverWrite(0x100 * bank + n, 0);
    }
  }
}
