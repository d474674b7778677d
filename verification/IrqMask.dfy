/** Nested masking of single IRQ lines: two port bytes shared by sixteen lines, and a counter for each line whose
    top bit remembers how the line was before the outermost mask. */
module IrqMask {
  const LINES: nat := 16
  const SAVED: nat := 0x8000_0000

  type Counts = s: seq<nat> | |s| == LINES witness seq<nat>(LINES, _ => 0)

  // ----- What masking means for one line

  /** A line is idle, with its bit set or not, or held masked a number of levels deep, to return to a saved state. */
  datatype LineState = Idle(masked: bool) | Held(depth: nat, saved: bool)

  datatype Op = Cli(irq: nat) | Sti(irq: nat) | Unmask(irq: nat)

  function After(s: LineState, op: Op): LineState
    requires op.Sti? ==> s.Held?
  {
    match (op, s)
    case (Cli(_), Idle(masked)) => Held(1, masked)
    case (Cli(_), Held(depth, saved)) => Held(depth + 1, saved)
    case (Sti(_), Held(depth, saved)) => if depth <= 1 then Idle(saved) else Held(depth - 1, saved)
    case (Unmask(_), Idle(_)) => Idle(false)
    case (Unmask(_), Held(depth, _)) => Held(depth, false)
  }

  /** The masks of a line opened less those closed. */
  function Depth(ops: seq<Op>, irq: nat): int
  {
    if ops == [] then 0
    else
      var last := ops[|ops| - 1];
      Depth(ops[..|ops| - 1], irq) + (if last == Cli(irq) then 1 else if last == Sti(irq) then -1 else 0)
  }

  /** No line is released more often than it was masked. */
  predicate Nested(ops: seq<Op>)
  {
    forall k, irq: nat | 0 <= k <= |ops| && irq < LINES :: Depth(ops[..k], irq) >= 0
  }

  /** No line is ever masked more levels deep than its counter can tell. */
  predicate Shallow(ops: seq<Op>)
  {
    forall k, irq: nat | 0 <= k <= |ops| && irq < LINES :: Depth(ops[..k], irq) < SAVED
  }

  /** What a history makes of a line that was idle. */
  function State(ops: seq<Op>, irq: nat, masked: bool): (s: LineState)
    requires Nested(ops) && irq < LINES
    ensures s.Held? <==> Depth(ops, irq) > 0
    ensures s.Held? ==> s.depth == Depth(ops, irq)
  {
    if ops == [] then Idle(masked)
    else
      var (before, last) := (ops[..|ops| - 1], ops[|ops| - 1]);
      PrefixesNest(ops);
      var s := State(before, irq, masked);
      if last.irq == irq then After(s, last) else s
  }

  lemma PrefixesNest(ops: seq<Op>)
    requires Nested(ops) && ops != []
    ensures Nested(ops[..|ops| - 1])
    ensures forall irq: nat | irq < LINES :: Depth(ops, irq) >= 0
  {
    var before := ops[..|ops| - 1];
    forall k, irq: nat | 0 <= k <= |before| && irq < LINES
      ensures Depth(before[..k], irq) >= 0
    {
      assert before[..k] == ops[..k];
    }
    assert ops[..|ops|] == ops;
  }

  /** For every interleaving of nested masks and explicit unmasks, over any lines: once a line is released in full,
      it is as before, except that it is unmasked if it was ever unmasked explicitly, however deep that was. */
  lemma {:induction false} ReleasedLineIsRestored(ops: seq<Op>, irq: nat, masked: bool)
    requires Nested(ops) && irq < LINES
    ensures var s := State(ops, irq, masked);
            (if s.Held? then s.saved else s.masked) == (masked && Unmask(irq) !in ops)
  {
    if ops != [] {
      var (before, last) := (ops[..|ops| - 1], ops[|ops| - 1]);
      PrefixesNest(ops);
      assert ops == before + [last];
      ReleasedLineIsRestored(before, irq, masked);
    }
  }

  lemma PrefixIsNested(ops: seq<Op>, k: nat)
    requires Nested(ops) && k <= |ops|
    ensures Nested(ops[..k])
    ensures forall irq: nat | irq < LINES :: 0 <= Depth(ops[..k], irq)
  {
    forall j, irq: nat | 0 <= j <= k && irq < LINES
      ensures Depth(ops[..k][..j], irq) >= 0
    {
      assert ops[..k][..j] == ops[..j];
    }
  }

  lemma NestedStep(ops: seq<Op>, k: nat)
    requires Nested(ops) && k < |ops|
    ensures Nested(ops[..k]) && Nested(ops[..k + 1])
    ensures ops[..k + 1][..k] == ops[..k] && ops[..k + 1][k] == ops[k]
    ensures forall irq: nat | irq < LINES :: 0 <= Depth(ops[..k], irq)
    ensures ops[k].Sti? && ops[k].irq < LINES ==> Depth(ops[..k], ops[k].irq) > 0
  {
    PrefixIsNested(ops, k);
    PrefixIsNested(ops, k + 1);
    if ops[k].Sti? && ops[k].irq < LINES {
      assert Depth(ops[..k + 1], ops[k].irq) >= 0;
    }
  }

  // ----- Bits of a port

  function Bit(k: nat): bv8
    requires k < 8
  {
    if k == 0 then 1 else if k == 1 then 2 else if k == 2 then 4 else if k == 3 then 8
    else if k == 4 then 16 else if k == 5 then 32 else if k == 6 then 64 else 128
  }

  predicate Has(p: bv8, j: nat)
    requires j < 8
  {
    p & Bit(j) != 0
  }

  lemma SetBit(p: bv8, k: nat, j: nat)
    requires k < 8 && j < 8
    ensures Has(p | Bit(k), j) <==> j == k || Has(p, j)
  {
  }

  lemma ClearBit(p: bv8, k: nat, j: nat)
    requires k < 8 && j < 8
    ensures Has(p & !Bit(k), j) <==> j != k && Has(p, j)
  {
  }

  class Masks {
    var master: bv8
    var slave: bv8
    var counts: Counts

    predicate BitIsSet(irq: nat)
      requires irq < LINES
      reads `master, `slave
    {
      Has(if irq < 8 then master else slave, irq % 8)
    }

    /** A line that is held is masked. */
    ghost predicate Valid()
      reads this
    {
      && (forall i | 0 <= i < LINES :: counts[i] < 0x1_0000_0000)
      && forall i | 0 <= i < LINES && counts[i] % SAVED > 0 :: BitIsSet(i)
    }

    /** What the counter and the port bit of a line stand for. */
    ghost function Line(irq: nat): LineState
      requires irq < LINES
      reads this
    {
      if counts[irq] % SAVED == 0 then Idle(BitIsSet(irq)) else Held(counts[irq] % SAVED, counts[irq] >= SAVED)
    }

    method WriteBit(irq: nat, on: bool)
      requires irq < LINES
      modifies `master, `slave
      ensures forall j | 0 <= j < LINES :: BitIsSet(j) == if j == irq then on else old(BitIsSet(j))
    {
      var k := irq % 8;
      var p := if irq < 8 then master else slave;
      forall j | 0 <= j < 8
        ensures Has(p | Bit(k), j) <==> j == k || Has(p, j)
        ensures Has(p & !Bit(k), j) <==> j != k && Has(p, j)
      {
        SetBit(p, k, j);
        ClearBit(p, k, j);
      }
      p := if on then p | Bit(k) else p & !Bit(k);
      if irq < 8 {
        master := p;
      } else {
        slave := p;
      }
    }

    method Cli(irq: nat)
      requires Valid() && irq < LINES && counts[irq] % SAVED < SAVED - 1
      modifies this
      ensures Valid() && Line(irq) == After(old(Line(irq)), Op.Cli(irq))
      ensures forall j | 0 <= j < LINES && j != irq :: Line(j) == old(Line(j))
    {
      var current := BitIsSet(irq);
      WriteBit(irq, true);
      var c := counts[irq];
      if c % SAVED == 0 {
        c := if current then SAVED else 0;
      }
      counts := counts[irq := c + 1];
    }

    method Sti(irq: nat)
      requires Valid() && irq < LINES && Line(irq).Held?
      modifies this
      ensures Valid() && Line(irq) == After(old(Line(irq)), Op.Sti(irq))
      ensures forall j | 0 <= j < LINES && j != irq :: Line(j) == old(Line(j))
    {
      var c := counts[irq] - 1;
      counts := counts[irq := c];
      if c == 0 {
        WriteBit(irq, false);
      }
    }

    method Unmask(irq: nat)
      requires Valid() && irq < LINES
      modifies this
      ensures Valid() && Line(irq) == After(old(Line(irq)), Op.Unmask(irq))
      ensures forall j | 0 <= j < LINES && j != irq :: Line(j) == old(Line(j))
    {
      var c := counts[irq] % SAVED;
      if c > 0 {
        counts := counts[irq := c];
      } else {
        WriteBit(irq, false);
      }
    }

    /** Despite its name, this answers whether an idle line is masked: it is right about lines that are held, and
        wrong about all others. */
    method Enabled(irq: nat) returns (r: bool)
      requires Valid() && irq < LINES
      ensures r <==> Line(irq) == Idle(true)
      ensures (r <==> Line(irq) == Idle(false)) <==> Line(irq).Held?
    {
      r := counts[irq] % SAVED == 0 && BitIsSet(irq);
    }

    /** Carry out a history of operations. */
    method Run(ops: seq<Op>)
      requires Valid() && Nested(ops) && Shallow(ops) && forall op | op in ops :: op.irq < LINES
      requires forall i | 0 <= i < LINES :: Line(i).Idle?
      modifies this
      ensures Valid() && forall i | 0 <= i < LINES :: Line(i) == State(ops, i, old(Line(i)).masked)
    {
      for k := 0 to |ops|
        invariant Valid() && Nested(ops[..k])
        invariant forall i | 0 <= i < LINES :: Line(i) == State(ops[..k], i, old(Line(i)).masked)
      {
        NestedStep(ops, k);
        assert ops[k] in ops && Line(ops[k].irq) == State(ops[..k], ops[k].irq, old(Line(ops[k].irq)).masked);
        assert ops[k].Cli? ==> Depth(ops[..k], ops[k].irq) + 1 == Depth(ops[..k + 1], ops[k].irq) < SAVED;
        match ops[k] {
          case Cli(irq) => Cli(irq);
          case Sti(irq) => Sti(irq);
          case Unmask(irq) => Unmask(irq);
        }
      }
      assert ops[..|ops|] == ops;
    }
  }
}
