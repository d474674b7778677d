/** Masking single IRQ lines, with every access to a port and to a counter as a step of its own. Interrupts are on
    meanwhile, so between any two steps whole handlers may run, which mask and unmask lines themselves. */
module IrqMaskSteps {
  import opened IrqMask

  datatype Counter = Counter(depth: nat, saved: bool)

  type Bits = s: seq<bool> | |s| == LINES witness seq<bool>(LINES, _ => false)
  type Counters = s: seq<Counter> | |s| == LINES witness seq<Counter>(LINES, _ => Counter(0, false))

  /** The mask bits of both ports, and the counters. */
  datatype Machine = Machine(bits: Bits, counts: Counters)

  type Level = i: nat | i < LINES

  /** What code does with lines: it masks one for as long as a block runs, or unmasks one. The other programs are what
      handlers do between the steps of these: three gaps in masking, three in releasing, two in unmasking. */
  datatype Stmt =
    | Scope(irq: Level, c1: Prog, c2: Prog, c3: Prog, body: Prog, s1: Prog, s2: Prog, s3: Prog)
    | Clear(irq: Level, u1: Prog, u2: Prog)

  datatype Prog = Nil | Seq(first: Stmt, rest: Prog)

  // ----- Steps

  function PortStart(irq: Level): nat
  {
    if irq < 8 then 0 else 8
  }

  function ReadPort(m: Machine, irq: Level): (port: seq<bool>)
    ensures |port| == 8
  {
    m.bits[PortStart(irq)..PortStart(irq) + 8]
  }

  /** Writing a port writes the bits of all its eight lines. */
  function WritePort(m: Machine, irq: Level, port: seq<bool>): Machine
    requires |port| == 8
  {
    var lo := PortStart(irq);
    m.(bits := m.bits[..lo] + port + m.bits[lo + 8..])
  }

  function Count(m: Machine, irq: Level, c: Counter): Machine
  {
    m.(counts := m.counts[irq := c])
  }

  /** Handlers leave every line as deep as they found it. */
  predicate SameDepths(m': Machine, m: Machine)
  {
    forall j | 0 <= j < LINES :: m'.counts[j].depth == m.counts[j].depth
  }

  /** Write back what was read from a port, with the bit of one line changed. */
  function Wrote(m: Machine, irq: Level, port: seq<bool>, on: bool): (m': Machine)
    requires |port| == 8
    ensures m'.counts == m.counts
  {
    WritePort(m, irq, port[irq - PortStart(irq) := on])
  }

  /** Store the count one higher than it was loaded; the outermost mask saves how the bit was read. */
  function Raised(m: Machine, irq: Level, loaded: Counter, bit: bool): Machine
  {
    Count(m, irq, if loaded.depth == 0 then Counter(1, bit) else Counter(loaded.depth + 1, loaded.saved))
  }

  function Lowered(m: Machine, irq: Level, loaded: Counter): Machine
    requires loaded.depth > 0
  {
    Count(m, irq, Counter(loaded.depth - 1, loaded.saved))
  }

  // ----- Runs

  /** The constructor of a mask: read the port, write it, load the counter, store it. */
  function Cli(m: Machine, st: Stmt): (m': Machine)
    requires st.Scope?
    ensures m'.counts[st.irq].depth == m.counts[st.irq].depth + 1
    ensures forall j | 0 <= j < LINES && j != st.irq :: m'.counts[j].depth == m.counts[j].depth
    decreases st, 0
  {
    var port := ReadPort(m, st.irq);
    var b := Run(Wrote(Run(m, st.c1), st.irq, port, true), st.c2);
    Raised(Run(b, st.c3), st.irq, b.counts[st.irq], port[st.irq - PortStart(st.irq)])
  }

  /** Its destructor: load the counter, store it, and when it is zero, read the port and write it. */
  function Sti(m: Machine, st: Stmt): (m': Machine)
    requires st.Scope? && m.counts[st.irq].depth > 0
    ensures m'.counts[st.irq].depth == m.counts[st.irq].depth - 1
    ensures forall j | 0 <= j < LINES && j != st.irq :: m'.counts[j].depth == m.counts[j].depth
    decreases st, 0
  {
    var h := Lowered(Run(m, st.s1), st.irq, m.counts[st.irq]);
    var i := Run(h, st.s2);
    if h.counts[st.irq] == Counter(0, false) then Wrote(Run(i, st.s3), st.irq, ReadPort(i, st.irq), false) else i
  }

  function RunStmt(m: Machine, st: Stmt): (m': Machine)
    ensures SameDepths(m', m)
    decreases st, 1
  {
    match st
    case Scope(irq, _, _, _, body, _, _, _) => Sti(Run(Cli(m, st), body), st)
    case Clear(irq, u1, u2) =>
      var a := Run(m, u1);
      if m.counts[irq].depth > 0 then Count(a, irq, Counter(m.counts[irq].depth, false))
      else Wrote(Run(a, u2), irq, ReadPort(a, irq), false)
  }

  function Run(m: Machine, p: Prog): (m': Machine)
    ensures SameDepths(m', m)
    decreases p
  {
    match p
    case Nil => m
    case Seq(first, rest) => Run(RunStmt(m, first), rest)
  }

  // ----- What it comes to

  /** A line that is held is masked. */
  ghost predicate Fits(m: Machine)
  {
    forall j | 0 <= j < LINES && m.counts[j].depth > 0 :: m.bits[j]
  }

  function Line(m: Machine, j: Level): LineState
  {
    if m.counts[j].depth == 0 then Idle(m.bits[j]) else Held(m.counts[j].depth, m.counts[j].saved)
  }

  ghost predicate SameLines(m': Machine, m: Machine)
  {
    forall j: Level :: Line(m', j) == Line(m, j)
  }

  /** Nobody unmasks a line. */
  predicate Balanced(p: Prog)
  {
    match p
    case Nil => true
    case Seq(first, rest) =>
      && first.Scope? && Balanced(first.c1) && Balanced(first.c2) && Balanced(first.c3) && Balanced(first.body)
      && Balanced(first.s1) && Balanced(first.s2) && Balanced(first.s3) && Balanced(rest)
  }

  /** In the gaps, nobody unmasks a line. */
  predicate GapsBalanced(p: Prog)
  {
    match p
    case Nil => true
    case Seq(first, rest) => StmtGapsBalanced(first) && GapsBalanced(rest)
  }

  predicate StmtGapsBalanced(st: Stmt)
  {
    match st
    case Scope(_, c1, c2, c3, body, s1, s2, s3) =>
      && Balanced(c1) && Balanced(c2) && Balanced(c3) && GapsBalanced(body)
      && Balanced(s1) && Balanced(s2) && Balanced(s3)
    case Clear(_, u1, u2) => Balanced(u1) && Balanced(u2)
  }

  /** What statements do to one line when nothing comes between their steps. */
  function AtOnce(p: Prog, j: Level, s: LineState): (s': LineState)
    requires s.Held? ==> s.depth > 0
    ensures s'.Held? == s.Held? && (s.Held? ==> s'.depth == s.depth)
    decreases p
  {
    match p
    case Nil => s
    case Seq(first, rest) => AtOnce(rest, j, StmtAtOnce(first, j, s))
  }

  function StmtAtOnce(st: Stmt, j: Level, s: LineState): (s': LineState)
    requires s.Held? ==> s.depth > 0
    ensures s'.Held? == s.Held? && (s.Held? ==> s'.depth == s.depth)
    decreases st
  {
    match st
    case Scope(irq, _, _, _, body, _, _, _) =>
      if irq == j then After(AtOnce(body, j, After(s, Op.Cli(irq))), Op.Sti(irq)) else AtOnce(body, j, s)
    case Clear(irq, _, _) => if irq == j then After(s, Op.Unmask(irq)) else s
  }

  // ----- Steps on lines

  /** With the same lines, both held exactly when masked, the port bits are the same. */
  lemma SameBits(m': Machine, m: Machine)
    requires Fits(m) && Fits(m') && SameLines(m', m)
    ensures m'.bits == m.bits && SameDepths(m', m)
    ensures forall j: Level | m.counts[j].depth > 0 :: m'.counts[j] == m.counts[j]
  {
    forall j: Level
      ensures m'.bits[j] == m.bits[j] && m'.counts[j].depth == m.counts[j].depth
    {
      assert Line(m', j) == Line(m, j);
    }
    forall j: Level | m.counts[j].depth > 0
      ensures m'.counts[j] == m.counts[j]
    {
      assert Line(m', j) == Line(m, j);
    }
  }

  /** A port read and written back, with nothing changed in between, changes one bit. */
  lemma WritesOneBit(m: Machine, irq: Level, port: seq<bool>, on: bool)
    requires port == ReadPort(m, irq)
    ensures Wrote(m, irq, port, on).bits == m.bits[irq := on]
  {
  }

  /** While a mask is made, lines change only in the end, and then as if it were done at once. */
  lemma CliInSteps(m: Machine, st: Stmt, a: Machine, b: Machine, c: Machine, d: Machine)
    requires st.Scope? && Fits(m) && Fits(a) && SameLines(a, m)
    requires b == Wrote(a, st.irq, ReadPort(m, st.irq), true)
    requires Fits(c) && SameLines(c, b) && Fits(d) && SameLines(d, c)
    ensures Fits(b)
    ensures var e := Raised(d, st.irq, c.counts[st.irq], ReadPort(m, st.irq)[st.irq - PortStart(st.irq)]);
            && Fits(e) && Line(e, st.irq) == After(Line(m, st.irq), Op.Cli(st.irq))
            && forall j: Level | j != st.irq :: Line(e, j) == Line(m, j)
  {
    var irq := st.irq;
    SameBits(a, m);
    assert ReadPort(a, irq) == ReadPort(m, irq);
    WritesOneBit(a, irq, ReadPort(m, irq), true);
    assert b.bits == m.bits[irq := true];
    assert Fits(b);
    SameBits(c, b);
    SameBits(d, c);
    assert ReadPort(m, irq)[irq - PortStart(irq)] == m.bits[irq];
    forall j: Level
      ensures b.counts[j].depth == m.counts[j].depth && (m.counts[j].depth > 0 ==> d.counts[j] == m.counts[j])
    {
      assert Line(a, j) == Line(m, j);
    }
  }

  lemma StiInSteps(m: Machine, st: Stmt, a: Machine, i: Machine, k: Machine)
    requires st.Scope? && Fits(m) && m.counts[st.irq].depth > 0 && Fits(a) && SameLines(a, m)
    requires SameLines(i, Lowered(a, st.irq, m.counts[st.irq])) && SameLines(k, i)
    requires Fits(Lowered(a, st.irq, m.counts[st.irq])) ==> Fits(i) && Fits(k)
    ensures var h := Lowered(a, st.irq, m.counts[st.irq]);
            var e := if h.counts[st.irq] == Counter(0, false) then Wrote(k, st.irq, ReadPort(i, st.irq), false) else i;
            && Fits(h) && Fits(e) && Line(e, st.irq) == After(Line(m, st.irq), Op.Sti(st.irq))
            && forall j: Level | j != st.irq :: Line(e, j) == Line(m, j)
  {
    var irq := st.irq;
    var h := Lowered(a, irq, m.counts[irq]);
    SameBits(a, m);
    assert h.bits == m.bits && Fits(h);
    SameBits(i, h);
    SameBits(k, i);
    WritesOneBit(k, irq, ReadPort(i, irq), false);
    forall j: Level | j != irq
      ensures Line(h, j) == Line(m, j)
    {
      assert Line(a, j) == Line(m, j);
    }
  }

  lemma ClearInSteps(m: Machine, irq: Level, a: Machine, b: Machine)
    requires Fits(m) && Fits(a) && SameLines(a, m) && Fits(b) && SameLines(b, a)
    ensures var e := if m.counts[irq].depth > 0 then Count(a, irq, Counter(m.counts[irq].depth, false))
                     else Wrote(b, irq, ReadPort(a, irq), false);
            && Fits(e) && Line(e, irq) == After(Line(m, irq), Op.Unmask(irq))
            && forall j: Level | j != irq :: Line(e, j) == Line(m, j)
  {
    SameBits(a, m);
    SameBits(b, a);
    WritesOneBit(b, irq, ReadPort(a, irq), false);
  }

  // ----- Handlers that unmask nothing are harmless

  lemma {:induction false} BalancedIsGapsBalanced(p: Prog)
    requires Balanced(p)
    ensures GapsBalanced(p)
    decreases p
  {
    if p.Seq? {
      BalancedIsGapsBalanced(p.first.body);
      BalancedIsGapsBalanced(p.rest);
    }
  }

  lemma {:induction false} BalancedChangesNothing(p: Prog, j: Level, s: LineState)
    requires Balanced(p) && (s.Held? ==> s.depth > 0)
    ensures AtOnce(p, j, s) == s
    decreases p
  {
    if p.Seq? {
      var inner := if p.first.irq == j then After(s, Op.Cli(j)) else s;
      BalancedChangesNothing(p.first.body, j, inner);
      BalancedChangesNothing(p.rest, j, s);
    }
  }

  lemma {:induction false} BalancedIsHarmless(m: Machine, p: Prog)
    requires Balanced(p) && Fits(m)
    ensures var m' := Run(m, p); Fits(m') && SameLines(m', m)
    decreases p, 1
  {
    BalancedIsGapsBalanced(p);
    GapsAreHarmless(m, p);
    forall j: Level
      ensures Line(Run(m, p), j) == Line(m, j)
    {
      BalancedChangesNothing(p, j, Line(m, j));
    }
  }

  /** Whatever runs in the gaps, as long as it unmasks nothing there, every line comes out as if each statement were
      carried out at once, and a line that is held is masked. */
  lemma {:induction false} GapsAreHarmless(m: Machine, p: Prog)
    requires GapsBalanced(p) && Fits(m)
    ensures var m' := Run(m, p); Fits(m') && forall j: Level :: Line(m', j) == AtOnce(p, j, Line(m, j))
    decreases p, 0
  {
    if p.Seq? {
      var m' := RunStmt(m, p.first);
      StmtGapsAreHarmless(m, p.first);
      GapsAreHarmless(m', p.rest);
    }
  }

  lemma {:induction false} CliGapsAreHarmless(m: Machine, st: Stmt)
    requires st.Scope? && StmtGapsBalanced(st) && Fits(m)
    ensures var e := Cli(m, st);
            && Fits(e) && Line(e, st.irq) == After(Line(m, st.irq), Op.Cli(st.irq))
            && forall j: Level | j != st.irq :: Line(e, j) == Line(m, j)
    decreases st, 0
  {
    var a := Run(m, st.c1);
    BalancedIsHarmless(m, st.c1);
    var b := Wrote(a, st.irq, ReadPort(m, st.irq), true);
    CliInSteps(m, st, a, b, b, b);
    BalancedIsHarmless(b, st.c2);
    var c := Run(b, st.c2);
    BalancedIsHarmless(c, st.c3);
    CliInSteps(m, st, a, b, c, Run(c, st.c3));
  }

  lemma {:induction false} StiGapsAreHarmless(m: Machine, st: Stmt)
    requires st.Scope? && StmtGapsBalanced(st) && Fits(m) && m.counts[st.irq].depth > 0
    ensures var e := Sti(m, st);
            && Fits(e) && Line(e, st.irq) == After(Line(m, st.irq), Op.Sti(st.irq))
            && forall j: Level | j != st.irq :: Line(e, j) == Line(m, j)
    decreases st, 0
  {
    var a := Run(m, st.s1);
    BalancedIsHarmless(m, st.s1);
    var h := Lowered(a, st.irq, m.counts[st.irq]);
    StiInSteps(m, st, a, h, h);
    BalancedIsHarmless(h, st.s2);
    var i := Run(h, st.s2);
    BalancedIsHarmless(i, st.s3);
    StiInSteps(m, st, a, i, Run(i, st.s3));
  }

  lemma {:induction false} StmtGapsAreHarmless(m: Machine, st: Stmt)
    requires StmtGapsBalanced(st) && Fits(m)
    ensures var m' := RunStmt(m, st); Fits(m') && forall j: Level :: Line(m', j) == StmtAtOnce(st, j, Line(m, j))
    decreases st
  {
    match st {
      case Scope(irq, _, _, _, body, _, _, _) =>
        var e := Cli(m, st);
        CliGapsAreHarmless(m, st);
        var f := Run(e, body);
        GapsAreHarmless(e, body);
        StiGapsAreHarmless(f, st);
      case Clear(irq, u1, u2) =>
        BalancedIsHarmless(m, u1);
        BalancedIsHarmless(Run(m, u1), u2);
        ClearInSteps(m, irq, Run(m, u1), Run(Run(m, u1), u2));
    }
  }

  // ----- Handlers that unmask a line in a gap are not

  /** A line `irq` being masked, with `j` unmasked by a handler in one of the three gaps. */
  function Interrupted(irq: Level, j: Level, gap: nat): Stmt
  {
    var clear := Seq(Clear(j, Nil, Nil), Nil);
    Scope(irq, if gap == 1 then clear else Nil, if gap == 2 then clear else Nil, if gap == 3 then clear else Nil,
          Nil, Nil, Nil, Nil)
  }

  /** What masking `irq` and unmasking `j` come to at once, in either order. */
  function Both(m: Machine, irq: Level, j: Level, k: Level): LineState
  {
    var s := if k == j then After(Line(m, k), Op.Unmask(j)) else Line(m, k);
    if k == irq then After(s, Op.Cli(irq)) else s
  }

  lemma EitherOrder(m: Machine, irq: Level, j: Level, k: Level)
    ensures Both(m, irq, j, k) ==
            (var s := if k == irq then After(Line(m, k), Op.Cli(irq)) else Line(m, k);
             if k == j then After(s, Op.Unmask(j)) else s)
  {
  }

  /** The outcome is as if done at once, and lines that are held are masked. */
  ghost predicate AsAtOnce(m': Machine, m: Machine, irq: Level, j: Level)
  {
    Fits(m') && forall k: Level :: Line(m', k) == Both(m, irq, j, k)
  }

  function Cleared(m: Machine, j: Level): Machine
  {
    if m.counts[j].depth > 0 then Count(m, j, Counter(m.counts[j].depth, false)) else m.(bits := m.bits[j := false])
  }

  lemma RunsClear(m: Machine, j: Level)
    ensures Run(m, Seq(Clear(j, Nil, Nil), Nil)) == Cleared(m, j)
  {
    WritesOneBit(m, j, ReadPort(m, j), false);
    var st := Clear(j, Nil, Nil);
    assert RunStmt(m, st) == Cleared(m, j);
    assert Run(RunStmt(m, st), Nil) == RunStmt(m, st);
  }

  lemma WritesStaleBits(m: Machine, a: Machine, irq: Level)
    ensures var b := Wrote(a, irq, ReadPort(m, irq), true);
            forall k: Level :: b.bits[k] ==
              if k == irq then true else if PortStart(k) == PortStart(irq) then m.bits[k] else a.bits[k]
  {
  }

  lemma FirstGapOutcome(m: Machine, irq: Level, j: Level)
    ensures var (e, a) := (Cli(m, Interrupted(irq, j, 1)), Cleared(m, j));
            && (forall k: Level :: e.bits[k] ==
                  if k == irq then true else if PortStart(k) == PortStart(irq) then m.bits[k] else a.bits[k])
            && e.counts == Raised(a, irq, a.counts[irq], m.bits[irq]).counts
  {
    RunsClear(m, j);
    var a := Cleared(m, j);
    var b := Wrote(a, irq, ReadPort(m, irq), true);
    WritesStaleBits(m, a, irq);
    assert ReadPort(m, irq)[irq - PortStart(irq)] == m.bits[irq];
    assert Cli(m, Interrupted(irq, j, 1)) == Raised(b, irq, b.counts[irq], m.bits[irq]);
  }

  /** Between reading the port and writing it, the unmasking is lost exactly when the line is idle, masked and on
      the same port. */
  lemma FirstGapExactly(m: Machine, irq: Level, j: Level)
    requires Fits(m)
    ensures AsAtOnce(Cli(m, Interrupted(irq, j, 1)), m, irq, j) <==>
            !(PortStart(j) == PortStart(irq) && Line(m, j) == Idle(true))
  {
    var (e, a) := (Cli(m, Interrupted(irq, j, 1)), Cleared(m, j));
    FirstGapOutcome(m, irq, j);
    if PortStart(j) == PortStart(irq) && Line(m, j) == Idle(true) {
      assert Line(e, j) != Both(m, irq, j, j);
    } else {
      FirstGapElsewhere(m, e, irq, j);
    }
  }

  lemma FirstGapElsewhere(m: Machine, e: Machine, irq: Level, j: Level)
    requires Fits(m) && !(PortStart(j) == PortStart(irq) && Line(m, j) == Idle(true))
    requires forall k: Level :: e.bits[k] == if k == irq then true else
               if PortStart(k) == PortStart(irq) then m.bits[k] else Cleared(m, j).bits[k]
    requires e.counts == Raised(Cleared(m, j), irq, Cleared(m, j).counts[irq], m.bits[irq]).counts
    ensures AsAtOnce(e, m, irq, j)
  {
    forall k: Level
      ensures Line(e, k) == Both(m, irq, j, k) && (e.counts[k].depth > 0 ==> e.bits[k])
    {
    }
  }

  /** After the port is written. */
  function Written(m: Machine, irq: Level): Machine
  {
    m.(bits := m.bits[irq := true])
  }

  lemma LaterGapOutcomes(m: Machine, irq: Level, j: Level)
    ensures var c := Cleared(Written(m, irq), j);
            && Cli(m, Interrupted(irq, j, 2)) == Raised(c, irq, c.counts[irq], m.bits[irq])
            && Cli(m, Interrupted(irq, j, 3)) == Raised(c, irq, m.counts[irq], m.bits[irq])
  {
    WritesOneBit(m, irq, ReadPort(m, irq), true);
    assert Wrote(m, irq, ReadPort(m, irq), true) == Written(m, irq);
    RunsClear(Written(m, irq), j);
    assert ReadPort(m, irq)[irq - PortStart(irq)] == m.bits[irq];
  }

  /** Between writing the port and loading the counter, it goes wrong exactly when the line is the one being masked,
      and nobody held it: then it ends up held, but not masked. */
  lemma SecondGapExactly(m: Machine, irq: Level, j: Level)
    requires Fits(m)
    ensures AsAtOnce(Cli(m, Interrupted(irq, j, 2)), m, irq, j) <==> !(j == irq && Line(m, irq).Idle?)
    ensures j == irq && Line(m, irq).Idle? ==> !Fits(Cli(m, Interrupted(irq, j, 2)))
  {
    var e := Cli(m, Interrupted(irq, j, 2));
    LaterGapOutcomes(m, irq, j);
    if j == irq && Line(m, irq).Idle? {
      assert !e.bits[irq] && e.counts[irq].depth > 0;
    } else {
      SecondGapElsewhere(m, e, irq, j);
    }
  }

  lemma SecondGapElsewhere(m: Machine, e: Machine, irq: Level, j: Level)
    requires Fits(m) && !(j == irq && Line(m, irq).Idle?)
    requires var c := Cleared(Written(m, irq), j); e == Raised(c, irq, c.counts[irq], m.bits[irq])
    ensures AsAtOnce(e, m, irq, j)
  {
    forall k: Level
      ensures Line(e, k) == Both(m, irq, j, k) && (e.counts[k].depth > 0 ==> e.bits[k])
    {
    }
  }

  /** Between loading the counter and storing it, it goes wrong exactly when the line is the one being masked, and
      nobody held it or it is to return to being masked. */
  lemma ThirdGapExactly(m: Machine, irq: Level, j: Level)
    requires Fits(m)
    ensures AsAtOnce(Cli(m, Interrupted(irq, j, 3)), m, irq, j) <==>
            !(j == irq && (Line(m, irq).Idle? || Line(m, irq).saved))
  {
    var e := Cli(m, Interrupted(irq, j, 3));
    LaterGapOutcomes(m, irq, j);
    if j == irq && Line(m, irq).Idle? {
      assert !e.bits[irq] && e.counts[irq].depth > 0;
    } else if j == irq && Line(m, irq).saved {
      assert Line(e, irq) != Both(m, irq, j, irq);
    } else {
      ThirdGapElsewhere(m, e, irq, j);
    }
  }

  lemma ThirdGapElsewhere(m: Machine, e: Machine, irq: Level, j: Level)
    requires Fits(m) && !(j == irq && (Line(m, irq).Idle? || Line(m, irq).saved))
    requires e == Raised(Cleared(Written(m, irq), j), irq, m.counts[irq], m.bits[irq])
    ensures AsAtOnce(e, m, irq, j)
  {
    forall k: Level
      ensures Line(e, k) == Both(m, irq, j, k) && (e.counts[k].depth > 0 ==> e.bits[k])
    {
    }
  }
}
