/** Servicing interrupts: the stack of interrupt frames, the handlers that run on it, and the commands sent to the
    interrupt controller. What an interrupt amounts to is what `IrqNesting` says on values. */
module IrqService {
  import opened Basics
  import opened IrqLists
  import opened IrqNesting

  class Frame {
    const id: nat
    const irq: Level
    const next: Frame?
    var acknowledged: Ack
    var globals: int

    constructor (id: nat, irq: Level, next: Frame?)
      ensures this.id == id && this.irq == irq && this.next == next && acknowledged == NotYet
    {
      this.id, this.irq, this.next := id, irq, next;
      acknowledged, globals := NotYet, 0;
    }
  }

  class Kernel {
    var current: Frame
    var idCount: nat
    var interruptCount: nat
    var globals: int
    var interrupts: bool
    var lineFlags: LineFlags
    var masks: Depths
    // The interrupt controller: what it has in service, and what it was sent.
    var inService: set<Level>
    var eois: multiset<Eoi>
    // One record for each service begun, by id.
    ghost var records: seq<Record>

    constructor (lineFlags: LineFlags)
      ensures idCount == 0 && interruptCount == 0
      ensures View() == World(lineFlags, seq(UNASSIGNED, _ => 0), true, 0, {}, [], multiset{})
    {
      current := new Frame(0, 0, null);
      idCount, interruptCount, globals, interrupts := 0, 0, 0, true;
      this.lineFlags, masks, inService := lineFlags, seq(UNASSIGNED, _ => 0), {};
      eois, records := multiset{}, [];
    }

    ghost function View(): World
      reads this
    {
      World(lineFlags, masks, interrupts, globals, inService, records, eois)
    }

    /** The frame is that of a service on record, in the state that its record tells. */
    ghost predicate Attached(f: Frame)
      reads this, f`acknowledged
    {
      f.id < |records| && records[f.id].irq == f.irq && f.acknowledged == AckOf(records[f.id])
    }

    method SendEoi(id: nat, irq: Level)
      requires id < |records| && records[id].irq == irq
      modifies `inService, `eois
      ensures View() == Answered(old(View()), id)
    {
      inService := inService - {irq};
      eois := eois + multiset{Eoi(irq, id)};
    }

    /** A handler acknowledges the interrupt it runs in: the first time, and unless the line defers it, this sends
        the end of interrupt. */
    method DoAcknowledge()
      requires Attached(current)
      modifies `inService, `eois, `records, current`acknowledged
      ensures Attached(current) && View() == AfterAck(old(View()), current.id)
    {
      if !Deferred(lineFlags[current.irq]) && current.acknowledged == NotYet {
        SendEoi(current.id, current.irq);
      }
      ghost var r := records[current.id];
      if r.firstAck.None? {
        records := records[current.id := r.(firstAck := Some(lineFlags[current.irq]))];
      }
      current.acknowledged := Acknowledged;
    }

    /** Whether the interrupt controller and the processor let an interrupt through. */
    method CanDeliver(irq: Level) returns (r: bool)
      ensures r == Deliverable(View(), irq)
    {
      r := interrupts && masks[irq] == 0 && forall j | j in inService :: Rank(irq) < Rank(j);
    }

    method Do(act: Act, ghost w: World)
      requires idCount == |records| && Attached(current) && View() == w
      modifies this, current
      ensures idCount == |records| && current == old(current) && Attached(current)
      ensures interruptCount == old(interruptCount) && View() == AfterAct(w, current.id, act)
      decreases act, 1
    {
      match act {
        case Acknowledge => DoAcknowledge();
        case SetFlags(line, flags) => lineFlags := lineFlags[line := flags];
        case SetGlobals(g) => globals := g;
        case SetInterrupts(on) => interrupts := on;
        case Nested(s) =>
          var can := CanDeliver(s.irq);
          if can {
            HandleIrq(s, w);
            ServiceKeepsRecords(w, s);
          }
      }
    }

    /** What the handlers of the current interrupt do, one thing after another. */
    method Perform(acts: Acts, ghost w: World)
      requires idCount == |records| && Attached(current) && View() == w
      modifies this, current
      ensures idCount == |records| && current == old(current) && Attached(current)
      ensures interruptCount == old(interruptCount) && View() == AfterActs(w, current.id, acts)
      decreases acts, 0
    {
      if acts.Then? {
        Do(acts.act, w);
        Perform(acts.rest, AfterAct(w, current.id, acts.act));
      }
    }

    /** The handlers of a line, and its fallback handler if none of them acknowledged. */
    method RunHandlers(s: Service, flags: set<ConfigFlag>, ghost w: World)
      requires idCount == |records| && Attached(current) && View() == w && flags == w.records[current.id].captured
      modifies this, current
      ensures idCount == |records| && current == old(current) && Attached(current)
      ensures interruptCount == old(interruptCount) && View() == AfterHandlers(w, current.id, s)
      decreases s, 0
    {
      Perform(s.chain, w);
      if Fallback in flags && current.acknowledged != Acknowledged {
        Perform(s.fallback, AfterActs(w, current.id, s.chain));
      }
    }

    /** Push a frame, and put the globals aside in the one below. */
    method Push(irq: Level)
      requires idCount == |records|
      modifies `current, `idCount, `interruptCount, `globals, `inService, `records, current`globals
      ensures idCount == |records| && fresh(current) && current.next == old(current) && current.acknowledged == NotYet
      ensures current.id == |old(records)| && current.irq == irq && old(current).globals == old(globals) && globals == 0
      ensures interruptCount == old(interruptCount) + 1
      ensures records == old(records) + [Record(irq, lineFlags[irq], None)] && inService == old(inService) + {irq}
    {
      var id := new Frame(idCount, irq, current);
      idCount, interruptCount := idCount + 1, interruptCount + 1;
      current.globals := globals;
      globals := 0;
      current := id;
      inService := inService + {irq};
      records := records + [Record(irq, lineFlags[irq], None)];
    }

    /** Entering an interrupt: push a frame, answer at once if the line's flags allow it, and set the interrupt flag
        and the line's mask as they ask. */
    method Enter(irq: Level)
      requires idCount == |records|
      modifies `current, `idCount, `interruptCount, `globals, `interrupts, `masks, `inService, `eois, `records
      modifies current`globals
      ensures idCount == |records| && fresh(current) && Attached(current) && current.next == old(current)
      ensures current.id == |old(records)| && old(current).globals == old(globals)
      ensures interruptCount == old(interruptCount) + 1 && View() == Begun(old(View()), irq)
    {
      var flags := lineFlags[irq];
      Push(irq);
      if !Deferred(flags) && NoAutoEoi !in flags {
        SendEoi(current.id, irq);
        current.acknowledged := EoiSent;
      }
      interrupts := NoInterrupts !in flags;
      if NoInterrupts in flags && NoReentry in flags {
        masks := masks[irq := masks[irq] + 1];
      }
    }

    /** After the handlers: lift the mask, and then chain to the previous handler, which answers, or answer late, if
        anything is still owed. */
    method Conclude(flags: set<ConfigFlag>)
      requires Attached(current) && records[current.id].captured == flags
      requires Masking(flags) ==> masks[current.irq] > 0
      modifies `masks, `inService, `eois, current`acknowledged
      ensures View() == Concluded(Unmasked(old(View()), current.irq, flags), current.id)
    {
      if NoInterrupts in flags && NoReentry in flags {
        masks := masks[current.irq := masks[current.irq] - 1];
      }
      if AlwaysChain in flags || current.acknowledged == NotYet {
        SendEoi(current.id, current.irq);
        current.acknowledged := EoiSent;
      } else if LateEoi in flags {
        SendEoi(current.id, current.irq);
      }
    }

    /** Service one interrupt, up to leaving it. */
    method Serve(s: Service, ghost w: World)
      requires idCount == |records| && View() == w
      modifies this, current`globals
      ensures idCount == |records| && fresh(current) && current.next == old(current)
      ensures interruptCount == old(interruptCount) + 1 && old(current).globals == old(globals)
      ensures View().(on := w.on, globals := w.globals) == AfterService(w, s)
      decreases s, 1
    {
      var flags := lineFlags[s.irq];
      Enter(s.irq);
      RunHandlers(s, flags, Begun(w, s.irq));
      HandlersKeepRecords(Begun(w, s.irq), |w.records|, s);
      Conclude(flags);
    }

    /** Service one interrupt, with whatever happens in between: in the end the stack of frames and the count are
        what they were, and everything else is as the tree of services says. */
    method HandleIrq(s: Service, ghost w: World)
      requires idCount == |records| && View() == w
      modifies this, current`globals
      ensures idCount == |records| && current == old(current) && interruptCount == old(interruptCount)
      ensures View() == AfterService(w, s)
      ensures globals == old(globals) && interrupts == old(interrupts)
      decreases s, 2
    {
      var below := current;
      var on := interrupts;
      Serve(s, w);
      current := below;
      globals := current.globals;
      interruptCount := interruptCount - 1;
      interrupts := on;
    }
  }
}
