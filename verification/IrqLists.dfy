/** The handlers assigned to each IRQ line: doubly linked lists, aggregated flags, and the hooked interrupt vector. */
module IrqLists {
  import opened Basics

  datatype ConfigFlag = AlwaysChain | NoAutoEoi | LateEoi | NoReentry | NoInterrupts | Fallback

  const UNASSIGNED: nat := 16

  class Handler {
    const flags: set<ConfigFlag>
    var irq: nat
    var enabled: bool
    var next: Handler?
    var prev: Handler?

    constructor (flags: set<ConfigFlag>)
      ensures this.flags == flags && irq == UNASSIGNED && !enabled && next == null && prev == null
    {
      this.flags := flags;
      irq, enabled, next, prev := UNASSIGNED, false, null, null;
    }
  }

  /** Whether the list is linked in both directions between its two ends. */
  ghost predicate LinkedBothWays(list: seq<Handler>, first: Handler?, last: Handler?)
    reads list`next, list`prev
  {
    && first == (if list == [] then null else list[0])
    && last == Preceding(list, |list|, null)
    && (forall k: nat {:trigger list[k].next} | k < |list| :: list[k].next == Following(list, k, null))
    && (forall k: nat {:trigger list[k].prev} | k < |list| :: list[k].prev == Preceding(list, k, null))
  }

  /** Whether a flag is set by some enabled handler of the list. */
  ghost predicate Wanted(list: seq<Handler>, f: ConfigFlag)
    reads list`enabled
  {
    exists k | 0 <= k < |list| :: list[k].enabled && f in list[k].flags
  }

  ghost function Enabled(list: seq<Handler>): seq<Handler>
    reads list`enabled
  {
    if list == [] then [] else (if list[0].enabled then [list[0]] else []) + Enabled(list[1..])
  }

  /** Exactly the enabled ones, in the order of the list. */
  lemma {:induction false} EnabledInOrder(list: seq<Handler>, k: nat)
    requires k < |list|
    ensures list[k].enabled ==>
              |Enabled(list[..k])| < |Enabled(list)| && Enabled(list)[|Enabled(list[..k])|] == list[k]
    ensures forall h | h in Enabled(list) :: h.enabled && h in list
  {
    EnabledInParts(list[..k], list[k..]);
    assert list[..k] + list[k..] == list;
    EnabledAreThere(list);
  }

  lemma {:induction false} EnabledInParts(a: seq<Handler>, b: seq<Handler>)
    ensures Enabled(a + b) == Enabled(a) + Enabled(b)
  {
    if a == [] {
      assert a + b == b;
    } else {
      EnabledInParts(a[1..], b);
      assert (a + b)[0] == a[0] && (a + b)[1..] == a[1..] + b;
    }
  }

  lemma {:induction false} EnabledAreThere(list: seq<Handler>)
    ensures forall h | h in Enabled(list) :: h.enabled && h in list
  {
    if list != [] {
      EnabledAreThere(list[1..]);
    }
  }

  /** One IRQ line. */
  class Line {
    const irq: nat
    var first: Handler?
    var last: Handler?
    var flags: set<ConfigFlag>
    // The handlers assigned to this line, in order of assignment.
    ghost var list: seq<Handler>

    constructor (irq: nat)
      ensures this.irq == irq && list == [] && first == null && last == null && flags == {}
    {
      this.irq := irq;
      first, last, flags, list := null, null, {}, [];
    }

    ghost predicate Valid()
      reads this, list
    {
      && LinkedBothWays(list, first, last)
      && (forall j, k | 0 <= j < k < |list| :: list[j] != list[k])
      && (forall k | 0 <= k < |list| :: list[k].irq == irq)
      && (forall f: ConfigFlag :: f in flags <==> Wanted(list, f))
    }

    /** Link an unassigned, disabled handler at the end. */
    method Append(p: Handler)
      requires Valid() && p !in list && p.irq == UNASSIGNED != irq && !p.enabled && p.next == null
      modifies `first, `last, `list, p`irq, p`prev, list`next
      ensures Valid() && list == old(list) + [p] && p.irq == irq
    {
      p.irq := irq;
      if first == null {
        first := p;
      }
      if last != null {
        last.next := p;
      }
      p.prev := last;
      last := p;
      list := list + [p];
      assert forall k: nat | k < |old(list)| :: list[k] == old(list)[k];
      assert forall f :: Wanted(list, f) <==> old(Wanted(list, f));
    }

    /** Bridge the gap around a handler: its neighbours, and the ends of the list, now pass it by. */
    method Bypass(p: Handler, ghost k: nat)
      requires LinkedBothWays(list, first, last) && k < |list| && list[k] == p
      requires forall i, j | 0 <= i < j < |list| :: list[i] != list[j]
      modifies `first, `last, list`next, list`prev
      ensures first == (if k == 0 then Following(list, k, null) else list[0])
      ensures last == (if k == |list| - 1 then Preceding(list, k, null) else list[|list| - 1])
      ensures forall o: nat {:trigger list[o].next} | o < |list| ::
                list[o].next == if o + 1 == k then Following(list, k, null) else Following(list, o, null)
      ensures forall o: nat {:trigger list[o].prev} | o < |list| ::
                list[o].prev == if o == k + 1 then Preceding(list, k, null) else Preceding(list, o, null)
    {
      if first == p {
        first := p.next;
      }
      if last == p {
        last := p.prev;
      }
      if p.prev != null {
        p.prev.next := p.next;
      }
      if p.next != null {
        p.next.prev := p.prev;
      }
    }

    /** Unlink a disabled handler from wherever it is. */
    method Unlink(p: Handler, ghost k: nat)
      requires Valid() && k < |list| && list[k] == p && !p.enabled && irq < UNASSIGNED
      modifies `first, `last, `list, p`irq, list`next, list`prev
      ensures Valid() && list == Without(old(list), k)
      ensures p.irq == UNASSIGNED && p.next == null && p.prev == null
    {
      ghost var rest := Without(list, k);
      DisabledIsNotWanted(list, k);
      assert p !in rest;
      Bypass(p, k);
      WithoutIsLinked(list, k, first, last);
      p.prev, p.next := null, null;
      p.irq := UNASSIGNED;
      list := rest;
    }

    /** Enabling adds the handler's flags to the line's. */
    method Enable(p: Handler, ghost k: nat)
      requires Valid() && k < |list| && list[k] == p
      modifies `flags, p`enabled
      ensures Valid() && p.enabled
    {
      p.enabled := true;
      flags := flags + p.flags;
      assert forall f | f in p.flags :: list[k].enabled && f in list[k].flags;
    }

    /** Disabling collects the line's flags anew from the handlers that remain enabled. */
    method Disable(p: Handler)
      requires Valid() && p in list
      modifies `flags, p`enabled
      ensures Valid() && !p.enabled
    {
      p.enabled := false;
      flags := {};
      var i := first;
      ghost var k := 0;
      while i != null
        invariant k <= |list| && i == if k < |list| then list[k] else null
        invariant forall f :: f in flags <==> Wanted(list[..k], f)
        modifies `flags
        decreases |list| - k
      {
        if i.enabled {
          flags := flags + i.flags;
        }
        WantedInOneMore(list, k);
        i := i.next;
        k := k + 1;
      }
      assert list[..k] == list;
    }

    /** Call the handler at position `k` and those after it: each runs if enabled, then calls the next. */
    method Call(h: Handler, ghost k: nat) returns (called: seq<Handler>)
      requires Valid() && k < |list| && list[k] == h
      ensures called == Enabled(list[k..])
      decreases |list| - k
    {
      called := if h.enabled then [h] else [];
      if h.next != null {
        var rest := Call(h.next, k + 1);
        called := called + rest;
      }
    }
  }

  lemma WithoutIsLinked(list: seq<Handler>, k: nat, first: Handler?, last: Handler?)
    requires k < |list|
    requires first == (if k == 0 then Following(list, k, null) else list[0])
    requires last == (if k == |list| - 1 then Preceding(list, k, null) else list[|list| - 1])
    requires forall o: nat {:trigger list[o].next} | o < |list| ::
               list[o].next == if o + 1 == k then Following(list, k, null) else Following(list, o, null)
    requires forall o: nat {:trigger list[o].prev} | o < |list| ::
               list[o].prev == if o == k + 1 then Preceding(list, k, null) else Preceding(list, o, null)
    ensures LinkedBothWays(Without(list, k), first, last)
  {
  }

  lemma WantedInOneMore(list: seq<Handler>, k: nat)
    requires k < |list|
    ensures forall f :: Wanted(list[..k + 1], f) <==>
                        Wanted(list[..k], f) || (list[k].enabled && f in list[k].flags)
  {
    forall f
      ensures Wanted(list[..k + 1], f) <==> Wanted(list[..k], f) || (list[k].enabled && f in list[k].flags)
    {
      var (less, more) := (list[..k], list[..k + 1]);
      if j :| 0 <= j < k && less[j].enabled && f in less[j].flags {
        assert more[j].enabled;
      }
      if list[k].enabled && f in list[k].flags {
        assert more[k].enabled;
      }
      if j :| 0 <= j < k + 1 && more[j].enabled && f in more[j].flags {
        assert j < k ==> less[j].enabled;
      }
    }
  }

  lemma DisabledIsNotWanted(list: seq<Handler>, k: nat)
    requires k < |list| && !list[k].enabled
    ensures forall f :: Wanted(Without(list, k), f) <==> Wanted(list, f)
  {
    forall f | Wanted(list, f)
      ensures Wanted(Without(list, k), f)
    {
      var j :| 0 <= j < |list| && list[j].enabled && f in list[j].flags;
      assert Without(list, k)[if j < k then j else j - 1] == list[j];
    }
  }

  datatype Vector = Host(id: nat) | Trampoline(irq: nat)

  type Bits = s: seq<bool> | |s| == UNASSIGNED witness seq(UNASSIGNED, _ => false)
  type Vectors = s: seq<Vector> | |s| == UNASSIGNED witness seq(UNASSIGNED, _ => Host(0))

  /** A vector is hooked exactly when its line is in use, and is otherwise what it was originally; the line data
      exists as long as any line is in use. */
  ghost predicate VectorsFit(present: bool, inUse: Bits, previous: Vectors, vectors: Vectors, original: Vectors)
  {
    && (forall i | 0 <= i < UNASSIGNED :: vectors[i] == if inUse[i] then Trampoline(i) else original[i])
    && (forall i | 0 <= i < UNASSIGNED && inUse[i] :: previous[i] == original[i])
    && (present <==> exists i | 0 <= i < UNASSIGNED :: inUse[i])
  }

  /** All lines, and the interrupt vectors they hook. */
  class IrqTable {
    const lines: seq<Line>
    // Whether the line data exists, which lines are in use, and what a line's vector was before it was hooked.
    var present: bool
    var inUse: Bits
    var previous: Vectors
    var vectors: Vectors
    ghost const original: Vectors

    constructor (vectors: Vectors)
      ensures Valid({}) && original == this.vectors == vectors
      ensures forall i | 0 <= i < UNASSIGNED :: fresh(lines[i])
    {
      var all: seq<Line> := [];
      for i := 0 to UNASSIGNED
        invariant |all| == i
        invariant forall k | 0 <= k < i :: fresh(all[k]) && all[k].irq == k && all[k].list == [] && all[k].Valid()
      {
        var line := new Line(i);
        all := all + [line];
      }
      lines := all;
      present, inUse := false, seq(UNASSIGNED, _ => false);
      previous, this.vectors, original := vectors, vectors, vectors;
    }

    ghost predicate Shape()
    {
      |lines| == UNASSIGNED && forall i | 0 <= i < UNASSIGNED :: lines[i].irq == i
    }

    /** A line is in use exactly when it has handlers. */
    ghost predicate Hooked()
      requires Shape()
      reads `present, `inUse, `previous, `vectors, lines`list
    {
      && (forall i | 0 <= i < UNASSIGNED :: inUse[i] <==> lines[i].list != [])
      && VectorsFit(present, inUse, previous, vectors, original)
    }

    /** Every line is valid. Handlers are on the list of the line they name, and on no other; an unassigned one is
        disabled and unlinked. */
    ghost predicate Filed(handlers: set<Handler>)
      requires Shape()
      reads lines, handlers
    {
      && (forall i, h | 0 <= i < UNASSIGNED && h in lines[i].list :: h in handlers)
      && (forall i | 0 <= i < UNASSIGNED :: lines[i].Valid())
      && (forall h | h in handlers && h.irq < UNASSIGNED :: h in lines[h.irq].list)
      && (forall h | h in handlers && h.irq >= UNASSIGNED ::
            h.irq == UNASSIGNED && !h.enabled && h.next == null && h.prev == null)
    }

    ghost predicate Valid(handlers: set<Handler>)
      reads `present, `inUse, `previous, `vectors, lines, handlers
    {
      Shape() && Hooked() && Filed(handlers)
    }

    /** Returns the lines to unmask at the interrupt controller: the handler's own and, for one of the slave
        controller's, the line that cascades it. */
    method Enable(p: Handler, ghost handlers: set<Handler>) returns (unmask: seq<nat>)
      requires Valid(handlers) && p in handlers
      modifies lines`flags, p`enabled
      ensures Valid(handlers)
      ensures p.enabled == (old(p.enabled) || p.irq < UNASSIGNED)
      ensures unmask == if old(p.enabled) || p.irq >= UNASSIGNED then []
                        else if p.irq > 7 then [p.irq, 2] else [p.irq]
    {
      unmask := [];
      if !p.enabled && p.irq < UNASSIGNED {
        EnableAssigned(p, handlers);
        unmask := if p.irq > 7 then [p.irq, 2] else [p.irq];
      }
    }

    method EnableAssigned(p: Handler, ghost handlers: set<Handler>)
      requires Valid(handlers) && p in handlers && p.irq < UNASSIGNED
      modifies lines`flags, p`enabled
      ensures Valid(handlers) && p.enabled
    {
      var e := lines[p.irq];
      ghost var k :| 0 <= k < |e.list| && e.list[k] == p;
      e.Enable(p, k);
      assert forall i | 0 <= i < UNASSIGNED && i != p.irq :: p !in lines[i].list;
    }

    method Disable(p: Handler, ghost handlers: set<Handler>)
      requires Valid(handlers) && p in handlers
      modifies OwnLine(p)`flags, p`enabled
      ensures Valid(handlers) && !p.enabled
    {
      if !p.enabled {
        return;
      }
      lines[p.irq].Disable(p);
    }

    /** Unlink a handler from its line; all lines stay valid. */
    method UnlinkFrom(p: Handler, i: nat, ghost k: nat, ghost handlers: set<Handler>)
      requires Shape() && Filed(handlers) && i < UNASSIGNED && !p.enabled
      requires k < |lines[i].list| && lines[i].list[k] == p
      modifies lines[i], handlers`next, handlers`prev, p`irq
      ensures p.irq == UNASSIGNED && p.next == null && p.prev == null && lines[i].list == Without(old(lines[i].list), k)
      ensures forall j | 0 <= j < UNASSIGNED && j != i :: lines[j].list == old(lines[j].list)
      ensures forall j | 0 <= j < UNASSIGNED :: lines[j].Valid()
      ensures forall h | h in handlers && h != p && h.irq >= UNASSIGNED :: h.next == null && h.prev == null
    {
      forall j | 0 <= j < UNASSIGNED && j != i
        ensures lines[j] != lines[i] && forall h | h in lines[j].list :: h !in lines[i].list
      {
        OthersStay(i);
      }
      assert forall h | h in handlers && h.irq >= UNASSIGNED :: h !in lines[i].list;
      lines[i].Unlink(p, k);
      assert forall j | 0 <= j < UNASSIGNED && j != i :: lines[j].list == old(lines[j].list) && lines[j].Valid();
    }

    /** Unlink a handler from its line, leaving the vector as it is. */
    method UnlinkAssigned(p: Handler, ghost handlers: set<Handler>)
      requires Shape() && Filed(handlers) && p in handlers && p.irq < UNASSIGNED && !p.enabled
      modifies lines[p.irq], handlers`next, handlers`prev, p`irq
      ensures Filed(handlers) && p.irq == UNASSIGNED
      ensures exists k: nat | k < |old(lines[p.irq].list)| ::
                old(lines[p.irq].list)[k] == p && lines[old(p.irq)].list == Without(old(lines[p.irq].list), k)
      ensures forall j | 0 <= j < UNASSIGNED && j != old(p.irq) :: lines[j].list == old(lines[j].list)
    {
      var i := p.irq;
      ghost var list := lines[i].list;
      ghost var k :| 0 <= k < |list| && list[k] == p;
      WithoutKeepsOthers(list, k);
      UnlinkFrom(p, i, k, handlers);
      assert list[k] == p && lines[i].list == Without(list, k);
    }

    /** Lines are different objects. */
    lemma OthersStay(i: nat)
      requires Shape() && i < UNASSIGNED
      ensures forall j | 0 <= j < UNASSIGNED && j != i :: lines[j] != lines[i]
    {
    }

    /** Give back the vector of a line that has become empty, and the line data with the last of them. */
    method Unhook(i: nat)
      requires i < UNASSIGNED && inUse[i] && VectorsFit(present, inUse, previous, vectors, original)
      modifies `present, `inUse, `vectors
      ensures inUse == old(inUse)[i := false] && VectorsFit(present, inUse, previous, vectors, original)
    {
      vectors := vectors[i := previous[i]];
      inUse := inUse[i := false];
      present := exists k | 0 <= k < UNASSIGNED :: inUse[k];
    }

    /** Make sure that a line is in use. */
    method Hook(i: nat)
      requires i < UNASSIGNED && VectorsFit(present, inUse, previous, vectors, original)
      modifies `present, `inUse, `previous, `vectors
      ensures inUse == old(inUse)[i := true] && VectorsFit(present, inUse, previous, vectors, original)
    {
      present := true;
      if !inUse[i] {
        previous := previous[i := vectors[i]];
        vectors := vectors[i := Trampoline(i)];
        inUse := inUse[i := true];
      }
      assert inUse[i];
    }

    /** Take a disabled handler off its line. */
    method RemoveAssigned(p: Handler, ghost handlers: set<Handler>)
      requires Valid(handlers) && p in handlers && p.irq < UNASSIGNED && !p.enabled
      modifies `present, `inUse, `vectors, lines[p.irq], handlers`next, handlers`prev, p`irq
      ensures Valid(handlers) && p.irq == UNASSIGNED
      ensures exists k: nat | k < |old(lines[p.irq].list)| ::
                old(lines[p.irq].list)[k] == p && lines[old(p.irq)].list == Without(old(lines[p.irq].list), k)
    {
      var i := p.irq;
      UnlinkAssigned(p, handlers);
      if lines[i].first == null {
        Unhook(i);
      }
    }

    /** Take a handler off its line, if it has one. */
    method Remove(p: Handler, ghost handlers: set<Handler>)
      requires Valid(handlers) && p in handlers
      modifies `present, `inUse, `vectors, OwnLine(p), handlers`next, handlers`prev, p
      ensures Valid(handlers) && p.irq == UNASSIGNED && !p.enabled
      ensures old(p.irq) < UNASSIGNED ==> exists k: nat | k < |old(lines[p.irq].list)| ::
                old(lines[p.irq].list)[k] == p && lines[old(p.irq)].list == Without(old(lines[p.irq].list), k)
      ensures forall j | 0 <= j < UNASSIGNED && j != old(p.irq) :: lines[j].list == old(lines[j].list)
    {
      if p.irq < UNASSIGNED {
        OthersStay(p.irq);
        Disable(p, handlers);
        RemoveAssigned(p, handlers);
      }
    }

    method AppendUnassigned(p: Handler, i: nat, ghost handlers: set<Handler>)
      requires Shape() && Filed(handlers) && p in handlers && p.irq == UNASSIGNED && i < UNASSIGNED
      modifies lines[i], handlers`next, p`prev, p`irq
      ensures Filed(handlers) && p.irq == i && !p.enabled && lines[i].list == old(lines[i].list) + [p]
      ensures forall j | 0 <= j < UNASSIGNED && j != i :: lines[j].list == old(lines[j].list)
    {
      ghost var list := lines[i].list;
      AppendTo(p, i, handlers);
      assert p == lines[i].list[|list|] && forall h | h in list :: h in lines[i].list;
    }

    /** Link a handler to a line; all lines stay valid. */
    method AppendTo(p: Handler, i: nat, ghost handlers: set<Handler>)
      requires Shape() && Filed(handlers) && p in handlers && p.irq == UNASSIGNED && i < UNASSIGNED
      modifies lines[i], handlers`next, p`prev, p`irq
      ensures p.irq == i && lines[i].list == old(lines[i].list) + [p]
      ensures forall j | 0 <= j < UNASSIGNED && j != i :: lines[j].list == old(lines[j].list)
      ensures forall j | 0 <= j < UNASSIGNED :: lines[j].Valid()
      ensures forall h | h in handlers && h != p && h.irq >= UNASSIGNED :: h.next == null
    {
      OthersStay(i);
      assert forall j | 0 <= j < UNASSIGNED :: p !in lines[j].list;
      assert forall j, h | 0 <= j < UNASSIGNED && j != i && h in lines[j].list :: h !in lines[i].list;
      assert forall h | h in handlers && h.irq >= UNASSIGNED :: h !in lines[i].list;
      lines[i].Append(p);
      assert forall j | 0 <= j < UNASSIGNED && j != i :: lines[j].list == old(lines[j].list) && lines[j].Valid();
    }

    /** Put an unassigned handler at the end of a line, hooking the line's vector if need be. */
    method AssignUnassigned(p: Handler, i: nat, ghost handlers: set<Handler>)
      requires Valid(handlers) && p in handlers && p.irq == UNASSIGNED && i < UNASSIGNED
      modifies `present, `inUse, `previous, `vectors, lines[i], handlers`next, p`prev, p`irq
      ensures Valid(handlers) && p.irq == i && !p.enabled && lines[i].list == old(lines[i].list) + [p]
      ensures forall j | 0 <= j < UNASSIGNED && j != i :: lines[j].list == old(lines[j].list)
    {
      Hook(i);
      AppendUnassigned(p, i, handlers);
    }

    /** Move a handler to a line. A handler that was enabled on another line comes out disabled: whether to enable it
        again is only asked after it has been removed, and removing disables. */
    method Assign(p: Handler, i: nat, ghost handlers: set<Handler>)
      requires Valid(handlers) && p in handlers && i < UNASSIGNED && Fallback !in p.flags
      modifies `present, `inUse, `previous, `vectors, lines, handlers`next, handlers`prev, p
      ensures Valid(handlers) && p.irq == i
      ensures old(p.irq) == i ==> p.enabled == old(p.enabled) && forall j | 0 <= j < UNASSIGNED ::
                lines[j].list == old(lines[j].list)
      ensures old(p.irq) != i ==> !p.enabled && lines[i].list == old(lines[i].list) + [p]
      ensures forall j | 0 <= j < UNASSIGNED && j != i && j != old(p.irq) :: lines[j].list == old(lines[j].list)
      ensures i != old(p.irq) < UNASSIGNED ==> exists k: nat | k < |old(lines[p.irq].list)| ::
                old(lines[p.irq].list)[k] == p && lines[old(p.irq)].list == Without(old(lines[p.irq].list), k)
    {
      if p.irq != i {
        Remove(p, handlers);
        AssignUnassigned(p, i, handlers);
      }
    }

    /** Dispatch a line that is in use: the enabled handlers run, in order of assignment. */
    method Dispatch(i: nat, ghost handlers: set<Handler>) returns (called: seq<Handler>)
      requires Valid(handlers) && i < UNASSIGNED && vectors[i] == Trampoline(i) != original[i]
      ensures called == Enabled(lines[i].list)
    {
      called := lines[i].Call(lines[i].first, 0);
    }

    ghost function OwnLine(p: Handler): set<Line>
      reads p`irq
    {
      if p.irq < |lines| then {lines[p.irq]} else {}
    }
  }
}
