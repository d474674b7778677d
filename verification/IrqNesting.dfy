/** What nested interrupts amount to, on values: a tree of services and what their handlers do, played on the state
    of the lines and of the interrupt controller. */
module IrqNesting {
  import opened Basics
  import opened IrqLists

  type Level = i: nat | i < UNASSIGNED

  datatype Ack = NotYet | EoiSent | Acknowledged

  /** What a handler does that matters here. Nested stands for an interrupt that comes up while the handler runs; it
      is served if it can be delivered. */
  datatype Act =
    | Acknowledge
    | SetFlags(line: Level, flags: set<ConfigFlag>)
    | SetGlobals(globals: int)
    | SetInterrupts(on: bool)
    | Nested(s: Service)

  datatype Acts = Done | Then(act: Act, rest: Acts)

  /** One interrupt: its line, what the line's handlers do, and what its fallback handler would do. */
  datatype Service = Service(irq: Level, chain: Acts, fallback: Acts)

  /** What is on record about a service: its line, the line's flags when it began and, if a handler acknowledged it,
      the line's flags at the first acknowledgement. */
  datatype Record = Record(irq: Level, captured: set<ConfigFlag>, firstAck: Option<set<ConfigFlag>>)

  /** An end-of-interrupt command: the line it names, and the service it answers. */
  datatype Eoi = Eoi(irq: nat, id: nat)

  type LineFlags = s: seq<set<ConfigFlag>> | |s| == UNASSIGNED
    witness seq<set<ConfigFlag>>(UNASSIGNED, _ => {})
  type Depths = s: seq<nat> | |s| == UNASSIGNED witness seq<nat>(UNASSIGNED, _ => 0)

  /** The flags of the lines and how deep each is masked; the interrupt flag and the exception globals; the lines
      that the interrupt controller has in service; every service begun so far, and every end of interrupt sent. */
  datatype World = World(flags: LineFlags, masks: Depths, on: bool, globals: int,
                         inService: set<Level>, records: seq<Record>, eois: multiset<Eoi>)

  // ----- Single steps

  /** Flags with which acknowledging does not send the end of interrupt. */
  predicate Deferred(flags: set<ConfigFlag>)
  {
    LateEoi in flags || AlwaysChain in flags
  }

  /** Flags with which it is sent before any handler runs. */
  predicate Automatic(flags: set<ConfigFlag>)
  {
    !Deferred(flags) && NoAutoEoi !in flags
  }

  /** Flags with which the line is masked while its handlers run. */
  predicate Masking(flags: set<ConfigFlag>)
  {
    NoInterrupts in flags && NoReentry in flags
  }

  function AckOf(r: Record): Ack
  {
    if r.firstAck.Some? then Acknowledged else if Automatic(r.captured) then EoiSent else NotYet
  }

  /** The input of the master controller that a line comes in by; lower ones come first. */
  function Rank(irq: Level): nat
  {
    if irq >= 8 then 2 else irq
  }

  /** An interrupt gets through when interrupts are on, its line is not masked, and nothing of the same or a higher
      rank is in service. */
  predicate Deliverable(w: World, irq: Level)
  {
    w.on && w.masks[irq] == 0 && forall j | j in w.inService :: Rank(irq) < Rank(j)
  }

  function Answered(w: World, id: nat): World
    requires id < |w.records|
  {
    var irq := w.records[id].irq;
    w.(inService := w.inService - {irq}, eois := w.eois + multiset{Eoi(irq, id)})
  }

  function Begun(w: World, irq: Level): World
  {
    var flags := w.flags[irq];
    var b := w.(on := NoInterrupts !in flags, globals := 0,
                masks := if Masking(flags) then w.masks[irq := w.masks[irq] + 1] else w.masks,
                inService := w.inService + {irq}, records := w.records + [Record(irq, flags, None)]);
    if Automatic(flags) then Answered(b, |w.records|) else b
  }

  /** The first acknowledgement goes on record, and answers unless that is deferred or done. */
  function AfterAck(w: World, id: nat): World
    requires id < |w.records|
  {
    var r := w.records[id];
    var a := if r.firstAck.Some? then w else w.(records := w.records[id := r.(firstAck := Some(w.flags[r.irq]))]);
    if !Deferred(w.flags[r.irq]) && AckOf(r) == NotYet then Answered(a, id) else a
  }

  /** What is still owed is answered: by the previous handler, or late. */
  function Concluded(w: World, id: nat): World
    requires id < |w.records|
  {
    var r := w.records[id];
    if AlwaysChain in r.captured || AckOf(r) == NotYet || LateEoi in r.captured then Answered(w, id) else w
  }

  /** Once the handlers are through, the mask is lifted. */
  function Unmasked(w: World, irq: Level, flags: set<ConfigFlag>): World
    requires Masking(flags) ==> w.masks[irq] > 0
  {
    if Masking(flags) then w.(masks := w.masks[irq := w.masks[irq] - 1]) else w
  }

  // ----- Trees

  function AfterAct(w: World, id: nat, act: Act): (w': World)
    requires id < |w.records|
    ensures |w.records| <= |w'.records| && w'.masks == w.masks
    decreases act
  {
    match act
    case Acknowledge => AfterAck(w, id)
    case SetFlags(line, flags) => w.(flags := w.flags[line := flags])
    case SetGlobals(g) => w.(globals := g)
    case SetInterrupts(on) => w.(on := on)
    case Nested(s) => if Deliverable(w, s.irq) then AfterService(w, s) else w
  }

  function AfterActs(w: World, id: nat, acts: Acts): (w': World)
    requires id < |w.records|
    ensures |w.records| <= |w'.records| && w'.masks == w.masks
    decreases acts
  {
    match acts
    case Done => w
    case Then(act, rest) => AfterActs(AfterAct(w, id, act), id, rest)
  }

  /** The handlers of a line, and its fallback handler if none of them acknowledged. */
  function AfterHandlers(w: World, id: nat, s: Service): (w': World)
    requires id < |w.records|
    ensures |w.records| <= |w'.records| && w'.masks == w.masks
    decreases s, 0
  {
    var a := AfterActs(w, id, s.chain);
    if Fallback in w.records[id].captured && a.records[id].firstAck.None? then AfterActs(a, id, s.fallback) else a
  }

  /** One interrupt, from entering it to leaving it. */
  function AfterService(w: World, s: Service): (w': World)
    ensures |w.records| < |w'.records| && w'.masks == w.masks
    decreases s, 1
  {
    var (id, flags) := (|w.records|, w.flags[s.irq]);
    var h := AfterHandlers(Begun(w, s.irq), id, s);
    var u := Unmasked(h, s.irq, flags);
    assert u.masks == w.masks;
    Concluded(u, id).(on := w.on, globals := w.globals)
  }

  // ----- What is left alone

  /** Services on record stay on record, the current one at least with its line and flags and its first
      acknowledgement. */
  ghost predicate KeepsRecords(w': World, w: World, id: int)
  {
    && |w.records| <= |w'.records|
    && (forall k | 0 <= k < |w.records| && k != id :: w'.records[k] == w.records[k])
    && (0 <= id < |w.records| ==>
          && w'.records[id].irq == w.records[id].irq && w'.records[id].captured == w.records[id].captured
          && (w.records[id].firstAck.Some? ==> w'.records[id] == w.records[id]))
  }

  lemma {:induction false} ActKeepsRecords(w: World, id: nat, act: Act)
    requires id < |w.records|
    ensures KeepsRecords(AfterAct(w, id, act), w, id)
    decreases act
  {
    if act.Nested? && Deliverable(w, act.s.irq) {
      ServiceKeepsRecords(w, act.s);
    }
  }

  lemma {:induction false} ActsKeepRecords(w: World, id: nat, acts: Acts)
    requires id < |w.records|
    ensures KeepsRecords(AfterActs(w, id, acts), w, id)
    decreases acts
  {
    if acts.Then? {
      ActKeepsRecords(w, id, acts.act);
      ActsKeepRecords(AfterAct(w, id, acts.act), id, acts.rest);
    }
  }

  lemma {:induction false} HandlersKeepRecords(w: World, id: nat, s: Service)
    requires id < |w.records|
    ensures KeepsRecords(AfterHandlers(w, id, s), w, id)
    decreases s, 0
  {
    ActsKeepRecords(w, id, s.chain);
    ActsKeepRecords(AfterActs(w, id, s.chain), id, s.fallback);
  }

  lemma {:induction false} ServiceKeepsRecords(w: World, s: Service)
    ensures KeepsRecords(AfterService(w, s), w, -1)
    ensures AfterService(w, s).records[|w.records|].irq == s.irq
    ensures AfterService(w, s).records[|w.records|].captured == w.flags[s.irq]
    decreases s, 1
  {
    HandlersKeepRecords(Begun(w, s.irq), |w.records|, s);
  }

  /** Leaving a service changes nothing on record. */
  lemma HandlersDecide(w: World, s: Service, h: World)
    requires h == AfterHandlers(Begun(w, s.irq), |w.records|, s)
    ensures AfterService(w, s).records == h.records && AfterService(w, s).flags == h.flags
    ensures |w.records| < |h.records| && AfterService(w, s).inService == Concluded(h, |w.records|).inService
  {
  }

  // ----- Ends of interrupt

  /** The number of ends of interrupt sent for a service that is over. */
  function EoisFor(r: Record): nat
  {
    EoisSoFar(r) + if AlwaysChain in r.captured || AckOf(r) == NotYet || LateEoi in r.captured then 1 else 0
  }

  /** Those sent while it still runs: automatically, or by its first acknowledgement. */
  function EoisSoFar(r: Record): nat
  {
    if Automatic(r.captured) || (r.firstAck.Some? && !Deferred(r.firstAck.value)) then 1 else 0
  }

  /** Exactly one end of interrupt is sent if and only if it was sent automatically, or nobody acknowledged, or the
      flags at the first acknowledgement agreed with those at the start on who sends it. */
  lemma ExactlyOneEoi(r: Record)
    ensures EoisFor(r) == 1 <==>
            Automatic(r.captured) || r.firstAck.None? || Deferred(r.firstAck.value) == Deferred(r.captured)
  {
  }

  /** Ends of interrupt sent for a service so far, all naming its line. */
  ghost predicate Sent(w: World, id: nat, n: nat)
    requires id < |w.records|
  {
    forall irq: nat :: w.eois[Eoi(irq, id)] == if irq == w.records[id].irq then n else 0
  }

  /** Nothing is answered that has not begun. */
  ghost predicate NoneAhead(w: World)
  {
    forall e: Eoi | e.id >= |w.records| :: w.eois[e] == 0
  }

  /** Services from `from` on are over, and each was answered as its record says. */
  ghost predicate Settled(w: World, from: nat)
  {
    forall id: nat | from <= id < |w.records| :: Sent(w, id, EoisFor(w.records[id]))
  }

  /** Answers to services before `to` but one are as they were. */
  ghost predicate SameAnswers(w': World, w: World, to: nat, except: int)
  {
    forall e: Eoi | e.id < to && e.id != except :: w'.eois[e] == w.eois[e]
  }

  /** While service `id` runs, others begin and are then over and answered, and of those before only it is affected. */
  ghost predicate Progress(w': World, w: World, id: nat)
  {
    && id < |w.records| && KeepsRecords(w', w, id) && NoneAhead(w') && Settled(w', |w.records|)
    && SameAnswers(w', w, |w.records|, id) && Sent(w', id, EoisSoFar(w'.records[id]))
  }

  lemma AckProgresses(w: World, id: nat)
    requires id < |w.records| && NoneAhead(w) && Sent(w, id, EoisSoFar(w.records[id]))
    ensures Progress(AfterAck(w, id), w, id)
  {
  }

  lemma ProgressInTurn(w: World, w': World, w'': World, id: nat)
    requires Progress(w', w, id) && Progress(w'', w', id)
    ensures Progress(w'', w, id)
  {
    forall k: nat | |w.records| <= k < |w'.records|
      ensures Sent(w'', k, EoisFor(w''.records[k]))
    {
      assert Sent(w', k, EoisFor(w'.records[k]));
    }
  }

  lemma {:induction false} ActProgresses(w: World, id: nat, act: Act)
    requires id < |w.records| && NoneAhead(w) && Sent(w, id, EoisSoFar(w.records[id]))
    ensures Progress(AfterAct(w, id, act), w, id)
    decreases act
  {
    match act {
      case Acknowledge => AckProgresses(w, id);
      case Nested(s) =>
        if Deliverable(w, s.irq) {
          ServiceIsAnswered(w, s);
          ServiceKeepsRecords(w, s);
        }
      case _ =>
    }
  }

  lemma {:induction false} ActsProgress(w: World, id: nat, acts: Acts)
    requires id < |w.records| && NoneAhead(w) && Sent(w, id, EoisSoFar(w.records[id]))
    ensures Progress(AfterActs(w, id, acts), w, id)
    decreases acts
  {
    if acts.Then? {
      var w' := AfterAct(w, id, acts.act);
      ActProgresses(w, id, acts.act);
      ActsProgress(w', id, acts.rest);
      ProgressInTurn(w, w', AfterActs(w', id, acts.rest), id);
    }
  }

  lemma {:induction false} HandlersProgress(w: World, id: nat, s: Service)
    requires id < |w.records| && NoneAhead(w) && Sent(w, id, EoisSoFar(w.records[id]))
    ensures Progress(AfterHandlers(w, id, s), w, id)
    decreases s, 0
  {
    var w' := AfterActs(w, id, s.chain);
    ActsProgress(w, id, s.chain);
    ActsProgress(w', id, s.fallback);
    ProgressInTurn(w, w', AfterActs(w', id, s.fallback), id);
  }

  /** Every service that begins, at any depth, is over in the end and answered as its record says; answers to services
      before are as they were. */
  lemma {:induction false} ServiceIsAnswered(w: World, s: Service)
    requires NoneAhead(w)
    ensures var w' := AfterService(w, s);
            NoneAhead(w') && Settled(w', |w.records|) && SameAnswers(w', w, |w.records|, -1)
    decreases s, 1
  {
    var (id, b) := (|w.records|, Begun(w, s.irq));
    HandlersProgress(b, id, s);
    var h := AfterHandlers(b, id, s);
    ConcludingAnswers(h, id);
    AnsweredInParts(w, b, h, AfterService(w, s));
  }

  lemma ConcludingAnswers(h: World, id: nat)
    requires id < |h.records| && NoneAhead(h) && Sent(h, id, EoisSoFar(h.records[id]))
    ensures var c := Concluded(h, id);
            && NoneAhead(c) && Sent(c, id, EoisFor(c.records[id]))
            && SameAnswers(c, h, |h.records|, id) && c.records == h.records
  {
  }

  lemma AnsweredInParts(w: World, b: World, h: World, w': World)
    requires NoneAhead(w) && |b.records| == |w.records| + 1 && SameAnswers(b, w, |w.records|, -1)
    requires Progress(h, b, |w.records|)
    requires w'.records == h.records && NoneAhead(w') && SameAnswers(w', h, |h.records|, |w.records|)
    requires Sent(w', |w.records|, EoisFor(w'.records[|w.records|]))
    ensures Settled(w', |w.records|) && SameAnswers(w', w, |w.records|, -1)
  {
    forall k: nat | |w.records| < k < |w'.records|
      ensures Sent(w', k, EoisFor(w'.records[k]))
    {
      assert Sent(h, k, EoisFor(h.records[k]));
    }
  }

  // ----- Handlers that leave the flags of lines alone

  predicate Steady(acts: Acts)
  {
    match acts
    case Done => true
    case Then(act, rest) => SteadyAct(act) && Steady(rest)
  }

  predicate SteadyAct(act: Act)
  {
    match act
    case SetFlags(_, _) => false
    case Nested(s) => Steady(s.chain) && Steady(s.fallback)
    case _ => true
  }

  /** Flags are as they were; services from `from` on, and the current one unless it was acknowledged before, saw at
      their first acknowledgement the flags that they began with. */
  ghost predicate FlagsAgree(w': World, w: World, id: int)
  {
    && w'.flags == w.flags
    && (forall k | |w.records| <= k < |w'.records| && w'.records[k].firstAck.Some? ::
          w'.records[k].firstAck.value == w'.records[k].captured)
    && (0 <= id < |w.records| && id < |w'.records| && w.records[id].firstAck.None? && w'.records[id].firstAck.Some? ==>
          w'.records[id].firstAck.value == w.flags[w.records[id].irq])
  }

  /** A line is in service for as long as its interrupt is not answered; otherwise `base` is. */
  ghost predicate Busy(w: World, id: nat, base: set<Level>)
  {
    && id < |w.records| && w.records[id].irq !in base
    && w.inService == if EoisSoFar(w.records[id]) == 0 then base + {w.records[id].irq} else base
  }

  lemma AckAgrees(w: World, id: nat, base: set<Level>)
    requires Busy(w, id, base)
    ensures var w' := AfterAck(w, id); FlagsAgree(w', w, id) && Busy(w', id, base)
  {
    assert base + {w.records[id].irq} - {w.records[id].irq} == base;
  }

  lemma {:induction false} SteadyActAgrees(w: World, id: nat, act: Act, base: set<Level>)
    requires SteadyAct(act) && Busy(w, id, base)
    ensures var w' := AfterAct(w, id, act); FlagsAgree(w', w, id) && Busy(w', id, base)
    decreases act
  {
    match act {
      case Acknowledge => AckAgrees(w, id, base);
      case Nested(s) =>
        if Deliverable(w, s.irq) {
          ServiceKeepsRecords(w, s);
          SteadyServiceAgrees(w, s);
        }
      case _ =>
    }
  }

  lemma {:induction false} SteadyActsAgree(w: World, id: nat, acts: Acts, base: set<Level>)
    requires Steady(acts) && Busy(w, id, base)
    ensures var w' := AfterActs(w, id, acts); FlagsAgree(w', w, id) && Busy(w', id, base)
    decreases acts
  {
    if acts.Then? {
      var w' := AfterAct(w, id, acts.act);
      SteadyActAgrees(w, id, acts.act, base);
      ActKeepsRecords(w, id, acts.act);
      SteadyActsAgree(w', id, acts.rest, base);
      ActsKeepRecords(w', id, acts.rest);
    }
  }

  lemma ConcludingFrees(h: World, id: nat, base: set<Level>)
    requires Busy(h, id, base)
    requires var r := h.records[id]; r.firstAck.Some? ==> Deferred(r.firstAck.value) == Deferred(r.captured)
    ensures Concluded(h, id).inService == base
  {
  }

  lemma BeginningIsBusy(w: World, irq: Level)
    requires irq !in w.inService
    ensures Busy(Begun(w, irq), |w.records|, w.inService)
  {
  }

  lemma {:induction false} SteadyServiceAgrees(w: World, s: Service)
    requires Steady(s.chain) && Steady(s.fallback) && s.irq !in w.inService
    ensures var w' := AfterService(w, s); FlagsAgree(w', w, -1) && w'.inService == w.inService
    decreases s, 1
  {
    var (id, b) := (|w.records|, Begun(w, s.irq));
    BeginningIsBusy(w, s.irq);
    SteadyHandlersAgree(b, id, s, w.inService);
    HandlersKeepRecords(b, id, s);
    AgreedInParts(w, s, AfterHandlers(b, id, s));
  }

  lemma AgreedInParts(w: World, s: Service, h: World)
    requires h == AfterHandlers(Begun(w, s.irq), |w.records|, s)
    requires Busy(h, |w.records|, w.inService) && FlagsAgree(h, Begun(w, s.irq), |w.records|)
    requires KeepsRecords(h, Begun(w, s.irq), |w.records|)
    ensures var w' := AfterService(w, s); FlagsAgree(w', w, -1) && w'.inService == w.inService
  {
    HandlersDecide(w, s, h);
    ConcludingFrees(h, |w.records|, w.inService);
  }

  lemma {:induction false} SteadyHandlersAgree(w: World, id: nat, s: Service, base: set<Level>)
    requires Steady(s.chain) && Steady(s.fallback) && Busy(w, id, base)
    ensures var w' := AfterHandlers(w, id, s); FlagsAgree(w', w, id) && Busy(w', id, base)
    decreases s, 0
  {
    var w' := AfterActs(w, id, s.chain);
    SteadyActsAgree(w, id, s.chain, base);
    ActsKeepRecords(w, id, s.chain);
    SteadyActsAgree(w', id, s.fallback, base);
    ActsKeepRecords(w', id, s.fallback);
  }

  /** When no handler changes the flags of lines, every service of the tree that begins is answered exactly once,
      and in the end the interrupt controller has the same lines in service as before. */
  lemma AnsweredExactlyOnce(w: World, s: Service)
    requires NoneAhead(w) && Steady(s.chain) && Steady(s.fallback) && s.irq !in w.inService
    ensures var w' := AfterService(w, s);
            w'.inService == w.inService && forall id: nat | |w.records| <= id < |w'.records| :: Sent(w', id, 1)
  {
    var w' := AfterService(w, s);
    ServiceIsAnswered(w, s);
    SteadyServiceAgrees(w, s);
    forall id: nat | |w.records| <= id < |w'.records|
      ensures Sent(w', id, 1)
    {
      assert Sent(w', id, EoisFor(w'.records[id]));
      ExactlyOneEoi(w'.records[id]);
    }
  }

  /** A service whose handler changes the line's flags and then acknowledges. */
  function ChangingFlags(irq: Level, flags: set<ConfigFlag>): Service
  {
    Service(irq, Then(SetFlags(irq, flags), Then(Acknowledge, Done)), Done)
  }

  lemma TwoActs(w: World, id: nat, first: Act, second: Act)
    requires id < |w.records|
    ensures AfterActs(w, id, Then(first, Then(second, Done))) == AfterAct(AfterAct(w, id, first), id, second)
  {
    var a := AfterAct(w, id, first);
    assert AfterActs(a, id, Then(second, Done)) == AfterActs(AfterAct(a, id, second), id, Done);
  }

  lemma ChangingHandlers(b: World, id: nat, irq: Level, flags: set<ConfigFlag>)
    requires id < |b.records| && b.records[id].irq == irq && b.records[id].firstAck.None?
    ensures var h := AfterHandlers(b, id, ChangingFlags(irq, flags));
            h == AfterAck(b.(flags := b.flags[irq := flags]), id)
  {
    TwoActs(b, id, SetFlags(irq, flags), Acknowledge);
  }

  lemma AckIsRecorded(w: World, irq: Level, flags: set<ConfigFlag>)
    ensures AfterAck(Begun(w, irq).(flags := w.flags[irq := flags]), |w.records|).records
         == w.records + [Record(irq, w.flags[irq], Some(flags))]
  {
  }

  lemma ChangingIsRecorded(w: World, irq: Level, flags: set<ConfigFlag>)
    ensures var w' := AfterService(w, ChangingFlags(irq, flags));
            w'.records == w.records + [Record(irq, w.flags[irq], Some(flags))]
  {
    var b := Begun(w, irq);
    var h := AfterAck(b.(flags := b.flags[irq := flags]), |w.records|);
    AckIsRecorded(w, irq, flags);
    ChangingHandlers(b, |w.records|, irq, flags);
    HandlersDecide(w, ChangingFlags(irq, flags), h);
  }

  /** The number of answers that a service with these flags on record is in the end sent. */
  lemma ChangingSends(w: World, irq: Level, flags: set<ConfigFlag>, n: nat)
    requires NoneAhead(w) && n == EoisFor(Record(irq, w.flags[irq], Some(flags)))
    ensures Sent(AfterService(w, ChangingFlags(irq, flags)), |w.records|, n)
  {
    ServiceIsAnswered(w, ChangingFlags(irq, flags));
    ChangingIsRecorded(w, irq, flags);
  }

  lemma SentIsUnique(w: World, id: nat, m: nat, n: nat)
    requires id < |w.records| && Sent(w, id, m)
    ensures Sent(w, id, n) <==> m == n
  {
    assert w.eois[Eoi(w.records[id].irq, id)] == m;
  }

  /** It answers exactly once if and only if it was answered automatically, or the change leaves open who answers. */
  lemma ChangingIsAnsweredOnceExactly(w: World, irq: Level, flags: set<ConfigFlag>)
    requires NoneAhead(w)
    ensures Sent(AfterService(w, ChangingFlags(irq, flags)), |w.records|, 1) <==>
            Automatic(w.flags[irq]) || Deferred(flags) == Deferred(w.flags[irq])
  {
    var r := Record(irq, w.flags[irq], Some(flags));
    ChangingSends(w, irq, flags, EoisFor(r));
    SentIsUnique(AfterService(w, ChangingFlags(irq, flags)), |w.records|, EoisFor(r), 1);
    ExactlyOneEoi(r);
  }

  /** A handler that takes `late_eoi` off its line before acknowledging makes the service answer twice. */
  lemma AnsweredTwice(w: World, irq: Level)
    requires NoneAhead(w) && w.flags[irq] == {NoAutoEoi, LateEoi}
    ensures Sent(AfterService(w, ChangingFlags(irq, {NoAutoEoi})), |w.records|, 2)
  {
    ChangingSends(w, irq, {NoAutoEoi}, 2);
  }

  /** One that puts it on leaves the service unanswered, and its line and those after it can be served no more. */
  lemma NeverAnswered(w: World, irq: Level)
    requires NoneAhead(w) && w.flags[irq] == {NoAutoEoi}
    ensures var w' := AfterService(w, ChangingFlags(irq, {NoAutoEoi, LateEoi}));
            Sent(w', |w.records|, 0) && forall j: Level | Rank(irq) <= Rank(j) :: !Deliverable(w', j)
  {
    ChangingSends(w, irq, {NoAutoEoi, LateEoi}, 0);
    ChangingHandlers(Begun(w, irq), |w.records|, irq, {NoAutoEoi, LateEoi});
    assert irq in AfterService(w, ChangingFlags(irq, {NoAutoEoi, LateEoi})).inService;
  }

  // ----- When the fallback handler runs

  /** Some handler of the line itself acknowledges, not just one of an interrupt in between. */
  predicate Acknowledges(acts: Acts)
  {
    acts.Then? && (acts.act.Acknowledge? || Acknowledges(acts.rest))
  }

  function Appended(first: Acts, second: Acts): Acts
  {
    match first
    case Done => second
    case Then(act, rest) => Then(act, Appended(rest, second))
  }

  lemma {:induction false} AcknowledgedByActs(w: World, id: nat, acts: Acts)
    requires id < |w.records|
    ensures AfterActs(w, id, acts).records[id].firstAck.Some? <==>
            w.records[id].firstAck.Some? || Acknowledges(acts)
    decreases acts
  {
    if acts.Then? {
      if acts.act.Nested? && Deliverable(w, acts.act.s.irq) {
        ServiceKeepsRecords(w, acts.act.s);
      }
      AcknowledgedByActs(AfterAct(w, id, acts.act), id, acts.rest);
    }
  }

  lemma {:induction false} ActsInTurn(w: World, id: nat, first: Acts, second: Acts)
    requires id < |w.records|
    ensures AfterActs(w, id, Appended(first, second)) == AfterActs(AfterActs(w, id, first), id, second)
    decreases first
  {
    if first.Then? {
      ActsInTurn(AfterAct(w, id, first.act), id, first.rest, second);
    }
  }

  /** The fallback handler runs, after the others, if and only if the line has one when the service begins and no
      other handler acknowledges: what it does is all done, or nothing of it. */
  lemma FallbackExactly(w: World, s: Service)
    ensures var all := if Fallback in w.flags[s.irq] && !Acknowledges(s.chain) then Appended(s.chain, s.fallback)
                       else s.chain;
            AfterService(w, s) == AfterService(w, Service(s.irq, all, Done))
  {
    var (id, b) := (|w.records|, Begun(w, s.irq));
    AcknowledgedByActs(b, id, s.chain);
    ActsKeepRecords(b, id, s.chain);
    ActsInTurn(b, id, s.chain, s.fallback);
    var all := if Fallback in w.flags[s.irq] && !Acknowledges(s.chain) then Appended(s.chain, s.fallback) else s.chain;
    assert AfterHandlers(b, id, s) == AfterActs(b, id, all);
    SameHandlersSameService(w, s, Service(s.irq, all, Done));
  }

  lemma SameHandlersSameService(w: World, s: Service, s': Service)
    requires s.irq == s'.irq
    requires AfterHandlers(Begun(w, s.irq), |w.records|, s) == AfterHandlers(Begun(w, s.irq), |w.records|, s')
    ensures AfterService(w, s) == AfterService(w, s')
  {
  }

  /** A service is acknowledged if and only if a handler of the line does it, or the fallback handler, if there is
      one. When flags are left alone, the line's flags then go on record. */
  lemma AcknowledgedExactly(w: World, s: Service)
    ensures var r := AfterService(w, s).records[|w.records|];
            && (r.firstAck.Some? <==>
                  Acknowledges(s.chain) || (Fallback in w.flags[s.irq] && Acknowledges(s.fallback)))
            && (Steady(s.chain) && Steady(s.fallback) && s.irq !in w.inService && r.firstAck.Some? ==>
                  r.firstAck == Some(w.flags[s.irq]))
  {
    var (id, b) := (|w.records|, Begun(w, s.irq));
    AcknowledgedByActs(b, id, s.chain);
    ActsKeepRecords(b, id, s.chain);
    AcknowledgedByActs(AfterActs(b, id, s.chain), id, s.fallback);
    HandlersDecide(w, s, AfterHandlers(b, id, s));
    if Steady(s.chain) && Steady(s.fallback) && s.irq !in w.inService {
      SteadyServiceAgrees(w, s);
      ServiceKeepsRecords(w, s);
    }
  }

  /** No interrupt comes up in between. */
  predicate Undisturbed(acts: Acts)
  {
    acts.Then? ==> !acts.act.Nested? && Undisturbed(acts.rest)
  }

  /** The flags of lines after handlers have set some. */
  function FlagsSet(flags: LineFlags, acts: Acts): LineFlags
    decreases acts
  {
    match acts
    case Done => flags
    case Then(SetFlags(line, f), rest) => FlagsSet(flags[line := f], rest)
    case Then(_, rest) => FlagsSet(flags, rest)
  }

  lemma {:induction false} FlagsAfterActs(w: World, id: nat, acts: Acts)
    requires id < |w.records| && Undisturbed(acts)
    ensures AfterActs(w, id, acts).flags == FlagsSet(w.flags, acts)
    decreases acts
  {
    if acts.Then? {
      FlagsAfterActs(AfterAct(w, id, acts.act), id, acts.rest);
    }
  }

  /** The flags that handlers set stay set, those of the fallback handler if it runs. */
  lemma FlagsSetExactly(w: World, s: Service)
    requires Undisturbed(s.chain) && Undisturbed(s.fallback)
    ensures var f := FlagsSet(w.flags, s.chain);
            AfterService(w, s).flags ==
            if Fallback in w.flags[s.irq] && !Acknowledges(s.chain) then FlagsSet(f, s.fallback) else f
  {
    var (id, b) := (|w.records|, Begun(w, s.irq));
    FlagsAfterActs(b, id, s.chain);
    AcknowledgedByActs(b, id, s.chain);
    ActsKeepRecords(b, id, s.chain);
    FlagsAfterActs(AfterActs(b, id, s.chain), id, s.fallback);
  }

  /** A service starts with clear exception globals; they and the interrupt flag come back as they were. */
  lemma ServiceRestores(w: World, s: Service)
    ensures Begun(w, s.irq).globals == 0
    ensures var w' := AfterService(w, s); w'.on == w.on && w'.globals == w.globals && w'.masks == w.masks
  {
  }

  // ----- Which interrupts are served

  /** The lines of all interrupts that come up in a tree, in order, with those that come up in the fallback handlers
      of lines that have one and are not acknowledged before. */
  function Lines(flags: LineFlags, acts: Acts): seq<Level>
  {
    match acts
    case Done => []
    case Then(act, rest) => LinesOf(flags, act) + Lines(flags, rest)
  }

  function LinesOf(flags: LineFlags, act: Act): seq<Level>
  {
    if act.Nested? then [act.s.irq] + LinesOfHandlers(flags, act.s) else []
  }

  function LinesOfHandlers(flags: LineFlags, s: Service): seq<Level>
  {
    Lines(flags, s.chain)
    + if Fallback in flags[s.irq] && !Acknowledges(s.chain) then Lines(flags, s.fallback) else []
  }

  function LinesServed(records: seq<Record>): (lines: seq<Level>)
    ensures |lines| == |records| && forall k | 0 <= k < |lines| :: lines[k] == records[k].irq
  {
    seq(|records|, k requires 0 <= k < |records| => records[k].irq)
  }

  /** Handlers that leave the interrupt flag alone, too. */
  predicate Quiet(acts: Acts)
  {
    match acts
    case Done => true
    case Then(act, rest) => QuietAct(act) && Quiet(rest)
  }

  predicate QuietAct(act: Act)
  {
    match act
    case SetFlags(_, _) => false
    case SetInterrupts(_) => false
    case Nested(s) => Quiet(s.chain) && Quiet(s.fallback)
    case _ => true
  }

  /** Every line is answered automatically, and leaves interrupts on. */
  ghost predicate Open(w: World)
  {
    && w.on && w.inService == {} && (forall i | 0 <= i < UNASSIGNED :: w.masks[i] == 0)
    && forall i | 0 <= i < UNASSIGNED :: Automatic(w.flags[i]) && NoInterrupts !in w.flags[i]
  }

  /** What was served after `w`. */
  ghost predicate Served(w': World, w: World, lines: seq<Level>)
  {
    |w.records| <= |w'.records| && LinesServed(w'.records[|w.records|..]) == lines
  }

  lemma ServedInTurn(w: World, w': World, w'': World, a: seq<Level>, b: seq<Level>)
    requires Served(w', w, a) && Served(w'', w', b) && KeepsRecordLines(w'', w')
    ensures Served(w'', w, a + b)
  {
  }

  ghost predicate KeepsRecordLines(w': World, w: World)
  {
    |w.records| <= |w'.records| && forall k | 0 <= k < |w.records| :: w'.records[k].irq == w.records[k].irq
  }

  lemma {:induction false} OpenActServes(w: World, id: nat, act: Act)
    requires id < |w.records| && Open(w) && QuietAct(act) && Automatic(w.records[id].captured)
    ensures var w' := AfterAct(w, id, act); Open(w') && w'.flags == w.flags && Served(w', w, LinesOf(w.flags, act))
    decreases act
  {
    match act {
      case Nested(s) => OpenServiceServes(w, s);
      case _ =>
    }
  }

  lemma {:induction false} OpenActsServe(w: World, id: nat, acts: Acts)
    requires id < |w.records| && Open(w) && Quiet(acts) && Automatic(w.records[id].captured)
    ensures var w' := AfterActs(w, id, acts); Open(w') && w'.flags == w.flags && Served(w', w, Lines(w.flags, acts))
    decreases acts
  {
    if acts.Then? {
      var w' := AfterAct(w, id, acts.act);
      OpenActServes(w, id, acts.act);
      ActKeepsRecords(w, id, acts.act);
      OpenActsServe(w', id, acts.rest);
      ActsKeepRecords(w', id, acts.rest);
      ServedInTurn(w, w', AfterActs(w', id, acts.rest), LinesOf(w.flags, acts.act), Lines(w.flags, acts.rest));
    }
  }

  /** With open lines and quiet handlers, every interrupt that comes up in the tree is served, in order. */
  lemma {:induction false} OpenServiceServes(w: World, s: Service)
    requires Open(w) && Quiet(s.chain) && Quiet(s.fallback)
    ensures var w' := AfterService(w, s);
            Open(w') && w'.flags == w.flags && Served(w', w, [s.irq] + LinesOfHandlers(w.flags, s))
    decreases s, 1
  {
    var (id, b) := (|w.records|, Begun(w, s.irq));
    assert {s.irq} - {s.irq} == {};
    OpenHandlersServe(b, id, s);
    HandlersKeepRecords(b, id, s);
    ServedInTurn(w, b, AfterHandlers(b, id, s), [s.irq], LinesOfHandlers(w.flags, s));
  }

  lemma {:induction false} OpenHandlersServe(w: World, id: nat, s: Service)
    requires id < |w.records| && Open(w) && Quiet(s.chain) && Quiet(s.fallback)
    requires w.records[id] == Record(s.irq, w.flags[s.irq], None)
    ensures var w' := AfterHandlers(w, id, s);
            Open(w') && w'.flags == w.flags && Served(w', w, LinesOfHandlers(w.flags, s))
    decreases s, 0
  {
    var a := AfterActs(w, id, s.chain);
    OpenActsServe(w, id, s.chain);
    ActsKeepRecords(w, id, s.chain);
    AcknowledgedByActs(w, id, s.chain);
    if Fallback in w.flags[s.irq] && !Acknowledges(s.chain) {
      OpenActsServe(a, id, s.fallback);
      ActsKeepRecords(a, id, s.fallback);
      ServedInTurn(w, a, AfterActs(a, id, s.fallback), Lines(w.flags, s.chain), Lines(w.flags, s.fallback));
    }
  }

  // ----- Whether a line can be served while it is being served

  /** Another service of the line begins while the first runs. */
  ghost predicate Reenters(w: World, s: Service)
  {
    var records := AfterService(w, s).records;
    exists k | |w.records| < k < |records| :: records[k].irq == s.irq
  }

  /** The line is masked when its handlers are entered, and still when they are through, exactly when both flags are
      set; whatever nests in them, in the end every line is masked as deep as it was. */
  lemma MaskedExactly(w: World, s: Service)
    requires w.masks[s.irq] == 0
    ensures var b := Begun(w, s.irq);
            && (b.masks[s.irq] > 0 <==> NoInterrupts in w.flags[s.irq] && NoReentry in w.flags[s.irq])
            && AfterHandlers(b, |w.records|, s).masks == b.masks && AfterService(w, s).masks == w.masks
  {
  }

  /** Of the services that begin from `from` on, none is of the line. */
  ghost predicate NotServed(w: World, from: nat, irq: Level)
  {
    forall k | from <= k < |w.records| :: w.records[k].irq != irq
  }

  lemma NotServedInTurn(w: World, w': World, from: nat, irq: Level, id: int)
    requires from <= |w.records| && KeepsRecords(w', w, id)
    requires NotServed(w, from, irq) && NotServed(w', |w.records|, irq)
    ensures NotServed(w', from, irq)
  {
  }

  lemma {:induction false} MaskedActServesNot(w: World, id: nat, act: Act, irq: Level)
    requires id < |w.records| && w.masks[irq] > 0
    ensures NotServed(AfterAct(w, id, act), |w.records|, irq)
    decreases act
  {
    if act.Nested? && Deliverable(w, act.s.irq) {
      MaskedServiceServesNot(w, act.s, irq);
    }
  }

  lemma {:induction false} MaskedActsServeNot(w: World, id: nat, acts: Acts, irq: Level)
    requires id < |w.records| && w.masks[irq] > 0
    ensures NotServed(AfterActs(w, id, acts), |w.records|, irq)
    decreases acts
  {
    if acts.Then? {
      var w' := AfterAct(w, id, acts.act);
      MaskedActServesNot(w, id, acts.act, irq);
      MaskedActsServeNot(w', id, acts.rest, irq);
      ActsKeepRecords(w', id, acts.rest);
      NotServedInTurn(w', AfterActs(w', id, acts.rest), |w.records|, irq, id);
    }
  }

  lemma {:induction false} MaskedHandlersServeNot(w: World, id: nat, s: Service, irq: Level)
    requires id < |w.records| && w.masks[irq] > 0
    ensures NotServed(AfterHandlers(w, id, s), |w.records|, irq)
    decreases s, 0
  {
    var w' := AfterActs(w, id, s.chain);
    MaskedActsServeNot(w, id, s.chain, irq);
    MaskedActsServeNot(w', id, s.fallback, irq);
    ActsKeepRecords(w', id, s.fallback);
    NotServedInTurn(w', AfterActs(w', id, s.fallback), |w.records|, irq, id);
  }

  /** While a line is masked it is not served, however interrupts nest. */
  lemma {:induction false} MaskedServiceServesNot(w: World, s: Service, irq: Level)
    requires s.irq != irq && w.masks[irq] > 0
    ensures NotServed(AfterService(w, s), |w.records|, irq)
    decreases s, 1
  {
    var (id, b) := (|w.records|, Begun(w, s.irq));
    MaskedHandlersServeNot(b, id, s, irq);
    HandlersKeepRecords(b, id, s);
    assert AfterService(w, s).records == AfterHandlers(b, id, s).records;
  }

  // Re-entry, however handlers behave.

  /** A handler that switches interrupts on, sees to it that its line is answered, and is then interrupted by its
      line. */
  function Insisting(irq: Level): Service
  {
    Service(irq, Then(SetInterrupts(true), Then(SetFlags(irq, {}), Then(Acknowledge,
                 Then(Nested(Service(irq, Done, Done)), Done)))), Done)
  }

  lemma ThreeActs(w: World, id: nat, first: Act, second: Act, third: Act, rest: Acts)
    requires id < |w.records|
    ensures AfterActs(w, id, Then(first, Then(second, Then(third, rest))))
         == AfterActs(AfterAct(AfterAct(AfterAct(w, id, first), id, second), id, third), id, rest)
  {
    var a := AfterAct(w, id, first);
    var b := AfterAct(a, id, second);
    assert AfterActs(a, id, Then(second, Then(third, rest))) == AfterActs(b, id, Then(third, rest));
  }

  /** When its interrupt comes in again. */
  function Insisted(b: World, id: nat, irq: Level): World
    requires id < |b.records|
  {
    AfterAck(b.(on := true).(flags := b.flags[irq := {}]), id)
  }

  lemma InsistingOpens(w: World, irq: Level)
    requires Deliverable(w, irq) && !Masking(w.flags[irq])
    ensures var a := Insisted(Begun(w, irq), |w.records|, irq); |a.records| == |w.records| + 1 && Deliverable(a, irq)
  {
  }

  lemma InsistedByActs(b: World, id: nat, irq: Level, rest: Acts)
    requires id < |b.records|
    ensures AfterActs(b, id, Then(SetInterrupts(true), Then(SetFlags(irq, {}), Then(Acknowledge, rest))))
         == AfterActs(Insisted(b, id, irq), id, rest)
  {
    ThreeActs(b, id, SetInterrupts(true), SetFlags(irq, {}), Acknowledge, rest);
  }

  lemma OneService(w: World, id: nat, s: Service)
    requires id < |w.records| && Deliverable(w, s.irq)
    ensures AfterActs(w, id, Then(Nested(s), Done)) == AfterService(w, s)
  {
    assert AfterActs(AfterService(w, s), id, Done) == AfterService(w, s);
  }

  lemma InsistingReenters(w: World, irq: Level)
    requires Deliverable(w, irq) && !Masking(w.flags[irq])
    ensures Reenters(w, Insisting(irq))
  {
    var (id, b, s) := (|w.records|, Begun(w, irq), Insisting(irq));
    var (a, inner) := (Insisted(b, id, irq), Service(irq, Done, Done));
    InsistingOpens(w, irq);
    InsistedByActs(b, id, irq, Then(Nested(inner), Done));
    OneService(a, id, inner);
    ServiceKeepsRecords(a, inner);
    ServedAfter(w, s, id + 1);
  }

  /** What the first handlers bring in is brought in by the service. */
  lemma ServedAfter(w: World, s: Service, k: nat)
    requires var c := AfterActs(Begun(w, s.irq), |w.records|, s.chain);
             |w.records| < k < |c.records| && c.records[k].irq == s.irq
    ensures Reenters(w, s)
  {
    var (id, b) := (|w.records|, Begun(w, s.irq));
    var c := AfterActs(b, id, s.chain);
    ActsKeepRecords(c, id, s.fallback);
    HandlersDecide(w, s, AfterHandlers(b, id, s));
    assert AfterService(w, s).records[k].irq == s.irq;
  }

  /** Some handlers can make an interrupt of a line come in while it is served, if and only if not both flags are
      set. */
  lemma ReentryExactly(w: World, irq: Level)
    requires Deliverable(w, irq)
    ensures (exists s: Service :: s.irq == irq && Reenters(w, s)) <==>
            !(NoInterrupts in w.flags[irq] && NoReentry in w.flags[irq])
  {
    if Masking(w.flags[irq]) {
      forall s: Service | s.irq == irq
        ensures !Reenters(w, s)
      {
        MaskedHandlersServeNot(Begun(w, irq), |w.records|, s, irq);
        assert AfterService(w, s).records == AfterHandlers(Begun(w, irq), |w.records|, s).records;
      }
    } else {
      InsistingReenters(w, irq);
    }
  }

  // Re-entry with handlers that leave flags alone.

  /** The services that begin from `from` on are all of lines that rank above this one. */
  ghost predicate OnlyAbove(w: World, from: nat, irq: Level)
  {
    forall k | from <= k < |w.records| :: Rank(w.records[k].irq) < Rank(irq)
  }

  lemma OnlyAboveInTurn(w: World, w': World, from: nat, irq: Level, id: int)
    requires from <= |w.records| && KeepsRecords(w', w, id)
    requires OnlyAbove(w, from, irq) && OnlyAbove(w', |w.records|, irq)
    ensures OnlyAbove(w', from, irq)
  {
  }

  lemma {:induction false} BusyActServesNot(w: World, id: nat, act: Act, irq: Level)
    requires id < |w.records| && SteadyAct(act) && irq in w.inService && Deferred(w.flags[irq])
    ensures var w' := AfterAct(w, id, act);
            w'.flags == w.flags && irq in w'.inService && OnlyAbove(w', |w.records|, irq)
    decreases act
  {
    if act.Nested? && Deliverable(w, act.s.irq) {
      BusyServiceServesNot(w, act.s, irq);
    }
  }

  lemma {:induction false} BusyActsServeNot(w: World, id: nat, acts: Acts, irq: Level)
    requires id < |w.records| && Steady(acts) && irq in w.inService && Deferred(w.flags[irq])
    ensures var w' := AfterActs(w, id, acts);
            w'.flags == w.flags && irq in w'.inService && OnlyAbove(w', |w.records|, irq)
    decreases acts
  {
    if acts.Then? {
      var w' := AfterAct(w, id, acts.act);
      BusyActServesNot(w, id, acts.act, irq);
      BusyActsServeNot(w', id, acts.rest, irq);
      ActsKeepRecords(w', id, acts.rest);
      OnlyAboveInTurn(w', AfterActs(w', id, acts.rest), |w.records|, irq, id);
    }
  }

  lemma {:induction false} BusyHandlersServeNot(w: World, id: nat, s: Service, irq: Level)
    requires id < |w.records| && Steady(s.chain) && Steady(s.fallback) && irq in w.inService && Deferred(w.flags[irq])
    ensures var w' := AfterHandlers(w, id, s);
            w'.flags == w.flags && irq in w'.inService && OnlyAbove(w', |w.records|, irq)
    decreases s, 0
  {
    var w' := AfterActs(w, id, s.chain);
    BusyActsServeNot(w, id, s.chain, irq);
    BusyActsServeNot(w', id, s.fallback, irq);
    ActsKeepRecords(w', id, s.fallback);
    OnlyAboveInTurn(w', AfterActs(w', id, s.fallback), |w.records|, irq, id);
  }

  /** While a line with a deferred answer is in service, only lines that rank above it are served. */
  lemma {:induction false} BusyServiceServesNot(w: World, s: Service, irq: Level)
    requires Rank(s.irq) < Rank(irq) && Steady(s.chain) && Steady(s.fallback)
    requires irq in w.inService && Deferred(w.flags[irq])
    ensures var w' := AfterService(w, s);
            w'.flags == w.flags && irq in w'.inService && OnlyAbove(w', |w.records|, irq)
    decreases s, 1
  {
    var (id, b) := (|w.records|, Begun(w, s.irq));
    BusyHandlersServeNot(b, id, s, irq);
    HandlersKeepRecords(b, id, s);
    HandlersDecide(w, s, AfterHandlers(b, id, s));
  }

  lemma {:induction false} QuietIsSteady(acts: Acts)
    requires Quiet(acts)
    ensures Steady(acts)
    decreases acts
  {
    if acts.Then? {
      QuietIsSteady(acts.rest);
      if acts.act.Nested? {
        QuietIsSteady(acts.act.s.chain);
        QuietIsSteady(acts.act.s.fallback);
      }
    }
  }

  /** With interrupts off, quiet handlers are not interrupted. */
  lemma {:induction false} OffServesNothing(w: World, id: nat, acts: Acts)
    requires id < |w.records| && Quiet(acts) && !w.on
    ensures var w' := AfterActs(w, id, acts); |w'.records| == |w.records| && !w'.on
    decreases acts
  {
    if acts.Then? {
      OffServesNothing(AfterAct(w, id, acts.act), id, acts.rest);
    }
  }

  /** A handler that acknowledges, and is then interrupted by its line. */
  function Plain(irq: Level): Acts
  {
    Then(Acknowledge, Then(Nested(Service(irq, Done, Done)), Done))
  }

  lemma PlainIsQuiet(irq: Level)
    ensures Quiet(Plain(irq)) && Steady(Plain(irq))
  {
    assert Quiet(Done) && Steady(Done);
    var act := Nested(Service(irq, Done, Done));
    assert QuietAct(act) && SteadyAct(act);
    assert Quiet(Then(act, Done)) && Steady(Then(act, Done));
  }

  lemma PlainReenters(b: World, id: nat, irq: Level)
    requires id < |b.records| && Deliverable(AfterAck(b, id), irq)
    ensures var c := AfterActs(b, id, Plain(irq)); |b.records| < |c.records| && c.records[|b.records|].irq == irq
  {
    var (a, inner) := (AfterAck(b, id), Service(irq, Done, Done));
    OneService(a, id, inner);
    assert AfterActs(b, id, Plain(irq)) == AfterActs(a, id, Then(Nested(inner), Done));
    ServiceKeepsRecords(a, inner);
  }

  lemma AcknowledgedOpens(w: World, irq: Level)
    requires Deliverable(w, irq) && !Masking(w.flags[irq]) && !Deferred(w.flags[irq])
    ensures Deliverable(AfterAck(Begun(w, irq).(on := true), |w.records|), irq)
  {
  }

  lemma SteadyReenters(w: World, irq: Level) returns (s: Service)
    requires Deliverable(w, irq) && !Masking(w.flags[irq]) && !Deferred(w.flags[irq])
    ensures s.irq == irq && Steady(s.chain) && Steady(s.fallback) && Reenters(w, s)
    ensures NoInterrupts !in w.flags[irq] ==> Quiet(s.chain) && Quiet(s.fallback)
  {
    var (id, b) := (|w.records|, Begun(w, irq));
    AcknowledgedOpens(w, irq);
    PlainIsQuiet(irq);
    PlainReenters(b.(on := true), id, irq);
    if NoInterrupts !in w.flags[irq] {
      s := Service(irq, Plain(irq), Done);
      assert b.(on := true) == b;
    } else {
      s := Service(irq, Then(SetInterrupts(true), Plain(irq)), Done);
      assert AfterActs(b, id, s.chain) == AfterActs(b.(on := true), id, Plain(irq));
    }
    ServedAfter(w, s, id + 1);
  }

  lemma SteadyServesNot(w: World, s: Service)
    requires Steady(s.chain) && Steady(s.fallback) && (Masking(w.flags[s.irq]) || Deferred(w.flags[s.irq]))
    ensures !Reenters(w, s)
  {
    var (id, b) := (|w.records|, Begun(w, s.irq));
    if Masking(w.flags[s.irq]) {
      MaskedHandlersServeNot(b, id, s, s.irq);
    } else {
      BusyHandlersServeNot(b, id, s, s.irq);
    }
    HandlersDecide(w, s, AfterHandlers(b, id, s));
  }

  /** Handlers that leave the flags of lines alone can have it come in if and only if the line is not masked and
      they can answer it. */
  lemma SteadyReentryExactly(w: World, irq: Level)
    requires Deliverable(w, irq)
    ensures (exists s: Service :: s.irq == irq && Steady(s.chain) && Steady(s.fallback) && Reenters(w, s)) <==>
            !(NoInterrupts in w.flags[irq] && NoReentry in w.flags[irq])
            && LateEoi !in w.flags[irq] && AlwaysChain !in w.flags[irq]
  {
    if Masking(w.flags[irq]) || Deferred(w.flags[irq]) {
      forall s: Service | s.irq == irq && Steady(s.chain) && Steady(s.fallback)
        ensures !Reenters(w, s)
      {
        SteadyServesNot(w, s);
      }
    } else {
      var s := SteadyReenters(w, irq);
    }
  }

  /** An interrupt of line `j` is served within a service. */
  ghost predicate Interrupts(w: World, s: Service, j: Level)
  {
    var records := AfterService(w, s).records;
    exists k | |w.records| < k < |records| :: records[k].irq == j
  }

  lemma DeferringInhibits(w: World, s: Service, j: Level)
    requires Steady(s.chain) && Steady(s.fallback) && Deferred(w.flags[s.irq]) && Rank(s.irq) <= Rank(j)
    ensures !Interrupts(w, s, j)
  {
    var (id, b) := (|w.records|, Begun(w, s.irq));
    BusyHandlersServeNot(b, id, s, s.irq);
    HandlersDecide(w, s, AfterHandlers(b, id, s));
  }

  lemma LowerOneInterrupts(w: World, irq: Level, j: Level) returns (s: Service)
    requires Deliverable(w, irq) && !Deferred(w.flags[irq]) && j != irq
    requires w.masks[j] == 0 && forall k | k in w.inService :: Rank(j) < Rank(k)
    ensures s.irq == irq && Steady(s.chain) && Steady(s.fallback) && Interrupts(w, s, j)
  {
    var (id, b) := (|w.records|, Begun(w, irq));
    PlainIsQuiet(j);
    s := Service(irq, Then(SetInterrupts(true), Plain(j)), Done);
    assert AfterActs(b, id, s.chain) == AfterActs(b.(on := true), id, Plain(j));
    PlainReenters(b.(on := true), id, j);
    HandlersDecide(w, s, AfterHandlers(b, id, s));
    ActsKeepRecords(AfterActs(b, id, s.chain), id, Done);
    assert AfterService(w, s).records[id + 1].irq == j;
  }

  /** Handlers that leave flags alone can be interrupted by another line of the same or a lower rank if and only if
      they can answer their own. */
  lemma LowerOnesInterruptExactly(w: World, irq: Level, j: Level)
    requires Deliverable(w, irq) && j != irq && Rank(irq) <= Rank(j)
    requires w.masks[j] == 0 && forall k | k in w.inService :: Rank(j) < Rank(k)
    ensures (exists s: Service :: s.irq == irq && Steady(s.chain) && Steady(s.fallback) && Interrupts(w, s, j)) <==>
            LateEoi !in w.flags[irq] && AlwaysChain !in w.flags[irq]
  {
    if Deferred(w.flags[irq]) {
      forall s: Service | s.irq == irq && Steady(s.chain) && Steady(s.fallback)
        ensures !Interrupts(w, s, j)
      {
        DeferringInhibits(w, s, j);
      }
    } else {
      var s := LowerOneInterrupts(w, irq, j);
    }
  }

  /** Only a line that is answered automatically lets them in before a handler acknowledges. */
  lemma BlockedAtFirstExactly(w: World, irq: Level, j: Level)
    requires Deliverable(w, irq) && j != irq && Rank(irq) <= Rank(j)
    requires w.masks[j] == 0 && forall k | k in w.inService :: Rank(j) < Rank(k)
    ensures Deliverable(Begun(w, irq), j) <==>
            var f := w.flags[irq]; NoAutoEoi !in f && LateEoi !in f && AlwaysChain !in f && NoInterrupts !in f
  {
  }

  lemma OffServesNot(w: World, s: Service)
    requires Quiet(s.chain) && Quiet(s.fallback) && NoInterrupts in w.flags[s.irq]
    ensures !Reenters(w, s)
  {
    var (id, b) := (|w.records|, Begun(w, s.irq));
    OffServesNothing(b, id, s.chain);
    OffServesNothing(AfterActs(b, id, s.chain), id, s.fallback);
    HandlersDecide(w, s, AfterHandlers(b, id, s));
  }

  /** With handlers that leave the interrupt flag alone, too, `no_reentry` has no say in it. */
  lemma QuietReentryExactly(w: World, irq: Level)
    requires Deliverable(w, irq)
    ensures (exists s: Service :: s.irq == irq && Quiet(s.chain) && Quiet(s.fallback) && Reenters(w, s)) <==>
            NoInterrupts !in w.flags[irq] && LateEoi !in w.flags[irq] && AlwaysChain !in w.flags[irq]
  {
    if NoInterrupts !in w.flags[irq] && !Deferred(w.flags[irq]) {
      var s := SteadyReenters(w, irq);
    } else {
      forall s: Service | s.irq == irq && Quiet(s.chain) && Quiet(s.fallback)
        ensures !Reenters(w, s)
      {
        if NoInterrupts in w.flags[irq] {
          OffServesNot(w, s);
        } else {
          QuietIsSteady(s.chain);
          QuietIsSteady(s.fallback);
          SteadyServesNot(w, s);
        }
      }
    }
  }

  /** A line with `no_reentry` alone is served while it is served, though its handler does nothing but be
      interrupted. */
  lemma ServedDespiteNoReentry(w: World, irq: Level)
    requires Deliverable(w, irq) && w.flags[irq] == {NoReentry}
    ensures Reenters(w, Service(irq, Then(Nested(Service(irq, Done, Done)), Done), Done))
  {
    var (id, b, inner) := (|w.records|, Begun(w, irq), Service(irq, Done, Done));
    var s := Service(irq, Then(Nested(inner), Done), Done);
    assert Deliverable(b, irq);
    OneService(b, id, inner);
    ServiceKeepsRecords(b, inner);
    ServedAfter(w, s, id + 1);
  }
}
