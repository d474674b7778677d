/** The cooperative scheduler. Threads stand in order of their numbers, and an iterator marks the current one;
    switching threads moves the iterator on until it finds a thread that can run, erasing threads that are over and
    detached. */
module Scheduler {
  import opened Basics

  datatype State = Starting | Running | Finishing | Finished

  /** What the scheduler looks at. */
  datatype Entry = Entry(id: nat, state: State, suspended: bool, detached: bool) {
    predicate Active() {
      state != Finished
    }

    predicate Ready() {
      !suspended && Active()
    }

    /** Nobody will ask about this thread again. */
    predicate Dead() {
      !Active() && detached
    }
  }

  // Queues: all threads in cyclic order, with the current one first.

  function Rotated<T>(s: seq<T>, k: nat): seq<T>
    requires k <= |s|
  {
    s[k..] + s[..k]
  }

  function Alive(q: seq<Entry>): seq<Entry> {
    if q == [] then [] else IfAlive(q[0]) + Alive(q[1..])
  }

  function IfAlive(e: Entry): seq<Entry> {
    if e.Dead() then [] else [e]
  }

  /** One step of the iterator. */
  function Turn(q: seq<Entry>): seq<Entry>
    requires q != []
  {
    if q[0].Dead() then q[1..] else q[1..] + [q[0]]
  }

  /** `n` steps of the iterator, at most one rotation. */
  function Turned(q: seq<Entry>, n: nat): seq<Entry>
    requires n <= |q|
  {
    q[n..] + Alive(q[..n])
  }

  ghost predicate SomeReady(q: seq<Entry>) {
    exists k | 0 <= k < |q| :: q[k].Ready()
  }

  /** The first place from `from` on, up to one rotation, of a thread that can run. */
  function Distance(q: seq<Entry>, from: nat): (d: nat)
    requires from <= |q|
    ensures from <= d <= |q|
    ensures forall k | from <= k < d :: !q[k].Ready()
    ensures d < |q| ==> q[d].Ready()
    decreases |q| - from
  {
    if from < |q| && !q[from].Ready() then Distance(q, from + 1) else from
  }

  /** The queue after a switch: the first thread after the current one that can run has come to the front, and of
      those passed, the dead are gone. */
  function Next(q: seq<Entry>): seq<Entry>
    requires q != []
  {
    Turned(q, Distance(q, 1))
  }

  lemma {:induction false} AliveOfParts(a: seq<Entry>, b: seq<Entry>)
    ensures Alive(a + b) == Alive(a) + Alive(b)
  {
    if a == [] {
      assert a + b == b;
    } else {
      AliveOfParts(a[1..], b);
      assert (a + b)[0] == a[0] && (a + b)[1..] == a[1..] + b;
      Associate(IfAlive(a[0]), Alive(a[1..]), Alive(b));
    }
  }

  lemma TurnedOneMore(q: seq<Entry>, n: nat)
    requires n < |q|
    ensures Turned(q, n + 1) == Turn(Turned(q, n))
  {
    AliveOfParts(q[..n], [q[n]]);
    assert q[..n + 1] == q[..n] + [q[n]];
    assert Turned(q, n)[1..] == q[n + 1..] + Alive(q[..n]);
  }

  /** The thread switched to can run, and is the first such thread after the current one in cyclic order. */
  lemma NextCanRun(q: seq<Entry>)
    requires SomeReady(q)
    ensures var d := Distance(q, 1); Next(q) != [] && Next(q)[0] == q[if d < |q| then d else 0] && Next(q)[0].Ready()
    ensures !Next(q)[0].suspended && Next(q)[0].state != Finished
    ensures forall k | 1 <= k < Distance(q, 1) :: q[k].suspended || q[k].state == Finished
  {
    var d := Distance(q, 1);
    if d == |q| {
      var k :| 0 <= k < |q| && q[k].Ready();
      assert k == 0 && q[..d] == q;
    }
  }

  lemma TurnedShort(q: seq<Entry>, n: nat)
    requires q != [] && n < Distance(q, 1)
    ensures Turned(q, n) != [] && Turned(q, n)[0] == q[n] && (n > 0 ==> !Turned(q, n)[0].Ready())
  {
  }

  // What happens over a whole run.

  /** Threads are switched; a thread is created, anywhere behind the current one; states and flags change. */
  datatype Event = Switch | Create(at: nat, e: Entry) | Change(q: seq<Entry>)

  ghost predicate SameThreads(a: seq<Entry>, b: seq<Entry>) {
    |a| == |b| && forall k | 0 <= k < |a| :: a[k].id == b[k].id
  }

  ghost predicate Numbered(q: seq<Entry>) {
    forall i, j | 0 <= i < j < |q| :: q[i].id != q[j].id
  }

  ghost predicate Can(q: seq<Entry>, event: Event) {
    match event
    case Switch => SomeReady(q)
    case Create(at, e) => 1 <= at <= |q| && forall k | 0 <= k < |q| :: q[k].id != e.id
    case Change(to) => SameThreads(q, to)
  }

  ghost function After(q: seq<Entry>, event: Event): seq<Entry>
    requires Can(q, event)
  {
    match event
    case Switch => Next(q)
    case Create(at, e) => q[..at] + [e] + q[at..]
    case Change(to) => to
  }

  ghost predicate Possible(q: seq<Entry>, run: seq<Event>)
    decreases |run|
  {
    run == [] || (Can(q, run[0]) && Possible(After(q, run[0]), run[1..]))
  }

  ghost function AfterAll(q: seq<Entry>, run: seq<Event>): seq<Entry>
    requires Possible(q, run)
    decreases |run|
  {
    if run == [] then q else AfterAll(After(q, run[0]), run[1..])
  }

  function Switches(run: seq<Event>): nat {
    if run == [] then 0 else (if run[0].Switch? then 1 else 0) + Switches(run[1..])
  }

  function Creations(run: seq<Event>): nat {
    if run == [] then 0 else (if run[0].Create? then 1 else 0) + Creations(run[1..])
  }

  ghost predicate In(q: seq<Entry>, id: nat) {
    exists k | 0 <= k < |q| :: q[k].id == id
  }

  function Place(q: seq<Entry>, id: nat): (k: nat)
    ensures k <= |q|
    ensures k < |q| ==> q[k].id == id
    ensures forall i | 0 <= i < k :: q[i].id != id
  {
    if q == [] || q[0].id == id then 0 else 1 + Place(q[1..], id)
  }

  /** How many switches it can take, at most, until a thread is next chosen. */
  function Wait(q: seq<Entry>, id: nat): nat {
    if Place(q, id) == 0 then |q| else Place(q, id)
  }

  /** At every switch of a run, the thread can run and is not chosen. */
  ghost predicate KeptWaiting(q: seq<Entry>, run: seq<Event>, id: nat)
    requires Possible(q, run)
    decreases |run|
  {
    run != [] ==>
      && (run[0].Switch? ==> In(q, id) && q[Place(q, id)].Ready() && Next(q)[0].id != id)
      && KeptWaiting(After(q, run[0]), run[1..], id)
  }

  /** At every switch of a run, the thread is over and detached, and not erased even so. */
  ghost predicate KeptDead(q: seq<Entry>, run: seq<Event>, id: nat)
    requires Possible(q, run)
    decreases |run|
  {
    run != [] ==>
      && (run[0].Switch? ==> In(q, id) && q[Place(q, id)].Dead() && In(Next(q), id))
      && KeptDead(After(q, run[0]), run[1..], id)
  }

  /** At no switch of a run is the thread over and detached. */
  ghost predicate NeverDead(q: seq<Entry>, run: seq<Event>, id: nat)
    requires Possible(q, run)
    decreases |run|
  {
    run != [] ==>
      && (run[0].Switch? && In(q, id) ==> !q[Place(q, id)].Dead())
      && NeverDead(After(q, run[0]), run[1..], id)
  }

  lemma {:induction false} AliveExactly(q: seq<Entry>)
    ensures forall e :: e in Alive(q) <==> e in q && !e.Dead()
  {
    if q != [] {
      AliveExactly(q[1..]);
    }
  }

  /** A switch erases exactly the dead threads that it passes. */
  lemma ErasesExactlyTheDead(q: seq<Entry>, e: Entry)
    requires Numbered(q) && q != []
    ensures e in Next(q) <==> e in q && !(e.state == Finished && e.detached && e in q[..Distance(q, 1)])
  {
    var d := Distance(q, 1);
    AliveExactly(q[..d]);
    assert q == q[..d] + q[d..];
  }

  lemma {:induction false} TurnedIsNumbered(q: seq<Entry>, n: nat)
    requires Numbered(q) && n <= |q|
    ensures Numbered(Turned(q, n))
  {
    if n == 0 {
      assert Turned(q, n) == q;
    } else {
      TurnedIsNumbered(q, n - 1);
      TurnedOneMore(q, n - 1);
    }
  }

  lemma PlaceOf(q: seq<Entry>, id: nat, k: nat)
    requires k < |q| && q[k].id == id && forall i | 0 <= i < k :: q[i].id != id
    ensures Place(q, id) == k
  {
  }

  /** A thread that could have been chosen, but was not, comes nearer. */
  lemma SwitchShortensWait(q: seq<Entry>, id: nat)
    requires Numbered(q) && SomeReady(q) && In(q, id) && q[Place(q, id)].Ready() && Next(q)[0].id != id
    ensures In(Next(q), id) && Wait(Next(q), id) < Wait(q, id)
  {
    var (p, d) := (Place(q, id), Distance(q, 1));
    if p == 0 {
      assert d < |q| by {
        NextCanRun(q);
      }
      assert Next(q)[|q| - d] == q[0];
      PlaceOf(Next(q), id, |q| - d);
    } else {
      assert Next(q)[p - d] == q[p];
      PlaceOf(Next(q), id, p - d);
    }
  }

  lemma CreationLengthensWaitByOne(q: seq<Entry>, at: nat, e: Entry, id: nat)
    requires Can(q, Create(at, e)) && In(q, id)
    ensures var q' := After(q, Create(at, e));
            In(q', id) && Wait(q', id) <= Wait(q, id) + 1 && Place(q', id) <= Place(q, id) + 1
  {
    var q' := After(q, Create(at, e));
    var p := Place(q, id);
    var p' := if p < at then p else p + 1;
    assert q'[p'] == q[p];
    PlaceOf(q', id, p');
  }

  lemma StaysNumbered(q: seq<Entry>, event: Event)
    requires Numbered(q) && Can(q, event)
    ensures Numbered(After(q, event))
  {
    if event.Switch? {
      TurnedIsNumbered(q, Distance(q, 1));
    }
  }

  /** A thread that can run at every switch of a run is chosen before there have been as many switches as threads,
      however flags change; every thread created meanwhile may delay it by one switch. */
  lemma {:induction false} BoundedWaiting(q: seq<Entry>, run: seq<Event>, id: nat)
    requires Numbered(q) && In(q, id) && Possible(q, run) && KeptWaiting(q, run, id)
    ensures Switches(run) < Wait(q, id) + Creations(run)
    decreases |run|
  {
    if run != [] {
      var q' := After(q, run[0]);
      StaysNumbered(q, run[0]);
      match run[0] {
        case Switch => SwitchShortensWait(q, id);
        case Create(at, e) => CreationLengthensWaitByOne(q, at, e, id);
        case Change(_) => PlaceOf(q', id, Place(q, id));
      }
      BoundedWaiting(q', run[1..], id);
    }
  }

  /** Time and again, the current thread creates another, and is switched away from. */
  function Crowd(next: nat, n: nat): seq<Event>
    decreases n
  {
    if n == 0 then [] else [Create(1, Entry(next, Starting, false, false)), Switch] + Crowd(next + 1, n - 1)
  }

  /** The new thread comes up before all others. */
  lemma CrowdedOut(q: seq<Entry>, e: Entry, id: nat)
    requires |q| >= 2 && e.Ready() && (forall k | 0 <= k < |q| :: q[k].Ready() && q[k].id != e.id)
    requires q[1].id == id && q[0].id != id
    ensures Can(q, Create(1, e)) && SomeReady(After(q, Create(1, e)))
    ensures var a := After(q, Create(1, e));
            Next(a) == [e] + q[1..] + [q[0]] && In(a, id) && a[Place(a, id)].Ready()
  {
    var q' := After(q, Create(1, e));
    assert q'[1] == e && Distance(q', 1) == 1;
    assert q'[1..] == [e] + q[1..] && q'[..1] == [q[0]];
    assert Alive(q'[..1]) == [q[0]];
    PlaceOf(q', id, 2);
  }

  /** There is no bound when threads are created without end: any number of switches can pass without a thread being
      chosen that could run at every one of them, next in turn though it was. */
  lemma {:induction false} NoBoundWithCreations(q: seq<Entry>, next: nat, n: nat, id: nat)
    requires |q| >= 2 && q[1].id == id && q[0].id != id
    requires forall k | 0 <= k < |q| :: q[k].Ready() && q[k].id < next
    ensures Possible(q, Crowd(next, n)) && KeptWaiting(q, Crowd(next, n), id) && Switches(Crowd(next, n)) == n
    decreases n
  {
    if n > 0 {
      var e := Entry(next, Starting, false, false);
      NoBoundWithCreations([e] + q[1..] + [q[0]], next + 1, n - 1, id);
      CrowdingOnceMore(q, e, Crowd(next + 1, n - 1), id);
    }
  }

  lemma CrowdingOnceMore(q: seq<Entry>, e: Entry, rest: seq<Event>, id: nat)
    requires |q| >= 2 && e.Ready() && (forall k | 0 <= k < |q| :: q[k].Ready() && q[k].id != e.id)
    requires q[1].id == id && q[0].id != id
    requires var q' := [e] + q[1..] + [q[0]]; Possible(q', rest) && KeptWaiting(q', rest, id)
    ensures var run := [Create(1, e), Switch] + rest;
            Possible(q, run) && KeptWaiting(q, run, id) && Switches(run) == 1 + Switches(rest)
  {
    CrowdedOut(q, e, id);
    CreatedThenSwitched(q, e, [e] + q[1..] + [q[0]], rest, id);
  }

  lemma CreatedThenSwitched(q: seq<Entry>, e: Entry, q': seq<Entry>, rest: seq<Event>, id: nat)
    requires Can(q, Create(1, e)) && SomeReady(After(q, Create(1, e)))
    requires var a := After(q, Create(1, e)); Next(a) == q' && In(a, id) && a[Place(a, id)].Ready()
    requires q'[0].id != id && Possible(q', rest) && KeptWaiting(q', rest, id)
    ensures var run := [Create(1, e), Switch] + rest;
            Possible(q, run) && KeptWaiting(q, run, id) && Switches(run) == 1 + Switches(rest)
  {
    var run := [Create(1, e), Switch] + rest;
    assert run[1..] == [Switch] + rest && ([Switch] + rest)[1..] == rest;
    assert Possible(After(q, Create(1, e)), [Switch] + rest);
  }

  /** A dead thread that is not erased comes nearer. */
  lemma SwitchBringsDeadNearer(q: seq<Entry>, id: nat)
    requires Numbered(q) && In(q, id) && q[Place(q, id)].Dead() && In(Next(q), id)
    ensures Place(Next(q), id) < Place(q, id)
  {
    var (p, d) := (Place(q, id), Distance(q, 1));
    var k :| 0 <= k < |Next(q)| && Next(q)[k].id == id;
    ErasesExactlyTheDead(q, Next(q)[k]);
    assert Next(q)[k] == q[p] && q[p] !in q[..d];
    assert p >= d;
    PlaceOf(Next(q), id, p - d);
  }

  /** A thread that is over and detached is gone after at most one rotation, however flags change. */
  lemma {:induction false} DeadLeaveInTime(q: seq<Entry>, run: seq<Event>, id: nat)
    requires Numbered(q) && In(q, id) && Possible(q, run) && KeptDead(q, run, id)
    ensures Switches(run) <= Place(q, id) + Creations(run)
    decreases |run|
  {
    if run != [] {
      var q' := After(q, run[0]);
      StaysNumbered(q, run[0]);
      match run[0] {
        case Switch => SwitchBringsDeadNearer(q, id);
        case Create(at, e) => CreationLengthensWaitByOne(q, at, e, id);
        case Change(_) => PlaceOf(q', id, Place(q, id));
      }
      DeadLeaveInTime(q', run[1..], id);
    }
  }

  /** No other thread ever leaves. */
  lemma {:induction false} OnlyDeadLeave(q: seq<Entry>, run: seq<Event>, id: nat)
    requires Numbered(q) && In(q, id) && Possible(q, run) && NeverDead(q, run, id)
    ensures In(AfterAll(q, run), id)
    decreases |run|
  {
    if run != [] {
      var q' := After(q, run[0]);
      StaysNumbered(q, run[0]);
      match run[0] {
        case Switch =>
          ErasesExactlyTheDead(q, q[Place(q, id)]);
        case Create(at, e) => CreationLengthensWaitByOne(q, at, e, id);
        case Change(_) => PlaceOf(q', id, Place(q, id));
      }
      OnlyDeadLeave(q', run[1..], id);
    }
  }

  // The scheduler itself.

  /** A saved stack: what the registers hold, and where it returns to. */
  datatype Context = Context(registers: nat, ebp: nat, returnAddress: nat)

  const RUN_THREAD: nat := 0

  /** Exception handling state and error number, of which each thread has its own. */
  datatype Globals = Globals(exceptions: nat, errno: int)

  class Thread {
    const id: nat
    var state: State
    var suspended: bool
    var detached: bool
    var context: Context
    var globals: Globals

    constructor (id: nat)
      ensures this.id == id && state == Starting && !suspended && !detached
    {
      this.id := id;
      state, suspended, detached := Starting, false, false;
      context, globals := Context(0, 0, 0), Globals(0, 0);
    }

    function Look(): Entry
      reads `state, `suspended, `detached
    {
      Entry(id, state, suspended, detached)
    }
  }

  /** How a queue of threads looks. */
  ghost predicate Shows(q: seq<Thread>, e: seq<Entry>)
    reads q`state, q`suspended, q`detached
  {
    |q| == |e| && forall k | 0 <= k < |q| :: q[k].Look() == e[k]
  }

  ghost predicate InOrder(threads: seq<Thread>, limit: nat) {
    && (forall i, j | 0 <= i < j < |threads| :: threads[i].id < threads[j].id)
    && forall k | 0 <= k < |threads| :: threads[k].id < limit
  }

  /** The iterator moves on to the next place, or from the last to the first. */
  lemma PassRotates<T>(s: seq<T>, k: nat)
    requires k < |s|
    ensures Rotated(s, if k + 1 == |s| then 0 else k + 1) == Rotated(s, k)[1..] + [Rotated(s, k)[0]]
  {
    assert s == s[..k] + [s[k]] + s[k + 1..];
  }

  lemma EraseKeepsOrder(threads: seq<Thread>, k: nat, limit: nat)
    requires InOrder(threads, limit) && k < |threads|
    ensures InOrder(Without(threads, k), limit)
    ensures forall t | t in Without(threads, k) :: t in threads
    ensures k > 0 ==> Without(threads, k)[0] == threads[0]
  {
    var rest := Without(threads, k);
    assert forall i | 0 <= i < |rest| :: rest[i] == threads[if i < k then i else i + 1];
  }

  /** The iterator of what is erased moves to what comes after. */
  lemma EraseRotates<T>(s: seq<T>, k: nat)
    requires k < |s|
    ensures Rotated(Without(s, k), if k + 1 == |s| then 0 else k) == Rotated(s, k)[1..]
  {
  }

  /** What is added at the end comes up before what stands before the iterator. */
  lemma AppendRotates<T>(s: seq<T>, k: nat, x: T)
    requires k <= |s|
    ensures Rotated(s + [x], k) == Rotated(s, k)[..|s| - k] + [x] + Rotated(s, k)[|s| - k..]
  {
  }

  class Scheduler {
    var threads: seq<Thread>
    var current: nat
    var nextId: nat
    var globals: Globals

    /** The main thread comes first and never ends. */
    ghost predicate Valid()
      reads this, threads`state
    {
      current < |threads| && InOrder(threads, nextId) && threads[0].state == Running
    }

    /** Only the main thread, numbered 1, and running. */
    constructor ()
      ensures Valid() && |threads| == 1 && threads[0].id == 1 && current == 0
    {
      var main := new Thread(1);
      threads, current, nextId, globals := [main], 0, 2, Globals(0, 0);
      new;
      main.state := Running;
    }

    ghost function Queue(): (q: seq<Thread>)
      requires current < |threads|
      reads `threads, `current
      ensures |q| == |threads| && q[0] == threads[current]
    {
      Rotated(threads, current)
    }

    /** Move the iterator on by one, erasing a dead thread. */
    method Advance()
      requires Valid()
      modifies `threads, `current
      ensures Valid() && threads[0] == old(threads[0])
      ensures var q := old(Queue());
              Queue() == if q[0].Look().Dead() then q[1..] else q[1..] + [q[0]]
      ensures forall t | t in threads :: t in old(threads)
    {
      var t := threads[current];
      if t.state != Finished || !t.detached {
        PassRotates(threads, current);
        current := current + 1;
      } else {
        EraseRotates(threads, current);
        EraseKeepsOrder(threads, current, nextId);
        threads := Without(threads, current);
      }
      if current == |threads| {
        current := 0;
      }
    }

    /** A thread that has not started yet gets a new stack, on which it will start to run. */
    method Prepare(t: Thread)
      requires Valid()
      modifies t`context
      ensures t.context == if t.state == Starting then FirstContext() else old(t.context)
      ensures threads[0].context == old(threads[0].context)
    {
      if t.state == Starting {
        t.context := threads[0].context.(ebp := 0, returnAddress := RUN_THREAD);
      }
    }

    /** A copy of the main thread's, that returns to the thread function. */
    ghost function FirstContext(): Context
      requires threads != []
      reads `threads, threads`context
    {
      Context(threads[0].context.registers, 0, RUN_THREAD)
    }

    lemma TurnShows(q: seq<Thread>, q': seq<Thread>, e: seq<Entry>)
      requires Shows(q, e) && q != [] && q' == if q[0].Look().Dead() then q[1..] else q[1..] + [q[0]]
      ensures Shows(q', Turn(e))
    {
    }

    /** Move on, as the queue looks. */
    method MoveOn(ghost e: seq<Entry>)
      requires Valid() && Shows(Queue(), e)
      modifies `threads, `current
      ensures Valid() && threads[0] == old(threads[0]) && forall t | t in threads :: t in old(threads)
      ensures Shows(Queue(), Turn(e))
    {
      ghost var q := Queue();
      Advance();
      TurnShows(q, Queue(), e);
    }

    /** Move on to the next thread, and tell whether to go on from it. */
    method Step(ghost e: seq<Entry>, ghost all: set<Thread>) returns (again: bool)
      requires Valid() && Shows(Queue(), e) && forall t | t in threads :: t in all
      modifies `threads, `current, all`context
      ensures Valid() && threads[0] == old(threads[0]) && forall t | t in threads :: t in all
      ensures Shows(Queue(), Turn(e)) && again == !Turn(e)[0].Ready()
      ensures threads[current].state == Starting ==> threads[current].context == FirstContext()
      ensures threads[0].context == old(threads[0].context)
      ensures forall t | t in all :: t.context == old(t.context) || (t.state == Starting && t.context == FirstContext())
    {
      MoveOn(e);
      again := Visit(Turn(e), all);
    }

    /** Prepare the current thread to run, and tell whether it cannot. */
    method Visit(ghost e: seq<Entry>, ghost all: set<Thread>) returns (again: bool)
      requires Valid() && Shows(Queue(), e) && threads[current] in all
      modifies all`context
      ensures Shows(Queue(), e) && again == !e[0].Ready()
      ensures threads[current].state == Starting ==> threads[current].context == FirstContext()
      ensures threads[0].context == old(threads[0].context)
      ensures forall t | t in all :: t.context == old(t.context) || (t.state == Starting && t.context == FirstContext())
    {
      ghost var q := Queue();
      var ct := threads[current];
      assert ct == q[0] && ct.Look() == e[0];
      Prepare(ct);
      assert Queue() == q;
      again := ct.suspended || ct.state == Finished;
    }

    /** The queue before a switch and after each step of it. */
    ghost function Path(q: seq<Entry>): (path: seq<seq<Entry>>)
      requires SomeReady(q)
      ensures |path| == Distance(q, 1) + 1
    {
      seq(Distance(q, 1) + 1, i requires 0 <= i <= Distance(q, 1) => Turned(q, i))
    }

    /** Each queue is that before it, one step on, and the last one is the first with a thread in front that can
        run. */
    ghost predicate Walk(path: seq<seq<Entry>>) {
      && |path| > 1
      && (forall i | 0 <= i < |path| :: path[i] != [])
      && forall i, j | 0 <= i < j < |path| && j == i + 1 ::
           path[j] == Turn(path[i]) && (path[j][0].Ready() <==> j == |path| - 1)
    }

    lemma PathToNext(q: seq<Entry>)
      requires SomeReady(q)
      ensures Walk(Path(q)) && Path(q)[0] == q && Path(q)[|Path(q)| - 1] == Next(q)
    {
      forall i | 0 < i < |Path(q)|
        ensures Path(q)[i] != [] && Path(q)[i] == Turn(Path(q)[i - 1])
        ensures Path(q)[i][0].Ready() <==> i == |Path(q)| - 1
      {
        TurnedOneMore(q, i - 1);
        WhenToStop(q, i);
      }
    }

    /** The last step is the one that reaches the first thread that can run. */
    lemma WhenToStop(q: seq<Entry>, i: nat)
      requires SomeReady(q) && 0 < i <= Distance(q, 1)
      ensures Turned(q, i) != [] && (Turned(q, i)[0].Ready() <==> i == Distance(q, 1))
    {
      if i < Distance(q, 1) {
        TurnedShort(q, i);
      } else {
        NextCanRun(q);
      }
    }

    /** Select a new current thread. */
    method SwitchThread(ghost e: seq<Entry>) returns (context: Context)
      requires Valid() && Shows(Queue(), e) && SomeReady(e)
      modifies this, threads`globals, threads`context
      ensures Valid() && threads[0] == old(threads[0]) && forall t | t in threads :: t in old(threads)
      ensures Shows(Queue(), Next(e))
      ensures context == threads[current].context
      ensures threads[current].state == Starting ==>
                context == FirstContext() && context.registers == old(threads[0].context.registers)
                && context.ebp == 0 && context.returnAddress == RUN_THREAD
      ensures forall t | t in old(threads) ::
                t.context == old(t.context) || (t.state == Starting && t.context == FirstContext())
      ensures old(threads[current]).globals == old(globals) && globals == threads[current].globals
      ensures forall t | t in old(threads) && t != old(threads[current]) :: t.globals == old(t.globals)
    {
      var ct := threads[current];
      ct.globals := globals;
      context := Find(e);
    }

    /** Find the thread to run next, and bring its globals back. */
    method Find(ghost e: seq<Entry>) returns (context: Context)
      requires Valid() && Shows(Queue(), e) && SomeReady(e)
      modifies `threads, `current, `globals, threads`context
      ensures Valid() && threads[0] == old(threads[0]) && forall t | t in threads :: t in old(threads)
      ensures Shows(Queue(), Next(e))
      ensures context == threads[current].context && globals == threads[current].globals
      ensures threads[current].state == Starting ==> context == FirstContext()
      ensures forall t | t in old(threads) ::
                t.context == old(t.context) || (t.state == Starting && t.context == FirstContext())
    {
      ghost var all := set t | t in threads;
      Search(e, all);
      context := Resume(Next(e));
    }

    method Resume(ghost e: seq<Entry>) returns (context: Context)
      requires Valid() && Shows(Queue(), e)
      modifies `globals
      ensures Valid() && Shows(Queue(), e)
      ensures context == threads[current].context && globals == threads[current].globals
    {
      globals := threads[current].globals;
      context := threads[current].context;
    }

    method Search(ghost e: seq<Entry>, ghost all: set<Thread>)
      requires Valid() && Shows(Queue(), e) && SomeReady(e) && forall t | t in threads :: t in all
      modifies `threads, `current, all`context
      ensures Valid() && threads[0] == old(threads[0]) && forall t | t in threads :: t in all
      ensures Shows(Queue(), Next(e))
      ensures threads[current].state == Starting ==> threads[current].context == FirstContext()
      ensures forall t | t in all :: t.context == old(t.context) || (t.state == Starting && t.context == FirstContext())
    {
      PathToNext(e);
      SearchAlong(Path(e), all);
    }

    method SearchAlong(ghost path: seq<seq<Entry>>, ghost all: set<Thread>)
      requires Valid() && Walk(path) && Shows(Queue(), path[0]) && forall t | t in threads :: t in all
      modifies `threads, `current, all`context
      ensures Valid() && threads[0] == old(threads[0]) && forall t | t in threads :: t in all
      ensures Shows(Queue(), path[|path| - 1])
      ensures threads[current].state == Starting ==> threads[current].context == FirstContext()
      ensures forall t | t in all :: t.context == old(t.context) || (t.state == Starting && t.context == FirstContext())
    {
      ghost var i := 0;
      var again := true;
      while again
        invariant Valid() && threads[0] == old(threads[0]) && forall t | t in threads :: t in all
        invariant i < |path| && again == (i < |path| - 1) && Shows(Queue(), path[i])
        invariant i > 0 && threads[current].state == Starting ==> threads[current].context == FirstContext()
        invariant forall t | t in all ::
                    t.context == old(t.context) || (t.state == Starting && t.context == FirstContext())
        decreases |path| - i
      {
        again := Step(path[i], all);
        assert path[i + 1] == Turn(path[i]);
        i := i + 1;
      }
    }

    /** A new thread gets the next number, and so stands before those that come before the current one. */
    method CreateThread(ghost e: seq<Entry>) returns (t: Thread)
      requires Valid() && Shows(Queue(), e)
      modifies `threads, `nextId
      ensures Valid() && fresh(t) && threads == old(threads) + [t] && threads[current] == old(threads[current])
      ensures Can(e, Create(|old(threads)| - current, t.Look()))
      ensures Shows(Queue(), After(e, Create(|old(threads)| - current, t.Look())))
    {
      QueueIsNumbered(e);
      t := new Thread(nextId);
      nextId := nextId + 1;
      Append(t, e);
      assert var at := |old(threads)| - current;
             After(e, Create(at, t.Look())) == e[..at] + [t.Look()] + e[at..];
    }

    method Append(t: Thread, ghost e: seq<Entry>)
      requires current < |threads| && Shows(Queue(), e)
      modifies `threads
      ensures threads == old(threads) + [t]
      ensures var at := |old(threads)| - current; Shows(Queue(), e[..at] + [t.Look()] + e[at..])
    {
      ghost var (q, at) := (Queue(), |threads| - current);
      AppendRotates(threads, current, t);
      threads := threads + [t];
      ShowsInserted(q, e, at, t);
    }

    lemma ShowsInserted(q: seq<Thread>, e: seq<Entry>, at: nat, t: Thread)
      requires Shows(q, e) && at <= |q|
      ensures Shows(q[..at] + [t] + q[at..], e[..at] + [t.Look()] + e[at..])
    {
    }

    /** Threads in the queue have different numbers, all smaller than the next one. */
    lemma QueueIsNumbered(e: seq<Entry>)
      requires Valid() && Shows(Queue(), e)
      ensures Numbered(e) && forall k | 0 <= k < |e| :: e[k].id < nextId
    {
      assert forall k | 0 <= k < |e| ::
          e[k].id == threads[if k < |e| - current then k + current else k + current - |e|].id;
    }
  }
}
