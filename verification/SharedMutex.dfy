/** The shared mutex: one flag and one counter, changed by atomic steps that any number of participants interleave. */
module SharedMutex {
  /** How far one attempt to lock has come. The flag is held from `Checking` to `Leaving`. */
  datatype Phase = Idle | Checking | BackingOut | Exclusive | Entering | Leaving | Shared {
    predicate HoldsFlag() {
      !Idle? && !Shared?
    }

    predicate Counted() {
      Leaving? || Shared?
    }
  }

  datatype State = State(locked: bool, count: nat, phases: seq<Phase>)

  /** What an idle participant tries to do next. */
  datatype Wish = Lock | LockShared

  const WIDTH: nat := 0x1_0000_0000

  function Initial(n: nat): State {
    State(false, 0, seq(n, _ => Idle))
  }

  /** One atomic operation of participant `i`. */
  function Step(s: State, i: nat, wish: Wish): State
    requires i < |s.phases|
  {
    match s.phases[i]
    case Idle =>
      if s.locked then s else State(true, s.count, s.phases[i := if wish == Lock then Checking else Entering])
    case Checking => s.(phases := s.phases[i := if s.count == 0 then Exclusive else BackingOut])
    case BackingOut => State(false, s.count, s.phases[i := Idle])
    case Exclusive => State(false, s.count, s.phases[i := Idle])
    case Entering => s.(count := (s.count + 1) % WIDTH, phases := s.phases[i := Leaving])
    case Leaving => State(false, s.count, s.phases[i := Shared])
    case Shared => s.(count := (s.count + WIDTH - 1) % WIDTH, phases := s.phases[i := Idle])
  }

  ghost predicate Valid(steps: seq<(nat, Wish)>, n: nat) {
    forall k | 0 <= k < |steps| :: steps[k].0 < n
  }

  function Run(s: State, steps: seq<(nat, Wish)>): (t: State)
    requires Valid(steps, |s.phases|)
    ensures |t.phases| == |s.phases|
    decreases |steps|
  {
    if steps == [] then s else Run(Step(s, steps[0].0, steps[0].1), steps[1..])
  }

  function Counted(phases: seq<Phase>): (n: nat)
    ensures n <= |phases|
  {
    if phases == [] then 0 else (if phases[0].Counted() then 1 else 0) + Counted(phases[1..])
  }

  /** At most one participant holds the flag, and the flag is set exactly while one does. */
  ghost predicate FlagFits(s: State) {
    && (forall i, j | 0 <= i < j < |s.phases| :: !(s.phases[i].HoldsFlag() && s.phases[j].HoldsFlag()))
    && (s.locked <==> exists i | 0 <= i < |s.phases| :: s.phases[i].HoldsFlag())
  }

  /** The counter counts those that have entered; nobody has while another has exclusive access. */
  ghost predicate CountFits(s: State) {
    s.count == Counted(s.phases) % WIDTH && (Exclusive in s.phases ==> Counted(s.phases) == 0)
  }

  lemma {:induction false} CountedAfter(phases: seq<Phase>, i: nat, p: Phase)
    requires i < |phases|
    ensures Counted(phases[i := p]) + (if phases[i].Counted() then 1 else 0)
         == Counted(phases) + if p.Counted() then 1 else 0
  {
    if i > 0 {
      CountedAfter(phases[1..], i - 1, p);
      assert phases[i := p][1..] == phases[1..][i - 1 := p];
    } else {
      assert phases[i := p][1..] == phases[1..];
    }
  }

  lemma {:induction false} NobodyCounted(phases: seq<Phase>)
    ensures Counted(phases) == 0 <==> forall i | 0 <= i < |phases| :: !phases[i].Counted()
  {
    if phases != [] {
      NobodyCounted(phases[1..]);
      assert forall i | 0 < i < |phases| :: phases[i] == phases[1..][i - 1];
    }
  }

  lemma NotAllCounted(phases: seq<Phase>, i: nat)
    requires i < |phases| && !phases[i].Counted()
    ensures Counted(phases) < |phases|
  {
    CountedAfter(phases, i, Shared);
  }

  lemma StepKeepsFlag(s: State, i: nat, wish: Wish)
    requires FlagFits(s) && i < |s.phases|
    ensures FlagFits(Step(s, i, wish))
  {
    var t := Step(s, i, wish);
    assert forall j | 0 <= j < |s.phases| && j != i :: t.phases[j] == s.phases[j];
    assert t.locked ==> exists j | 0 <= j < |t.phases| :: t.phases[j].HoldsFlag() by {
      if t.locked && s.locked {
        var j :| 0 <= j < |s.phases| && s.phases[j].HoldsFlag();
        assert t.phases[j].HoldsFlag();
      } else if t.locked {
        assert t.phases[i].HoldsFlag();
      }
    }
  }

  lemma StepKeepsCount(s: State, i: nat, wish: Wish)
    requires FlagFits(s) && CountFits(s) && i < |s.phases| <= WIDTH
    ensures CountFits(Step(s, i, wish))
  {
    var t := Step(s, i, wish);
    CountedAfter(s.phases, i, t.phases[i]);
    if s.phases[i] == Checking {
      NotAllCounted(s.phases, i);
    }
  }

  lemma {:induction false} RunKeepsBoth(s: State, steps: seq<(nat, Wish)>)
    requires FlagFits(s) && CountFits(s) && Valid(steps, |s.phases|) && |s.phases| <= WIDTH
    ensures FlagFits(Run(s, steps)) && CountFits(Run(s, steps))
    decreases |steps|
  {
    if steps != [] {
      StepKeepsFlag(s, steps[0].0, steps[0].1);
      StepKeepsCount(s, steps[0].0, steps[0].1);
      RunKeepsBoth(Step(s, steps[0].0, steps[0].1), steps[1..]);
    }
  }

  /** At most one participant has exclusive access, and none has entered together with it. */
  ghost predicate Excludes(s: State) {
    forall i, j | 0 <= i < |s.phases| && 0 <= j < |s.phases| && i != j && s.phases[i].Exclusive? ::
      !s.phases[j].Exclusive? && !s.phases[j].Counted()
  }

  lemma InitialFits(n: nat)
    ensures FlagFits(Initial(n)) && CountFits(Initial(n))
  {
    NobodyCounted(Initial(n).phases);
  }

  /** In every state of every run, access is exclusive, and the counter is exact as long as the participants can be
      told. */
  lemma RunExcludes(n: nat, steps: seq<(nat, Wish)>)
    requires n <= WIDTH && Valid(steps, n)
    ensures Excludes(Run(Initial(n), steps))
    ensures n < WIDTH ==> Run(Initial(n), steps).count == Counted(Run(Initial(n), steps).phases)
  {
    var s := Run(Initial(n), steps);
    InitialFits(n);
    RunKeepsBoth(Initial(n), steps);
    NobodyCounted(s.phases);
  }

  // Where it ends: more shared holders than the counter can tell.

  lemma {:induction false} RunInParts(s: State, a: seq<(nat, Wish)>, b: seq<(nat, Wish)>)
    requires Valid(a, |s.phases|) && Valid(b, |s.phases|)
    ensures Run(s, a + b) == Run(Run(s, a), b)
    decreases |a|
  {
    if a == [] {
      assert a + b == b;
    } else {
      assert (a + b)[1..] == a[1..] + b;
      RunInParts(Step(s, a[0].0, a[0].1), a[1..], b);
    }
  }

  /** The first `k` of `n` participants share, the others are idle. */
  function Sharing(n: nat, k: nat): State {
    State(false, k % WIDTH, seq(n, i => if i < k then Shared else Idle))
  }

  function SharedEntry(i: nat): seq<(nat, Wish)> {
    [(i, LockShared), (i, LockShared), (i, LockShared)]
  }

  lemma RunOne(s: State, i: nat, wish: Wish)
    requires i < |s.phases|
    ensures Run(s, [(i, wish)]) == Step(s, i, wish)
  {
    assert [(i, wish)][1..] == [];
  }

  lemma RunTwo(s: State, i: nat, wish: Wish)
    requires i < |s.phases|
    ensures Run(s, [(i, wish), (i, wish)]) == Step(Step(s, i, wish), i, wish)
  {
    assert [(i, wish), (i, wish)] == [(i, wish)] + [(i, wish)];
    RunInParts(s, [(i, wish)], [(i, wish)]);
    RunOne(s, i, wish);
    RunOne(Step(s, i, wish), i, wish);
  }

  lemma RunThree(s: State, i: nat, wish: Wish)
    requires i < |s.phases|
    ensures Run(s, [(i, wish), (i, wish), (i, wish)]) == Step(Step(Step(s, i, wish), i, wish), i, wish)
  {
    assert [(i, wish), (i, wish), (i, wish)] == [(i, wish)] + [(i, wish), (i, wish)];
    RunInParts(s, [(i, wish)], [(i, wish), (i, wish)]);
    RunOne(s, i, wish);
    RunTwo(Step(s, i, wish), i, wish);
  }

  lemma OneMoreShares(n: nat, k: nat)
    requires k < n
    ensures Run(Sharing(n, k), SharedEntry(k)) == Sharing(n, k + 1)
  {
    RunThree(Sharing(n, k), k, LockShared);
    assert Sharing(n, k).phases[k := Entering][k := Leaving][k := Shared] == Sharing(n, k + 1).phases;
    assert (k % WIDTH + 1) % WIDTH == (k + 1) % WIDTH;
  }

  lemma {:induction false} ManyShare(n: nat, k: nat) returns (steps: seq<(nat, Wish)>)
    requires k <= n
    ensures Valid(steps, n) && Run(Initial(n), steps) == Sharing(n, k)
  {
    if k == 0 {
      steps := [];
      assert Initial(n).phases == Sharing(n, 0).phases;
    } else {
      var before := ManyShare(n, k - 1);
      OneMoreShares(n, k - 1);
      RunInParts(Initial(n), before, SharedEntry(k - 1));
      steps := before + SharedEntry(k - 1);
    }
  }

  lemma TooManyShare(n: nat) returns (steps: seq<(nat, Wish)>)
    requires n > WIDTH
    ensures Valid(steps, n) && !Excludes(Run(Initial(n), steps))
  {
    var before := ManyShare(n, WIDTH);
    var s := Sharing(n, WIDTH);
    var lock: seq<(nat, Wish)> := [(WIDTH, Lock), (WIDTH, Lock)];
    RunInParts(Initial(n), before, lock);
    steps := before + lock;
    RunTwo(s, WIDTH, Lock);
    var t := Run(s, lock);
    assert t.phases[WIDTH] == Exclusive && t.phases[0] == Shared;
  }

  /** Access is exclusive in every run exactly when there are at most as many participants as the counter has
      values. */
  lemma ExcludesExactly(n: nat)
    ensures (forall steps | Valid(steps, n) :: Excludes(Run(Initial(n), steps))) <==> n <= WIDTH
  {
    if n <= WIDTH {
      forall steps | Valid(steps, n)
        ensures Excludes(Run(Initial(n), steps))
      {
        RunExcludes(n, steps);
      }
    } else {
      var steps := TooManyShare(n);
    }
  }

  // Without interference.

  /** An attempt for exclusive access succeeds exactly when nobody has entered, and else leaves no trace. */
  lemma LockAlone(s: State, i: nat)
    requires FlagFits(s) && CountFits(s) && |s.phases| <= WIDTH && i < |s.phases| && s.phases[i].Idle? && !s.locked
    ensures var t := Step(Step(s, i, Lock), i, Lock);
            if Counted(s.phases) == 0 then t.phases[i] == Exclusive && Step(t, i, Lock) == s
            else t.phases[i] == BackingOut && Step(t, i, Lock) == s
  {
    NotAllCounted(s.phases, i);
    assert s.phases[i := Checking][i := Exclusive][i := Idle] == s.phases;
    assert s.phases[i := Checking][i := BackingOut][i := Idle] == s.phases;
  }

  lemma EnterSteps(s: State, i: nat)
    requires i < |s.phases| && s.phases[i].Idle? && !s.locked
    ensures Step(Step(Step(s, i, LockShared), i, LockShared), i, LockShared)
         == State(false, (s.count + 1) % WIDTH, s.phases[i := Shared])
  {
    assert s.phases[i := Entering][i := Leaving][i := Shared] == s.phases[i := Shared];
  }

  lemma LeaveStep(s: State, i: nat)
    requires s.count < WIDTH && i < |s.phases| && s.phases[i].Idle? && !s.locked
    ensures Step(State(false, (s.count + 1) % WIDTH, s.phases[i := Shared]), i, LockShared) == s
  {
    assert s.phases[i := Shared][i := Idle] == s.phases;
  }

  /** An attempt for shared access succeeds whoever else shares, and giving it up undoes it. */
  lemma ShareAlone(s: State, i: nat)
    requires s.count < WIDTH && i < |s.phases| && s.phases[i].Idle? && !s.locked
    ensures var t := Run(s, SharedEntry(i));
            t == State(false, (s.count + 1) % WIDTH, s.phases[i := Shared]) && Step(t, i, LockShared) == s
  {
    RunThree(s, i, LockShared);
    EnterSteps(s, i);
    LeaveStep(s, i);
  }
}
