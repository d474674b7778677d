/** Voices and the allocator that places them on a chip. */
module OplVoices {
  import opened Basics
  import opened OplLayout
  import opened OplRegisters
  import opened OplPolicy

  type TwoOpSlots = s: seq<Voice?> | |s| == 18
    witness seq<Voice?>(18, _ => null)
  type FourOpSlots = s: seq<Voice?> | |s| == 6
    witness seq<Voice?>(6, _ => null)

  class Voice {
    const four: bool
    var priority: Priority
    // The voice's own settings, and the shadowing connection field (two bits for a 4-operator voice).
    var channel: ChannelRecord
    var connection: nat
    var ops: seq<OperatorRecord>
    // Where it plays, if anywhere, and when it started and will have faded.
    var owner: Opl?
    var place: nat
    var onTime: Time
    var offTime: Time

    ghost predicate WellFormed()
      reads `ops, `connection, `place
    {
      |ops| == (if four then 4 else 2) && connection < (if four then 4 else 2) && place < Places(four)
    }

    /** What moving a voice takes along besides its place and its channel record. */
    function Settings(): (nat, seq<OperatorRecord>, Priority, Time, Time)
      reads `connection, `ops, `priority, `onTime, `offTime
    {
      (connection, ops, priority, onTime, offTime)
    }

    ghost predicate Names(c: Opl, isFour: bool, n: nat)
      reads `owner, `place
    {
      owner == c && four == isFour && place == n
    }
  }

  /** Some voice has `ch` as its key channel. */
  ghost predicate Keyed(two: TwoOpSlots, four: FourOpSlots, ch: nat)
    requires ch < 18
  {
    two[ch] != null || (Paired(ch) && ch == Primary(PairOf(ch)) && four[PairOf(ch)] != null)
  }

  /** The pairs that are joined once a place has been taken: a 4-operator voice joins its pair, and a 2-operator
      voice splits the one that it is in. */
  function JoinedFor(fourOp: FourOpBits, four: bool, n: nat): FourOpBits
    requires n < Places(four)
  {
    if four then fourOp[n := true] else if Paired(n) then fourOp[PairOf(n) := false] else fourOp
  }

  ghost predicate StayJoined(fourOp: FourOpBits, fourOp': FourOpBits)
  {
    forall k | 0 <= k < 6 && fourOp[k] :: fourOp'[k]
  }

  /** In mode `auto_force`, a pair once joined stays joined, so that 2-operator voices stay out of pairs from then
      on. */
  lemma PairsStayJoined(v: View, q: Request)
    requires v.Ok() && q.now < TIME_MAX && v.mode == AutoForce
    ensures var r := Choose(v, q);
            r.Some? ==> r.value < Places(q.four) && StayJoined(v.joined, JoinedFor(v.joined, q.four, r.value))
  {
    RefusedExactlyWhenOutranked(v, q);
    if !q.four && !v.kind.Opl2? && exists k | 0 <= k < 6 :: v.joined[k] {
      ForceKeepsOutOfPairs(v, q);
    }
  }

  /** The OPL2 has nine channels, and no pairs. */
  predicate Allowed(kind: OplType, four: bool, place: nat)
  {
    place < Places(four) && (kind.Opl2? ==> !four && place < 9)
  }

  /** A joined pair has no 2-operator voices and an unjoined one no 4-operator voice; only a channel that is some
      voice's key channel has its key on. */
  ghost predicate SlotsFit(kind: OplType, fourOp: FourOpBits, channels: ChannelBank, two: TwoOpSlots, four: FourOpSlots)
  {
    && (forall k | 0 <= k < 6 && fourOp[k] :: !kind.Opl2? && two[Primary(k)] == null && two[Secondary(k)] == null)
    && (forall k | 0 <= k < 6 && !fourOp[k] :: four[k] == null)
    && (kind.Opl2? ==> forall n | 9 <= n < 18 :: two[n] == null)
    && (forall ch | 0 <= ch < 18 && KeyOn(channels[ch]) :: Keyed(two, four, ch))
  }

  /** What is at a place. */
  ghost function SlotAt(two: TwoOpSlots, four: FourOpSlots, isFour: bool, place: nat): Voice?
    requires place < Places(isFour)
  {
    if isFour then four[place] else two[place]
  }

  /** The slots differ from the old ones at most in that the place now has `v`. */
  ghost predicate Put(two': TwoOpSlots, four': FourOpSlots, two: TwoOpSlots, four: FourOpSlots,
                      isFour: bool, n: nat, v: Voice?)
  {
    forall f: bool, m: nat | m < Places(f) ::
      SlotAt(two', four', f, m) == if f == isFour && m == n then v else SlotAt(two, four, f, m)
  }

  /** The place now has `v`, every place that overlaps it is empty, and other places are as before. */
  ghost predicate Replaced(two': TwoOpSlots, four': FourOpSlots, two: TwoOpSlots, four: FourOpSlots,
                           isFour: bool, n: nat, v: Voice?)
    requires n < Places(isFour)
  {
    forall f: bool, m: nat | m < Places(f) ::
      SlotAt(two', four', f, m) ==
      if f == isFour && m == n then v else if Overlap(f, m, isFour, n) then null else SlotAt(two, four, f, m)
  }

  ghost function Hardware(chips: set<Opl>): set<BasicOpl>
  {
    set c | c in chips :: c.hw
  }

  /** A slot holds a voice exactly when the voice's owner and place name that slot. */
  ghost predicate Linked(chips: set<Opl>, voices: set<Voice>)
    reads chips`two, chips`four, voices`owner, voices`place, voices`ops, voices`connection
  {
    && (forall c, f: bool, n: nat | c in chips && n < Places(f) && SlotAt(c.two, c.four, f, n) != null ::
          SlotAt(c.two, c.four, f, n) in voices && SlotAt(c.two, c.four, f, n).Names(c, f, n))
    && (forall v | v in voices :: v.WellFormed())
    && (forall v | v in voices && v.owner != null ::
          v.owner in chips && SlotAt(v.owner.two, v.owner.four, v.four, v.place) == v)
  }

  /** `v` sits in the slot that `from` names; all else is linked. */
  ghost predicate LinkedBut(chips: set<Opl>, voices: set<Voice>, v: Voice, from: Voice)
    reads chips`two, chips`four, voices`owner, voices`place, voices`ops, voices`connection, v, from
  {
    && v != from && v.owner == null && v.four == from.four && v.place == from.place
    && (forall c, f: bool, n: nat | c in chips && n < Places(f) && SlotAt(c.two, c.four, f, n) != null ::
          var w := SlotAt(c.two, c.four, f, n);
          w in voices && (if w == v then from.Names(c, f, n) else w != from && w.Names(c, f, n)))
    && (forall w | w in voices :: w.WellFormed())
    && (forall w | w in voices && w.owner != null ::
          w.owner in chips && SlotAt(w.owner.two, w.owner.four, w.four, w.place) == if w == from then v else w)
  }

  /** Each chip is in order. */
  ghost predicate Ordered(chips: set<Opl>)
    reads chips`two, chips`four, Hardware(chips)
  {
    forall c | c in chips :: c.InOrder()
  }

  ghost predicate Separate(chips: set<Opl>)
  {
    forall c, d | c in chips && d in chips && c != d :: c.hw != d.hw
  }

  /** What holds between calls. */
  ghost predicate Inv(chips: set<Opl>, voices: set<Voice>)
    reads chips`two, chips`four, Hardware(chips), voices`owner, voices`place, voices`ops, voices`connection
  {
    Linked(chips, voices) && Ordered(chips) && Separate(chips)
  }

  /** To begin with there are no chips and no voices. */
  lemma NothingYet()
    ensures Inv({}, {})
  {
  }

  /** A new allocator over a chip of its own. */
  lemma ChipAdded(chips: set<Opl>, voices: set<Voice>, c: Opl)
    requires Inv(chips, voices) && c !in chips && c.hw !in Hardware(chips) && c.InOrder()
    requires forall f: bool, n: nat | n < Places(f) :: SlotAt(c.two, c.four, f, n) == null
    ensures Inv(chips + {c}, voices)
  {
  }

  /** A new voice, which is on no chip. */
  lemma VoiceAdded(chips: set<Opl>, voices: set<Voice>, v: Voice)
    requires Inv(chips, voices) && v.WellFormed() && v.owner == null
    ensures Inv(chips, voices + {v})
  {
  }

  /** A voice may go once it is on no chip, and an allocator once no voice is on it. */
  lemma OnlyTheUnusedMayGo(chips: set<Opl>, voices: set<Voice>, c: Opl, v: Voice)
    requires Inv(chips, voices) && c in chips && v in voices
    ensures Inv(chips, voices - {v}) <==> v.owner == null
    ensures Inv(chips - {c}, voices) <==> forall w | w in voices :: w.owner != c
  {
    if v.owner != null {
      assert SlotAt(v.owner.two, v.owner.four, v.four, v.place) == v;
    }
  }

  class Opl {
    const hw: BasicOpl
    var mode: Mode
    var ignorePriority: bool
    var two: TwoOpSlots
    var four: FourOpSlots

    /** The cache agrees with the chip, and the slots fit the records. */
    ghost predicate InOrder()
      reads `two, `four, hw
    {
      hw.Coherent() && SlotsFit(hw.kind, hw.fourOp, hw.channels, two, four)
    }

    ghost function Residents(): set<Voice>
      reads `two, `four
    {
      (set n | 0 <= n < 18 && two[n] != null :: two[n]) + (set k | 0 <= k < 6 && four[k] != null :: four[k])
    }

    /** Every voice in a slot points back at the slot. */
    ghost predicate Mine()
      reads `two, `four, Residents()`owner, Residents()`place, Residents()`ops, Residents()`connection
    {
      forall f: bool, n: nat | n < Places(f) && SlotAt(two, four, f, n) != null ::
        SlotAt(two, four, f, n).WellFormed() && SlotAt(two, four, f, n).Names(this, f, n)
    }

    ghost predicate Sane()
      reads `two, `four, hw, Residents()`owner, Residents()`place, Residents()`ops, Residents()`connection
    {
      InOrder() && Mine()
    }

    /** The voice sits at its place on this chip. */
    ghost predicate Holds(v: Voice)
      reads `two, `four, v`ops, v`connection, v`place
    {
      v.WellFormed() && SlotAt(two, four, v.four, v.place) == v
    }

    /** The voice at a place, as a set. */
    ghost function Resident(isFour: bool, n: nat): set<Voice>
      requires n < Places(isFour)
      reads `two, `four
    {
      var v := SlotAt(two, four, isFour, n);
      if v == null then {} else {v}
    }

    /** The voices that inserting at a place evicts: those at the places it overlaps. */
    ghost function Evicted(isFour: bool, n: nat): set<Voice>
      requires n < Places(isFour)
      reads `two, `four
    {
      Resident(isFour, n)
      + if isFour then Resident(false, Primary(n)) + Resident(false, Secondary(n))
        else if Paired(n) then Resident(true, PairOf(n)) else {}
    }

    /** The voice's settings are what the chip has been given. */
    ghost predicate Plays(v: Voice)
      requires v.WellFormed()
      reads this, hw, v
    {
      && hw.channels[KeyChannel(v.four, v.place)] == v.channel
      && (v.four ==> hw.channels[Secondary(v.place)][0] == WithConnection(v.channel, v.connection / 2)[0])
      && forall i | 0 <= i < |v.ops| :: hw.operators[OperatorSlot(v.four, v.place, i)] == v.ops[i]
    }

    /** A new allocator over a chip with no keys on and no joined pairs. */
    constructor (hw: BasicOpl, mode: Mode, ignorePriority: bool)
      requires hw.Coherent() && (forall k | 0 <= k < 6 :: !hw.fourOp[k])
      requires forall ch | 0 <= ch < 18 :: !KeyOn(hw.channels[ch])
      ensures InOrder() && this.hw == hw && this.mode == mode && this.ignorePriority == ignorePriority
      ensures (forall n | 0 <= n < 18 :: two[n] == null) && (forall k | 0 <= k < 6 :: four[k] == null)
    {
      this.hw := hw;
      this.mode := mode;
      this.ignorePriority := ignorePriority;
      two := seq<Voice?>(18, _ => null);
      four := seq<Voice?>(6, _ => null);
    }

    // ----- Writing a voice to the chip

    method WriteOperators(v: Voice)
      requires v.WellFormed() && hw.Coherent() && Allowed(hw.kind, v.four, v.place)
      modifies hw`index, hw`latch, hw`chip, hw`operators
      ensures hw.Coherent()
      ensures forall i | 0 <= i < |v.ops| :: hw.operators[OperatorSlot(v.four, v.place, i)] == v.ops[i]
      ensures forall s: nat | s < 36 && !Uses(v.four, v.place, s) :: hw.operators[s] == old(hw.operators[s])
    {
      for i := 0 to |v.ops|
        invariant hw.Coherent()
        invariant forall j: nat | j < i :: hw.operators[OperatorSlot(v.four, v.place, j)] == v.ops[j]
        invariant forall s: nat | s < 36 && !Uses(v.four, v.place, s) :: hw.operators[s] == old(hw.operators[s])
      {
        assert Uses(v.four, v.place, OperatorSlot(v.four, v.place, i));
        hw.WriteOperator(v.ops[i], OperatorSlot(v.four, v.place, i));
      }
    }

    /** Write a voice's settings to the operators and channels it owns, and to nothing else. */
    method WriteVoice(v: Voice)
      requires v.WellFormed() && hw.Coherent() && Allowed(hw.kind, v.four, v.place)
      requires !Partial(hw.kind, hw.fourOp, KeyChannel(v.four, v.place))
      requires v.four ==> Partial(hw.kind, hw.fourOp, Secondary(v.place))
      modifies hw`index, hw`latch, hw`chip, hw`operators, hw`channels, hw`strikes, v`channel
      ensures hw.strikes == Struck(old(hw.strikes), KeyChannel(v.four, v.place),
                                   old(hw.channels[KeyChannel(v.four, v.place)]), v.channel)
      ensures hw.Coherent() && Plays(v)
      ensures v.channel == WithConnection(old(v.channel), v.connection % 2)
      ensures hw.channels[KeyChannel(v.four, v.place)][0] % 2 == v.connection % 2
      ensures v.four ==> hw.channels[Secondary(v.place)][0] % 2 == v.connection / 2
      ensures forall s: nat | s < 36 && !Uses(v.four, v.place, s) :: hw.operators[s] == old(hw.operators[s])
      ensures hw.channels == WithVoice(old(hw.channels), v, old(v.channel))
    {
      WriteOperators(v);
      if v.four {
        hw.WriteChannel(WithConnection(v.channel, v.connection / 2), Secondary(v.place));
      }
      v.channel := WithConnection(v.channel, v.connection % 2);
      hw.WriteChannel(v.channel, KeyChannel(v.four, v.place));
    }
  
    // ----- Removing a voice

    method FadeOperators(v: Voice)
      requires v.WellFormed() && hw.Coherent() && Allowed(hw.kind, v.four, v.place)
      modifies hw`index, hw`latch, hw`chip, hw`operators
      ensures hw.Coherent()
      ensures forall s: nat | s < 36 ::
                hw.operators[s] == if Uses(v.four, v.place, s) then FastRelease(old(hw.operators[s]))
                                   else old(hw.operators[s])
    {
      for i := 0 to Operators(v.four)
        invariant hw.Coherent()
        invariant forall s: nat | s < 36 ::
                    hw.operators[s] == if exists j: nat | j < i :: s == OperatorSlot(v.four, v.place, j)
                                       then FastRelease(old(hw.operators[s])) else old(hw.operators[s])
      {
        var s := OperatorSlot(v.four, v.place, i);
        hw.WriteOperator(FastRelease(hw.operators[s]), s);
      }
    }

    /** Key off and fade on the chip, ready for the slot to be emptied. */
    method Silence(v: Voice)
      requires InOrder() && Holds(v)
      modifies hw`index, hw`latch, hw`chip, hw`operators, hw`channels, hw`strikes
      ensures hw.strikes == old(hw.strikes)
      ensures hw.Coherent()
      ensures SlotsFit(hw.kind, hw.fourOp, hw.channels, Vacated(two, v.four, v.place), Vacated(four, !v.four, v.place))
      ensures !KeyOn(hw.channels[KeyChannel(v.four, v.place)])
      ensures forall s: nat | s < 36 && Uses(v.four, v.place, s) :: hw.operators[s] == FastRelease(old(hw.operators[s]))
      ensures KeepsSounds(Vacated(two, v.four, v.place), Vacated(four, !v.four, v.place),
                          old(hw.operators), old(hw.channels), hw.operators, hw.channels)
    {
      var key := KeyChannel(v.four, v.place);
      RemovalFits(hw.kind, hw.fourOp, hw.channels, two, four, v.four, v.place);
      hw.WriteChannel(WithKey(hw.channels[key], false), key);
      FadeOperators(v);
      ChangeKeepsOtherSounds(hw.kind, hw.fourOp, two, four, v.four, v.place,
                             old(hw.operators), old(hw.channels), hw.operators, hw.channels);
    }

    /** Take a voice off the chip: its key goes off, its operators fade, and its slot and owner are cleared. */
    method Remove(v: Voice)
      requires Sane() && v.owner == this && Holds(v)
      modifies `two, `four, v`owner, hw`index, hw`latch, hw`chip, hw`operators, hw`channels, hw`strikes
      ensures hw.strikes == old(hw.strikes)
      ensures Sane() && v.owner == null
      ensures Put(two, four, old(two), old(four), v.four, v.place, null)
      ensures !KeyOn(hw.channels[KeyChannel(v.four, v.place)])
      ensures forall s: nat | s < 36 && Uses(v.four, v.place, s) :: hw.operators[s] == old(hw.operators[s])[3 := 0xff]
      ensures KeepsSounds(two, four, old(hw.operators), old(hw.channels), hw.operators, hw.channels)
    {
      Silence(v);
      if v.four {
        four := four[v.place := null];
      } else {
        two := two[v.place := null];
      }
      v.owner := null;
      assert Put(two, four, old(two), old(four), v.four, v.place, null);
    }

    /** Take off whatever voice is at a place. */
    method RemoveAt(isFour: bool, n: nat)
      requires Sane() && n < Places(isFour)
      modifies `two, `four, Resident(isFour, n)`owner
      modifies hw`index, hw`latch, hw`chip, hw`operators, hw`channels, hw`strikes
      ensures hw.strikes == old(hw.strikes)
      ensures Sane()
      ensures Put(two, four, old(two), old(four), isFour, n, null)
      ensures SlotAt(old(two), old(four), isFour, n) != null ==> SlotAt(old(two), old(four), isFour, n).owner == null
      ensures KeepsSounds(two, four, old(hw.operators), old(hw.channels), hw.operators, hw.channels)
    {
      var v := if isFour then four[n] else two[n];
      if v != null {
        Remove(v);
      }
    }

    // ----- Inserting a voice

    /** Join or split a pair that has no voices of the wrong kind. */
    method JoinPair(k: nat, on: bool)
      requires Sane() && k < 6
      requires on ==> !hw.kind.Opl2? && SlotAt(two, four, false, Primary(k)) == null
                      && SlotAt(two, four, false, Secondary(k)) == null
      requires !on ==> SlotAt(two, four, true, k) == null
      modifies hw`index, hw`latch, hw`chip, hw`fourOp
      ensures Sane() && hw.fourOp == old(hw.fourOp)[k := on]
    {
      hw.SetFourOp(k, on);
    }

    method RemoveHalves(n: nat)
      requires Sane() && n < 6
      modifies `two, `four, Resident(false, Primary(n))`owner, Resident(false, Secondary(n))`owner
      modifies hw`index, hw`latch, hw`chip, hw`operators, hw`channels, hw`strikes
      ensures hw.strikes == old(hw.strikes)
      ensures Sane()
      ensures forall f: bool, m: nat | m < Places(f) ::
                SlotAt(two, four, f, m) ==
                if !f && (m == Primary(n) || m == Secondary(n)) then null else SlotAt(old(two), old(four), f, m)
      ensures forall w | w in old(Resident(false, Primary(n)) + Resident(false, Secondary(n))) :: w.owner == null
      ensures KeepsSounds(two, four, old(hw.operators), old(hw.channels), hw.operators, hw.channels)
    {
      RemoveAt(false, Primary(n));
      RemoveAt(false, Secondary(n));
    }

    /** Evict the 4-operator voice at a pair and the 2-operator voices on both halves, and join the pair. */
    method MakeRoomForFour(n: nat)
      requires Sane() && n < 6 && !hw.kind.Opl2?
      modifies `two, `four, Evicted(true, n)`owner
      modifies hw`index, hw`latch, hw`chip, hw`operators, hw`channels, hw`strikes, hw`fourOp
      ensures hw.strikes == old(hw.strikes)
      ensures Sane() && hw.fourOp == old(hw.fourOp)[n := true]
      ensures Replaced(two, four, old(two), old(four), true, n, null)
      ensures forall w | w in old(Evicted(true, n)) :: w.owner == null
      ensures KeepsSounds(two, four, old(hw.operators), old(hw.channels), hw.operators, hw.channels)
    {
      RemoveAt(true, n);
      RemoveHalves(n);
      JoinPair(n, true);
    }

    /** Evict the 2-operator voice at a channel and the 4-operator voice on its pair, and split the pair. */
    method MakeRoomForTwo(n: nat)
      requires Sane() && n < 18
      modifies `two, `four, Evicted(false, n)`owner
      modifies hw`index, hw`latch, hw`chip, hw`operators, hw`channels, hw`strikes, hw`fourOp
      ensures hw.strikes == old(hw.strikes)
      ensures Sane() && hw.fourOp == JoinedFor(old(hw.fourOp), false, n)
      ensures Replaced(two, four, old(two), old(four), false, n, null)
      ensures forall w | w in old(Evicted(false, n)) :: w.owner == null
      ensures KeepsSounds(two, four, old(hw.operators), old(hw.channels), hw.operators, hw.channels)
    {
      RemoveAt(false, n);
      if !hw.kind.Opl2? && Paired(n) {
        RemoveAt(true, PairOf(n));
        JoinPair(PairOf(n), false);
      }
    }

    method MakeRoom(isFour: bool, n: nat)
      requires Sane() && Allowed(hw.kind, isFour, n)
      modifies `two, `four, Evicted(isFour, n)`owner
      modifies hw`index, hw`latch, hw`chip, hw`operators, hw`channels, hw`strikes, hw`fourOp
      ensures hw.strikes == old(hw.strikes)
      ensures Sane() && Replaced(two, four, old(two), old(four), isFour, n, null)
      ensures hw.fourOp == JoinedFor(old(hw.fourOp), isFour, n)
      ensures forall w | w in old(Evicted(isFour, n)) :: w.owner == null
      ensures KeepsSounds(two, four, old(hw.operators), old(hw.channels), hw.operators, hw.channels)
    {
      if isFour {
        MakeRoomForFour(n);
      } else {
        MakeRoomForTwo(n);
      }
    }

    method Link(v: Voice, n: nat)
      requires Sane() && v.owner == null && v.WellFormed()
      requires Allowed(hw.kind, v.four, n) && SlotAt(two, four, v.four, n) == null
      requires v.four ==> hw.fourOp[n]
      requires !v.four && Paired(n) ==> !hw.fourOp[PairOf(n)]
      modifies `two, `four, v`owner, v`place
      ensures Sane() && v.owner == this && v.place == n && Holds(v)
      ensures Put(two, four, old(two), old(four), v.four, n, v)
    {
      if v.four {
        four := four[n := v];
      } else {
        two := two[n := v];
      }
      v.place := n;
      v.owner := this;
      assert Put(two, four, old(two), old(four), v.four, n, v);
    }

    /** Write a voice with its key on or off. */
    method Rewrite(v: Voice, key: bool)
      requires InOrder() && Holds(v)
      modifies v`channel, hw`index, hw`latch, hw`chip, hw`operators, hw`channels, hw`strikes
      ensures hw.strikes == Struck(old(hw.strikes), KeyChannel(v.four, v.place),
                                   old(hw.channels[KeyChannel(v.four, v.place)]), v.channel)
      ensures InOrder() && Plays(v)
      ensures v.channel == WithConnection(WithKey(old(v.channel), key), v.connection % 2)
      ensures OnlyAt(v.four, v.place, old(hw.operators), old(hw.channels), hw.operators, hw.channels)
    {
      v.channel := WithKey(v.channel, key);
      WritingFits(hw.kind, hw.fourOp, hw.channels, WithVoice(hw.channels, v, v.channel), two, four, v.four, v.place);
      WriteVoice(v);
    }

    /** Key on at the current place. `off` is the estimate of when the sound will have faded. */
    method Start(v: Voice, now: Time, off: Time)
      requires Sane() && Holds(v)
      modifies v`channel, v`onTime, v`offTime, hw`index, hw`latch, hw`chip, hw`operators, hw`channels, hw`strikes
      ensures hw.strikes == Struck(old(hw.strikes), KeyChannel(v.four, v.place),
                                   old(hw.channels[KeyChannel(v.four, v.place)]), v.channel)
      ensures Sane() && Plays(v)
      ensures v.channel == WithConnection(WithKey(old(v.channel), true), v.connection % 2)
      ensures v.onTime == now && v.offTime == off
      ensures KeepsOtherSounds(v.four, v.place, two, four,
                               old(hw.operators), old(hw.channels), hw.operators, hw.channels)
    {
      Rewrite(v, true);
      ChangeKeepsOtherSounds(hw.kind, hw.fourOp, two, four, v.four, v.place,
                             old(hw.operators), old(hw.channels), hw.operators, hw.channels);
      v.onTime := now;
      v.offTime := off;
    }

    // ----- The same for all chips and voices

    static ghost function Chip(v: Voice): set<Opl>
      reads v`owner
    {
      if v.owner == null then {} else {v.owner}
    }

    /** Take a voice off whatever chip it is on. */
    static method Detach(v: Voice, ghost chips: set<Opl>, ghost voices: set<Voice>)
      requires Inv(chips, voices) && v in voices
      modifies Chip(v)`two, Chip(v)`four, v`owner
      modifies Hardware(Chip(v))
      ensures Inv(chips, voices) && v.owner == null
      ensures forall w | w in voices && w != v :: w.owner == old(w.owner)
      ensures old(v.owner) != null ==>
                var c := old(v.owner);
                && Put(c.two, c.four, old(c.two), old(c.four), v.four, v.place, null)
                && KeepsSounds(c.two, c.four, old(c.hw.operators), old(c.hw.channels), c.hw.operators, c.hw.channels)
    {
      if v.owner != null {
        v.owner.Remove(v);
      }
    }

    /** Evict every voice that overlaps a place, and join or split the pair. */
    method Evict(isFour: bool, n: nat, ghost chips: set<Opl>, ghost voices: set<Voice>)
      requires Inv(chips, voices) && this in chips && Allowed(hw.kind, isFour, n)
      modifies `two, `four, Evicted(isFour, n)`owner
      modifies hw`index, hw`latch, hw`chip, hw`operators, hw`channels, hw`strikes, hw`fourOp
      ensures hw.strikes == old(hw.strikes)
      ensures Inv(chips, voices) && Replaced(two, four, old(two), old(four), isFour, n, null)
      ensures hw.fourOp == JoinedFor(old(hw.fourOp), isFour, n)
      ensures forall w | w in voices :: w.owner ==
                if old(w.owner) == this && Overlap(w.four, w.place, isFour, n) then null else old(w.owner)
      ensures KeepsSounds(two, four, old(hw.operators), old(hw.channels), hw.operators, hw.channels)
    {
      EvictedAreThoseOverlapping(chips, voices, this, isFour, n);
      ghost var evicted := Evicted(isFour, n);
      MakeRoomOnly(isFour, n, chips);
      forall c, f: bool, m: nat | c in chips && m < Places(f) && SlotAt(c.two, c.four, f, m) != null
        ensures SlotAt(c.two, c.four, f, m) in voices && SlotAt(c.two, c.four, f, m).Names(c, f, m)
      {
        assert SlotAt(c.two, c.four, f, m) == SlotAt(old(c.two), old(c.four), f, m);
        assert SlotAt(c.two, c.four, f, m) !in evicted;
      }
    }

    method MakeRoomOnly(isFour: bool, n: nat, ghost chips: set<Opl>)
      requires Ordered(chips) && Separate(chips) && this in chips && Mine() && Allowed(hw.kind, isFour, n)
      modifies `two, `four, Evicted(isFour, n)`owner
      modifies hw`index, hw`latch, hw`chip, hw`operators, hw`channels, hw`strikes, hw`fourOp
      ensures Ordered(chips) && Replaced(two, four, old(two), old(four), isFour, n, null)
      ensures hw.strikes == old(hw.strikes) && hw.fourOp == JoinedFor(old(hw.fourOp), isFour, n)
      ensures forall w | w in old(Evicted(isFour, n)) :: w.owner == null
      ensures KeepsSounds(two, four, old(hw.operators), old(hw.channels), hw.operators, hw.channels)
    {
      MakeRoom(isFour, n);
    }

    method LinkOnly(v: Voice, n: nat, ghost chips: set<Opl>, ghost voices: set<Voice>)
      requires Inv(chips, voices) && this in chips && v in voices && v.owner == null
      requires Allowed(hw.kind, v.four, n) && SlotAt(two, four, v.four, n) == null
      requires v.four ==> hw.fourOp[n]
      requires !v.four && Paired(n) ==> !hw.fourOp[PairOf(n)]
      modifies `two, `four, v`owner, v`place
      ensures Inv(chips, voices) && v.owner == this && v.place == n
      ensures Put(two, four, old(two), old(four), v.four, n, v)
    {
      Link(v, n);
    }

    /** Take a voice from wherever it plays and start it at a place here. The voices evicted are exactly those that
        share an operator with it; every other voice keeps its owner and its sound. */
    method InsertAt(n: nat, v: Voice, now: Time, off: Time, ghost chips: set<Opl>, ghost voices: set<Voice>)
      requires Inv(chips, voices) && this in chips && v in voices && v.owner != this
      requires Allowed(hw.kind, v.four, n)
      modifies `two, `four, v`owner, v`place, v`channel, v`onTime, v`offTime, Evicted(v.four, n)`owner
      modifies Chip(v)`two, Chip(v)`four, Hardware(Chip(v) + {this})
      ensures v.place == n && StruckOnce(v, old(hw.strikes), hw.strikes)
      ensures Inv(chips, voices)
      ensures hw.fourOp == JoinedFor(old(hw.fourOp), v.four, n)
      ensures v.owner == this && v.place == n && Plays(v) && KeyOn(v.channel) && v.onTime == now && v.offTime == off
      ensures forall w | w in voices && w != v :: w.owner ==
                if old(w.owner) == this && Overlap(w.four, w.place, v.four, n) then null else old(w.owner)
      ensures KeepsOtherSounds(v.four, n, two, four, old(hw.operators), old(hw.channels), hw.operators, hw.channels)
      ensures old(v.owner) != null ==>
                var c := old(v.owner);
                KeepsSounds(c.two, c.four, old(c.hw.operators), old(c.hw.channels), c.hw.operators, c.hw.channels)
    {
      Fetch(v, chips, voices);
      Take(n, v, now, off, chips, voices);
    }

    /** Take a voice off another chip, if it is on one. */
    method Fetch(v: Voice, ghost chips: set<Opl>, ghost voices: set<Voice>)
      requires Inv(chips, voices) && this in chips && v in voices && v.owner != this
      modifies Chip(v)`two, Chip(v)`four, v`owner
      modifies Hardware(Chip(v))
      ensures hw.strikes == old(hw.strikes)
      ensures Inv(chips, voices) && v.owner == null && two == old(two) && four == old(four)
      ensures hw.operators == old(hw.operators) && hw.channels == old(hw.channels) && hw.fourOp == old(hw.fourOp)
      ensures forall w | w in voices && w != v :: w.owner == old(w.owner)
      ensures old(v.owner) != null ==>
                var c := old(v.owner);
                KeepsSounds(c.two, c.four, old(c.hw.operators), old(c.hw.channels), c.hw.operators, c.hw.channels)
    {
      Detach(v, chips, voices);
    }

    /** Start an unowned voice at a place. */
    method Take(n: nat, v: Voice, now: Time, off: Time, ghost chips: set<Opl>, ghost voices: set<Voice>)
      requires Inv(chips, voices) && this in chips && v in voices && v.owner == null
      requires Allowed(hw.kind, v.four, n)
      modifies `two, `four, v`owner, v`place, v`channel, v`onTime, v`offTime, Evicted(v.four, n)`owner, hw
      ensures v.place == n && StruckOnce(v, old(hw.strikes), hw.strikes)
      ensures Inv(chips, voices)
      ensures hw.fourOp == JoinedFor(old(hw.fourOp), v.four, n)
      ensures v.owner == this && v.place == n && Plays(v) && KeyOn(v.channel) && v.onTime == now && v.offTime == off
      ensures forall w | w in voices && w != v :: w.owner ==
                if old(w.owner) == this && Overlap(w.four, w.place, v.four, n) then null else old(w.owner)
      ensures KeepsOtherSounds(v.four, n, two, four, old(hw.operators), old(hw.channels), hw.operators, hw.channels)
    {
      Evict(v.four, n, chips, voices);
      Begin(n, v, now, off, chips, voices);
    }

    /** Put an unowned voice in an empty slot of the right kind and start it. */
    method Begin(n: nat, v: Voice, now: Time, off: Time, ghost chips: set<Opl>, ghost voices: set<Voice>)
      requires Inv(chips, voices) && this in chips && v in voices && v.owner == null
      requires Allowed(hw.kind, v.four, n) && SlotAt(two, four, v.four, n) == null
      requires v.four ==> hw.fourOp[n]
      requires !v.four && Paired(n) ==> !hw.fourOp[PairOf(n)]
      modifies `two, `four, v`owner, v`place, v`channel, v`onTime, v`offTime
      modifies hw`index, hw`latch, hw`chip, hw`operators, hw`channels, hw`strikes
      ensures v.place == n && StruckOnce(v, old(hw.strikes), hw.strikes)
      ensures Inv(chips, voices)
      ensures v.owner == this && v.place == n && Plays(v) && KeyOn(v.channel) && v.onTime == now && v.offTime == off
      ensures Put(two, four, old(two), old(four), v.four, n, v)
      ensures KeepsOtherSounds(v.four, n, two, four, old(hw.operators), old(hw.channels), hw.operators, hw.channels)
    {
      LinkOnly(v, n, chips, voices);
      StartOnly(v, now, off, chips, voices);
    }

    method StartOnly(v: Voice, now: Time, off: Time, ghost chips: set<Opl>, ghost voices: set<Voice>)
      requires Inv(chips, voices) && this in chips && v in voices && v.owner == this
      modifies v`channel, v`onTime, v`offTime, hw`index, hw`latch, hw`chip, hw`operators, hw`channels, hw`strikes
      ensures hw.strikes == Struck(old(hw.strikes), KeyChannel(v.four, v.place),
                                   old(hw.channels[KeyChannel(v.four, v.place)]), v.channel)
      ensures Inv(chips, voices) && Plays(v)
      ensures v.channel == WithConnection(WithKey(old(v.channel), true), v.connection % 2)
      ensures v.onTime == now && v.offTime == off
      ensures KeepsOtherSounds(v.four, v.place, two, four,
                               old(hw.operators), old(hw.channels), hw.operators, hw.channels)
    {
      Start(v, now, off);
    }

    // ----- Choosing a place

    /** The snapshot that the policy is about. */
    ghost function Snapshot(): View
      reads this, hw, Residents()
    {
      View(hw.kind, mode, ignorePriority, SeenAll(two), SeenAll(four), hw.fourOp)
    }

    lemma SnapshotIsOk()
      requires Sane()
      ensures Snapshot().Ok()
    {
    }

    /** Who would make room at a place, from the voices themselves. */
    method Probe(place: nat, q: Request, ghost view: View) returns (p: Probe)
      requires view == Snapshot() && view.Ok() && place < Places(q.four)
      ensures p == ProbeOf(view, q, place)
    {
      if !q.four {
        var v := if Paired(place) && hw.fourOp[PairOf(place)] then four[PairOf(place)] else two[place];
        return if v == null then Vacant else Taken(Candidate(place, v.priority, v.onTime, v.offTime));
      }
      if hw.fourOp[place] {
        var v := four[place];
        return if v == null then Vacant else Taken(Candidate(place, v.priority, v.onTime, v.offTime));
      }
      var a, b := two[Primary(place)], two[Secondary(place)];
      if a == null && b == null {
        return Vacant;
      } else if a == null {
        return Taken(Candidate(place, b.priority, b.onTime, b.offTime));
      } else if b == null {
        return Taken(Candidate(place, a.priority, a.onTime, a.offTime));
      }
      var aOn, bOn := q.now < a.offTime, q.now < b.offTime;
      p := Taken(Candidate(place, MaxOfPair(aOn, bOn, a.priority, b.priority),
                           MaxOfPair(aOn, bOn, a.onTime, b.onTime), Max(a.offTime, b.offTime)));
    }

    /** Examine places in turn, stopping at a vacant one. */
    method SearchIn(order: seq<nat>, q: Request, start: Best, ghost view: View) returns (s: Search)
      requires view == Snapshot() && view.Ok() && ArePlaces(order, q.four)
      ensures s == Scan(view, q, order, start)
    {
      var best := start;
      for i := 0 to |order|
        invariant Scan(view, q, order[..i], start) == Going(best)
      {
        var p := Probe(order[i], q, view);
        ScanOneMore(view, q, order, i, start);
        if p.Vacant? {
          return Found(order[i]);
        }
        best := Consider(best, p.c, q, ignorePriority);
      }
      assert order[..|order|] == order;
      s := Going(best);
    }

    /** Examine a pair of channels for a 2-operator voice: once when joined, else both halves. */
    method SearchPair(k: nat, q: Request, start: Best, ghost view: View) returns (s: Search)
      requires view == Snapshot() && view.Ok() && !q.four && k < 6
      ensures ArePlaces(PairPlaces(view, k), false) && s == Scan(view, q, PairPlaces(view, k), start)
    {
      var order := if hw.fourOp[k] then [Primary(k)] else [Primary(k), Secondary(k)];
      assert order == PairPlaces(view, k);
      s := SearchIn(order, q, start, view);
    }

    /** Examine the pairs of channels in turn, stopping at a vacant place. */
    method SearchPairs(q: Request, start: Best, ghost view: View) returns (s: Search)
      requires view == Snapshot() && view.Ok() && !q.four
      ensures ArePlaces(PairOrder(view, 6), false) && s == Scan(view, q, PairOrder(view, 6), start)
    {
      s := Going(start);
      var k := 0;
      while k < 6 && s.Going?
        invariant k <= 6 && ArePlaces(PairOrder(view, k), false)
        invariant s.Going? ==> Scan(view, q, PairOrder(view, k), start) == s
        invariant s.Found? ==> ArePlaces(PairOrder(view, 6), false) && Scan(view, q, PairOrder(view, 6), start) == s
      {
        ScanOnePairMore(view, q, k, start);
        s := SearchPair(k, q, s.best, view);
        k := k + 1;
      }
    }

    /** The place for a newcomer, by searching the slots in the order that the chip and the mode prescribe. */
    method ChoosePlace(q: Request, ghost view: View) returns (r: Option<nat>)
      requires view == Snapshot() && view.Ok()
      ensures r == Choose(view, q)
    {
      if hw.kind.Opl2? {
        if q.four {
          return None;
        }
        var s := SearchIn(OPL2_ORDER, q, NONE_YET, view);
        return Result(s);
      }
      if q.four {
        var s := SearchIn(FOUR_ORDER, q, NONE_YET, view);
        return Result(s);
      }
      r := ChooseForTwo(q, view);
    }

    method ChooseForTwo(q: Request, ghost view: View) returns (r: Option<nat>)
      requires view == Snapshot() && view.Ok() && !hw.kind.Opl2? && !q.four
      ensures r == Choose(view, q)
    {
      var s := SearchIn(UNPAIRED, q, NONE_YET, view);
      if s.Found? {
        return Some(s.place);
      }
      var anyJoined := exists k | 0 <= k < 6 :: hw.fourOp[k];
      assert anyJoined == view.AnyJoined();
      match mode {
        case Force =>
          return s.best.place;
        case AutoForce =>
          if anyJoined {
            return s.best.place;
          }
        case Yes =>
          if q.now >= s.best.off {
            return s.best.place;
          }
        case Automatic =>
          if anyJoined && q.now >= s.best.off {
            return s.best.place;
          }
        case No =>
      }
      s := SearchPairs(q, s.best, view);
      r := Result(s);
    }

    /** Write only a voice's key channel, with the key off. */
    method KeyOff(v: Voice)
      requires InOrder() && Holds(v)
      modifies v`channel, hw`index, hw`latch, hw`chip, hw`channels, hw`strikes
      ensures hw.strikes == old(hw.strikes)
      ensures InOrder() && v.channel == WithKey(old(v.channel), false)
      ensures hw.channels[KeyChannel(v.four, v.place)] == v.channel
      ensures OnlyAt(v.four, v.place, old(hw.operators), old(hw.channels), hw.operators, hw.channels)
    {
      v.channel := WithKey(v.channel, false);
      hw.WriteChannel(v.channel, KeyChannel(v.four, v.place));
    }

    /** Key off at the place a voice already has. */
    method Release(v: Voice, ghost chips: set<Opl>, ghost voices: set<Voice>)
      requires Inv(chips, voices) && this in chips && v in voices && v.owner == this
      modifies v`channel, hw`index, hw`latch, hw`chip, hw`channels, hw`strikes
      ensures hw.strikes == old(hw.strikes)
      ensures Inv(chips, voices)
      ensures hw.channels[KeyChannel(v.four, v.place)] == v.channel
      ensures v.channel == WithKey(old(v.channel), false)
      ensures KeepsOtherSounds(v.four, v.place, two, four,
                               old(hw.operators), old(hw.channels), hw.operators, hw.channels)
    {
      KeyOff(v);
      ChangeKeepsOtherSounds(hw.kind, hw.fourOp, two, four, v.four, v.place,
                             old(hw.operators), old(hw.channels), hw.operators, hw.channels);
    }

    /** Strike again a voice that has a place. */
    method Strike(v: Voice, onTime: Time, off: Time, ghost chips: set<Opl>, ghost voices: set<Voice>)
      requires Inv(chips, voices) && this in chips && v in voices && v.owner == this
      modifies v`channel, v`onTime, v`offTime, hw`index, hw`latch, hw`chip, hw`operators, hw`channels, hw`strikes
      ensures if old(Muffled(v)) then hw.strikes == old(hw.strikes) else StruckOnce(v, old(hw.strikes), hw.strikes)
      ensures Inv(chips, voices)
      ensures Plays(v) && KeyOn(v.channel) && v.onTime == onTime && v.offTime == off
      ensures KeepsOtherSounds(v.four, v.place, two, four,
                               old(hw.operators), old(hw.channels), hw.operators, hw.channels)
    {
      if KeyOn(v.channel) {
        Release(v, chips, voices);
      }
      StartOnly(v, onTime, off, chips, voices);
    }

    /** What inserting a voice from elsewhere must do: nothing if the policy finds no place, else put it there and
        evict exactly the voices of this chip that it overlaps. */
    twostate predicate InsertedAsChosen(v: Voice, view: View, now: Time, placed: bool, voices: set<Voice>)
      requires view.Ok()
      reads v, voices
    {
      match Choose(view, Request(v.four, old(v.priority), now))
      case None => !placed && forall w | w in voices :: w.owner == old(w.owner)
      case Some(n) =>
        && placed && n < Places(v.four) && v.place == n && v.owner == this
        && forall w | w in voices && w != v && w.place < Places(w.four) :: w.owner ==
             if old(w.owner) == this && Overlap(w.four, w.place, v.four, n) then null else old(w.owner)
    }

    /** The place the policy chooses, and what is known of the voices that would be evicted. */
    method Pick(q: Request, ghost view: View, ghost chips: set<Opl>, ghost voices: set<Voice>) returns (r: Option<nat>)
      requires Inv(chips, voices) && this in chips && q.now < TIME_MAX && view == Snapshot() && view.Ok()
      ensures r == Choose(view, q)
      ensures r.Some? ==> Allowed(hw.kind, q.four, r.value)
      ensures r.Some? && !ignorePriority ==>
                forall w | w in voices && w.owner == this && Overlap(w.four, w.place, q.four, r.value) ::
                  w.offTime <= q.now || w.priority <= q.priority
    {
      RefusedExactlyWhenOutranked(view, q);
      r := ChoosePlace(q, view);
      if r.Some? {
        EvictedAreNotOutranking(chips, voices, this, q, r.value);
      }
    }

    /** The voice's own key is off, but the chip's is on. */
    ghost predicate Muffled(v: Voice)
      requires v.WellFormed()
      reads hw`channels, v
    {
      KeyOn(hw.channels[KeyChannel(v.four, v.place)]) && !KeyOn(v.channel)
    }

    /** The chip has struck the voice once more, and no other. */
    ghost predicate StruckOnce(v: Voice, strikes: StrikeCounts, strikes': StrikeCounts)
      requires v.place < Places(v.four)
      reads v`place
    {
      var key := KeyChannel(v.four, v.place);
      strikes' == strikes[key := strikes[key] + 1]
    }

    /** Play a voice that is not on this chip. */
    method InsertNew(v: Voice, now: Time, onTime: Time, off: Time, ghost view: View,
                     ghost chips: set<Opl>, ghost voices: set<Voice>)
      returns (placed: bool)
      requires Inv(chips, voices) && this in chips && v in voices && v.owner != this && now < TIME_MAX
      requires view == Snapshot() && view.Ok()
      modifies `two, `four, v`owner, v`place, v`channel, v`onTime, v`offTime, Residents()`owner
      modifies Chip(v)`two, Chip(v)`four, Hardware(Chip(v) + {this})
      ensures placed ==> v.place < Places(v.four) && StruckOnce(v, old(hw.strikes), hw.strikes)
      ensures !placed ==> hw.strikes == old(hw.strikes)
      ensures Inv(chips, voices)
      ensures hw.fourOp == if placed then JoinedFor(old(hw.fourOp), v.four, v.place) else old(hw.fourOp)
      ensures placed ==> Plays(v) && KeyOn(v.channel) && v.onTime == onTime && v.offTime == off
      ensures placed ==> KeepsOtherSounds(v.four, v.place, two, four,
                                          old(hw.operators), old(hw.channels), hw.operators, hw.channels)
      ensures InsertedAsChosen(v, view, now, placed, voices)
      ensures forall w | w in voices && w != v && w.owner != old(w.owner) && !ignorePriority ::
                w.offTime <= now || w.priority <= v.priority
      ensures old(v.owner) != null ==>
                var c := old(v.owner);
                KeepsSounds(c.two, c.four, old(c.hw.operators), old(c.hw.channels), c.hw.operators, c.hw.channels)
    {
      var place := Pick(Request(v.four, v.priority, now), view, chips, voices);
      placed := place.Some?;
      if placed {
        Place(place.value, v, onTime, off, chips, voices);
      }
    }

    method Place(n: nat, v: Voice, onTime: Time, off: Time, ghost chips: set<Opl>, ghost voices: set<Voice>)
      requires Inv(chips, voices) && this in chips && v in voices && v.owner != this
      requires Allowed(hw.kind, v.four, n)
      modifies `two, `four, v`owner, v`place, v`channel, v`onTime, v`offTime, Residents()`owner
      modifies Chip(v)`two, Chip(v)`four, Hardware(Chip(v) + {this})
      ensures v.place == n && StruckOnce(v, old(hw.strikes), hw.strikes)
      ensures Inv(chips, voices)
      ensures hw.fourOp == JoinedFor(old(hw.fourOp), v.four, n)
      ensures v.owner == this && v.place == n && Plays(v) && KeyOn(v.channel) && v.onTime == onTime && v.offTime == off
      ensures forall w | w in voices && w != v :: w.owner ==
                if old(w.owner) == this && Overlap(w.four, w.place, v.four, n) then null else old(w.owner)
      ensures KeepsOtherSounds(v.four, n, two, four, old(hw.operators), old(hw.channels), hw.operators, hw.channels)
      ensures old(v.owner) != null ==>
                var c := old(v.owner);
                KeepsSounds(c.two, c.four, old(c.hw.operators), old(c.hw.channels), c.hw.operators, c.hw.channels)
    {
      EvictedAreResidents(v.four);
      InsertAt(n, v, onTime, off, chips, voices);
    }

    /** Play a voice on this chip: strike it again if it is here already, and otherwise find it a place. */
    method Insert(v: Voice, now: Time, onTime: Time, off: Time, ghost chips: set<Opl>, ghost voices: set<Voice>)
      returns (placed: bool)
      requires Inv(chips, voices) && this in chips && v in voices && now < TIME_MAX
      modifies `two, `four, v`owner, v`place, v`channel, v`onTime, v`offTime, Residents()`owner
      modifies Chip(v)`two, Chip(v)`four, Hardware(Chip(v) + {this})
      ensures placed ==>
                v.place < Places(v.four)
                && if old(v.owner) == this && old(Muffled(v)) then hw.strikes == old(hw.strikes)
                   else StruckOnce(v, old(hw.strikes), hw.strikes)
      ensures !placed ==> hw.strikes == old(hw.strikes)
      ensures Inv(chips, voices)
      ensures hw.fourOp == if placed && old(v.owner) != this then JoinedFor(old(hw.fourOp), v.four, v.place)
                           else old(hw.fourOp)
      ensures placed ==> Plays(v) && KeyOn(v.channel) && v.onTime == onTime && v.offTime == off
      ensures placed ==> KeepsOtherSounds(v.four, v.place, two, four,
                                          old(hw.operators), old(hw.channels), hw.operators, hw.channels)
      ensures old(Snapshot().Ok())
      ensures forall w | w in voices && w != v && w.owner != old(w.owner) && !ignorePriority ::
                w.offTime <= now || w.priority <= v.priority
      ensures if old(v.owner) == this
              then placed && v.place == old(v.place) && forall w | w in voices :: w.owner == old(w.owner)
              else InsertedAsChosen(v, old(Snapshot()), now, placed, voices)
      ensures old(v.owner) != null && old(v.owner) != this ==>
                var c := old(v.owner);
                KeepsSounds(c.two, c.four, old(c.hw.operators), old(c.hw.channels), c.hw.operators, c.hw.channels)
    {
      SnapshotIsOk();
      if v.owner == this {
        Strike(v, onTime, off, chips, voices);
        placed := true;
      } else {
        placed := InsertNew(v, now, onTime, off, Snapshot(), chips, voices);
      }
    }

    lemma EvictedAreResidents(isFour: bool)
      ensures forall n | 0 <= n < Places(isFour) :: Evicted(isFour, n) <= Residents()
    {
    }

    // ----- Stopping, updating, moving and destroying voices

    /** Key off. A voice that was on fades no later than it would have done anyway. */
    method Stop(v: Voice, off: Time, ghost chips: set<Opl>, ghost voices: set<Voice>)
      requires Inv(chips, voices) && this in chips && v in voices && v.owner == this
      modifies v`channel, v`offTime, hw`index, hw`latch, hw`chip, hw`operators, hw`channels, hw`strikes
      ensures hw.strikes == old(hw.strikes)
      ensures Inv(chips, voices) && Plays(v) && !KeyOn(v.channel)
      ensures v.offTime == if old(KeyOn(v.channel)) && off < old(v.offTime) then off else old(v.offTime)
      ensures KeepsOtherSounds(v.four, v.place, two, four,
                               old(hw.operators), old(hw.channels), hw.operators, hw.channels)
    {
      var wasOn := KeyOn(v.channel);
      RewriteOnly(v, false, chips, voices);
      if wasOn && off < v.offTime {
        v.offTime := off;
      }
    }

    /** Send the current settings to the chip without touching the key, neither the chip's nor the voice's. */
    method Update(v: Voice, ghost chips: set<Opl>, ghost voices: set<Voice>)
      requires Inv(chips, voices) && this in chips && v in voices && v.owner == this
      modifies v`channel, hw`index, hw`latch, hw`chip, hw`operators, hw`channels, hw`strikes
      ensures hw.strikes == old(hw.strikes)
      ensures Inv(chips, voices)
      ensures v.channel == WithConnection(old(v.channel), v.connection % 2)
      ensures var key := KeyChannel(v.four, v.place);
              hw.channels[key] == WithKey(v.channel, KeyOn(old(hw.channels[key])))
      ensures forall i | 0 <= i < |v.ops| :: hw.operators[OperatorSlot(v.four, v.place, i)] == v.ops[i]
      ensures KeepsOtherSounds(v.four, v.place, two, four,
                               old(hw.operators), old(hw.channels), hw.operators, hw.channels)
    {
      KeyPutBack(v.channel, KeyOn(hw.channels[KeyChannel(v.four, v.place)]), v.connection % 2);
      var wasOn := KeyOn(v.channel);
      RewriteOnly(v, KeyOn(hw.channels[KeyChannel(v.four, v.place)]), chips, voices);
      v.channel := WithKey(v.channel, wasOn);
    }

    method RewriteOnly(v: Voice, key: bool, ghost chips: set<Opl>, ghost voices: set<Voice>)
      requires Inv(chips, voices) && this in chips && v in voices && v.owner == this
      modifies v`channel, hw`index, hw`latch, hw`chip, hw`operators, hw`channels, hw`strikes
      ensures hw.strikes == Struck(old(hw.strikes), KeyChannel(v.four, v.place),
                                   old(hw.channels[KeyChannel(v.four, v.place)]), v.channel)
      ensures Inv(chips, voices) && Plays(v)
      ensures v.channel == WithConnection(WithKey(old(v.channel), key), v.connection % 2)
      ensures KeepsOtherSounds(v.four, v.place, two, four,
                               old(hw.operators), old(hw.channels), hw.operators, hw.channels)
    {
      Rewrite(v, key);
      ChangeKeepsOtherSounds(hw.kind, hw.fourOp, two, four, v.four, v.place,
                             old(hw.operators), old(hw.channels), hw.operators, hw.channels);
    }

    /** A voice that takes over another's settings and place. The chip is not written. */
    static method MoveConstruct(v: Voice, from: Voice, ghost chips: set<Opl>, ghost voices: set<Voice>)
      requires Inv(chips, voices) && v in voices && from in voices && v.owner == null && v.four == from.four
      modifies v, from`owner, from`channel, Chip(from)`two, Chip(from)`four
      ensures Inv(chips, voices)
      ensures from.owner == null && !KeyOn(from.channel)
      ensures v.owner == old(from.owner) && v.place == old(from.place) && v.Settings() == old(from.Settings())
      ensures v != from ==> v.channel == old(from.channel)
      ensures v.owner != null ==>
                Put(v.owner.two, v.owner.four, old(from.owner.two), old(from.owner.four), v.four, v.place, v)
    {
      CopySettings(v, from, chips, voices);
      TakeOver(v, from, chips, voices);
      ClearKey(from);
    }

    static method CopySettings(v: Voice, from: Voice, ghost chips: set<Opl>, ghost voices: set<Voice>)
      requires Inv(chips, voices) && v in voices && from in voices && v.four == from.four
      modifies v`channel, v`connection, v`ops, v`priority, v`onTime, v`offTime
      ensures Inv(chips, voices)
      ensures v.channel == old(from.channel) && v.Settings() == old(from.Settings())
    {
      CopyOperators(v, from, chips, voices);
      CopyRest(v, from);
    }

    static method CopyOperators(v: Voice, from: Voice, ghost chips: set<Opl>, ghost voices: set<Voice>)
      requires Inv(chips, voices) && v in voices && from in voices && v.four == from.four
      modifies v`connection, v`ops
      ensures Inv(chips, voices)
      ensures v.connection == old(from.connection) && v.ops == old(from.ops)
    {
      v.connection, v.ops := from.connection, from.ops;
    }

    static method CopyRest(v: Voice, from: Voice)
      modifies v`channel, v`priority, v`onTime, v`offTime
      ensures v.channel == old(from.channel) && v.priority == old(from.priority)
      ensures v.onTime == old(from.onTime) && v.offTime == old(from.offTime)
    {
      v.channel, v.priority, v.onTime, v.offTime := from.channel, from.priority, from.onTime, from.offTime;
    }

    static method TakeOver(v: Voice, from: Voice, ghost chips: set<Opl>, ghost voices: set<Voice>)
      requires Inv(chips, voices) && v in voices && from in voices && v.owner == null && v.four == from.four
      modifies v`owner, v`place, from`owner, Chip(from)`two, Chip(from)`four
      ensures Inv(chips, voices)
      ensures from.owner == null && v.owner == old(from.owner) && v.place == old(from.place)
      ensures v.owner != null ==>
                Put(v.owner.two, v.owner.four, old(from.owner.two), old(from.owner.four), v.four, v.place, v)
    {
      TakePlace(v, from, chips, voices);
      if from.owner != null {
        TakeSlot(v, from, chips, voices);
      }
    }

    static method TakePlace(v: Voice, from: Voice, ghost chips: set<Opl>, ghost voices: set<Voice>)
      requires Inv(chips, voices) && v in voices && from in voices && v.owner == null && v.four == from.four
      modifies v`place
      ensures Inv(chips, voices) && v.place == old(from.place)
    {
      v.place := from.place;
    }

    static method ClearKey(v: Voice)
      modifies v`channel
      ensures v.channel == WithKey(old(v.channel), false)
    {
      v.channel := WithKey(v.channel, false);
    }

    static method TakeSlot(v: Voice, from: Voice, ghost chips: set<Opl>, ghost voices: set<Voice>)
      requires Inv(chips, voices) && v in voices && from in voices && v.owner == null && from.owner != null
      requires v.four == from.four && v.place == from.place
      modifies v`owner, from`owner, from.owner`two, from.owner`four
      ensures Inv(chips, voices)
      ensures from.owner == null && v.owner == old(from.owner)
      ensures Put(v.owner.two, v.owner.four, old(from.owner.two), old(from.owner.four), v.four, v.place, v)
    {
      from.owner.MoveOnly(v, from, chips, voices);
      TakeOwner(v, from, chips, voices);
    }

    static method TakeOwner(v: Voice, from: Voice, ghost chips: set<Opl>, ghost voices: set<Voice>)
      requires LinkedBut(chips, voices, v, from) && v in voices && from in voices
      modifies v`owner, from`owner
      ensures Linked(chips, voices) && from.owner == null && v.owner == old(from.owner)
    {
      v.owner, from.owner := from.owner, null;
    }

    method Move(v: Voice)
      requires InOrder() && v.place < Places(v.four) && SlotAt(two, four, v.four, v.place) != null
      modifies `two, `four
      ensures InOrder() && Put(two, four, old(two), old(four), v.four, v.place, v)
    {
      if v.four {
        four := four[v.place := v];
      } else {
        two := two[v.place := v];
      }
    }

    method MoveOnly(v: Voice, ghost from: Voice, ghost chips: set<Opl>, ghost voices: set<Voice>)
      requires Inv(chips, voices) && v in voices && from in voices && v.owner == null && from.owner == this
      requires v.four == from.four && v.place == from.place
      modifies `two, `four
      ensures Ordered(chips) && Put(two, four, old(two), old(four), v.four, v.place, v)
      ensures LinkedBut(chips, voices, v, from)
    {
      Move(v);
    }

    /** Move assignment: give up the current place, then take over the other's. */
    static method MoveAssign(v: Voice, from: Voice, ghost chips: set<Opl>, ghost voices: set<Voice>)
      requires Inv(chips, voices) && v in voices && from in voices && v.four == from.four
      modifies v, from`owner, from`channel, Chip(from)`two, Chip(from)`four
      modifies Chip(v)`two, Chip(v)`four, Hardware(Chip(v))
      ensures Inv(chips, voices)
      ensures from.owner == null && !KeyOn(from.channel) && v.Settings() == old(from.Settings())
      ensures v != from ==> v.owner == old(from.owner) && v.place == old(from.place) && v.channel == old(from.channel)
      ensures v == from ==> v.owner == null
      ensures old(v.owner) != null ==>
                var c := old(v.owner);
                KeepsSounds(c.two, c.four, old(c.hw.operators), old(c.hw.channels), c.hw.operators, c.hw.channels)
    {
      ghost var c := v.owner;
      ghost var (operators, channels) := if c == null then ([], []) else (c.hw.operators, c.hw.channels);
      Detach(v, chips, voices);
      MoveKeeping(v, from, c, operators, channels, chips, voices);
    }

    /** Take over, and what a chip has kept playing since it had these records, it keeps playing. */
    static method MoveKeeping(v: Voice, from: Voice, ghost c: Opl?, ghost operators: seq<OperatorRecord>,
                              ghost channels: seq<ChannelRecord>, ghost chips: set<Opl>, ghost voices: set<Voice>)
      requires Inv(chips, voices) && v in voices && from in voices && v.owner == null && v.four == from.four
      requires c != null ==>
                 c in chips && |operators| == 36 && |channels| == 18
                 && KeepsSounds(c.two, c.four, operators, channels, c.hw.operators, c.hw.channels)
      modifies v, from`owner, from`channel, Chip(from)`two, Chip(from)`four
      ensures Inv(chips, voices)
      ensures from.owner == null && !KeyOn(from.channel)
      ensures v.owner == old(from.owner) && v.place == old(from.place) && v.Settings() == old(from.Settings())
      ensures v != from ==> v.channel == old(from.channel)
      ensures c != null ==> KeepsSounds(c.two, c.four, operators, channels, c.hw.operators, c.hw.channels)
    {
      ghost var (two, four) := if c == null then ([], []) else (c.two, c.four);
      MoveConstruct(v, from, chips, voices);
      if c != null && v.owner == c {
        HandingOnKeepsSounds(c.two, c.four, two, four, v, operators, channels, c.hw.operators, c.hw.channels);
      } else {
        assert c != null ==> c.two == two && c.four == four;
      }
    }

    /** The destructor: every voice loses this owner. */
    method RemoveAll(ghost chips: set<Opl>, ghost voices: set<Voice>)
      requires Inv(chips, voices) && this in chips
      modifies `two, `four, voices`owner, hw
      ensures Inv(chips, voices)
      ensures forall w | w in voices :: w.owner == if old(w.owner) == this then null else old(w.owner)
    {
      RemoveTwos(chips, voices);
      RemoveFours(chips, voices);
    }

    method RemoveTwos(ghost chips: set<Opl>, ghost voices: set<Voice>)
      requires Inv(chips, voices) && this in chips
      modifies `two, `four, voices`owner, hw
      ensures Inv(chips, voices)
      ensures forall w | w in voices :: w.owner == if !w.four && old(w.owner) == this then null else old(w.owner)
    {
      for i := 0 to 18
        invariant Inv(chips, voices) && forall n: nat | n < i :: SlotAt(two, four, false, n) == null
        invariant forall w | w in voices ::
                    w.owner == old(w.owner) || (!w.four && w.owner == null && old(w.owner) == this)
      {
        var v := two[i];
        if v != null {
          assert SlotAt(two, four, false, i) == v;
          Detach(v, chips, voices);
        }
      }
    }

    method RemoveFours(ghost chips: set<Opl>, ghost voices: set<Voice>)
      requires Inv(chips, voices) && this in chips
      modifies `two, `four, voices`owner, hw
      ensures Inv(chips, voices)
      ensures forall w | w in voices :: w.owner == if w.four && old(w.owner) == this then null else old(w.owner)
    {
      for i := 0 to 6
        invariant Inv(chips, voices) && forall n: nat | n < i :: SlotAt(two, four, true, n) == null
        invariant forall w | w in voices ::
                    w.owner == old(w.owner) || (w.four && w.owner == null && old(w.owner) == this)
      {
        var v := four[i];
        if v != null {
          assert SlotAt(two, four, true, i) == v;
          Detach(v, chips, voices);
        }
      }
    }
  }

  /** At a place where the newcomer is not outranked, no overlapping voice is both sounding and of higher priority. */
  lemma EvictedAreNotOutranking(chips: set<Opl>, voices: set<Voice>, c: Opl, q: Request, n: nat)
    requires Inv(chips, voices) && c in chips && c.Snapshot().Ok() && n < Places(q.four)
    requires !Outranked(c.Snapshot(), q, n)
    ensures forall w | w in voices && w.owner == c && Overlap(w.four, w.place, q.four, n) && !c.ignorePriority ::
              w.offTime <= q.now || w.priority <= q.priority
  {
    forall w | w in voices && w.owner == c && Overlap(w.four, w.place, q.four, n)
      ensures Evicts(c.Snapshot(), q.four, n, Occupant(w.priority, w.onTime, w.offTime))
    {
      assert SlotAt(c.two, c.four, w.four, w.place) == w;
      assert (if w.four then SeenAll(c.four) else SeenAll(c.two))[w.place] == Seen(w);
    }
  }

  ghost function Itself(v: Voice?): set<Voice>
  {
    if v == null then {} else {v}
  }

  ghost function Seen(v: Voice?): Option<Occupant>
    reads Itself(v)
  {
    if v == null then None else Some(Occupant(v.priority, v.onTime, v.offTime))
  }

  ghost function SeenAll(slots: seq<Voice?>): (r: seq<Option<Occupant>>)
    reads set v: Voice | v in slots
    ensures |r| == |slots| && forall i | 0 <= i < |slots| :: r[i] == Seen(slots[i])
  {
    if slots == [] then [] else [Seen(slots[0])] + SeenAll(slots[1..])
  }

  /** Everything a chip with these records has been given for the voice at a place. */
  ghost function SoundAt(operators: OperatorBank, channels: ChannelBank, four: bool, place: nat)
    : (seq<OperatorRecord>, ChannelRecord, seq<Byte>)
    requires place < Places(four)
  {
    (seq(Operators(four), i requires 0 <= i < Operators(four) => operators[OperatorSlot(four, place, i)]),
     channels[KeyChannel(four, place)],
     if four then [channels[Secondary(place)][0]] else [])
  }

  /** Every place that is occupied keeps its sound. */
  ghost predicate KeepsSounds(two: TwoOpSlots, four: FourOpSlots, operators: OperatorBank, channels: ChannelBank,
                              operators': OperatorBank, channels': ChannelBank)
  {
    forall f: bool, n: nat | n < Places(f) && SlotAt(two, four, f, n) != null ::
      SoundAt(operators', channels', f, n) == SoundAt(operators, channels, f, n)
  }

  /** Handing a slot on to another voice changes no sound. */
  lemma HandingOnKeepsSounds(two': TwoOpSlots, four': FourOpSlots, two: TwoOpSlots, four: FourOpSlots, v: Voice,
                             operators: OperatorBank, channels: ChannelBank,
                             operators': OperatorBank, channels': ChannelBank)
    requires v.place < Places(v.four) && SlotAt(two, four, v.four, v.place) != null
    requires Put(two', four', two, four, v.four, v.place, v)
    requires KeepsSounds(two, four, operators, channels, operators', channels')
    ensures KeepsSounds(two', four', operators, channels, operators', channels')
  {
  }

  /** Every occupied place but one keeps its sound. */
  ghost predicate KeepsOtherSounds(isFour: bool, place: nat, two: TwoOpSlots, four: FourOpSlots,
                                   operators: OperatorBank, channels: ChannelBank,
                                   operators': OperatorBank, channels': ChannelBank)
  {
    forall f: bool, n: nat | n < Places(f) && SlotAt(two, four, f, n) != null && !(f == isFour && n == place) ::
      SoundAt(operators', channels', f, n) == SoundAt(operators, channels, f, n)
  }

  /** Records change only where `place` has its operators and channels. */
  ghost predicate OnlyAt(isFour: bool, place: nat, operators: OperatorBank, channels: ChannelBank,
                         operators': OperatorBank, channels': ChannelBank)
    requires place < Places(isFour)
  {
    && (forall s: nat | s < 36 && !Uses(isFour, place, s) :: operators'[s] == operators[s])
    && (forall ch | 0 <= ch < 18 && ch != KeyChannel(isFour, place) && !(isFour && ch == Secondary(place)) ::
          channels'[ch] == channels[ch])
  }

  /** Records that only changed where `place` has its operators and channels leave every other place's sound alone. */
  lemma ElsewhereSoundsTheSame(operators: OperatorBank, channels: ChannelBank, operators': OperatorBank,
                               channels': ChannelBank, four: bool, place: nat, four': bool, place': nat)
    requires place < Places(four) && place' < Places(four') && !Overlap(four, place, four', place')
    requires OnlyAt(four, place, operators, channels, operators', channels')
    ensures SoundAt(operators', channels', four', place') == SoundAt(operators, channels, four', place')
  {
    OperatorsMeetExactlyWhenOverlapping(four, place, four', place');
    forall i: nat | i < Operators(four')
      ensures operators'[OperatorSlot(four', place', i)] == operators[OperatorSlot(four', place', i)]
    {
      assert Uses(four', place', OperatorSlot(four', place', i));
    }
    assert SoundAt(operators', channels', four', place').0 == SoundAt(operators, channels, four', place').0;
  }

  /** A change at one place keeps the sound of every other occupied place. */
  lemma ChangeKeepsOtherSounds(kind: OplType, fourOp: FourOpBits, two: TwoOpSlots, four: FourOpSlots,
                               isFour: bool, place: nat, operators: OperatorBank, channels: ChannelBank,
                               operators': OperatorBank, channels': ChannelBank)
    requires place < Places(isFour) && SlotsFit(kind, fourOp, channels, two, four)
    requires (if isFour then four[place] else two[place]) != null
    requires OnlyAt(isFour, place, operators, channels, operators', channels')
    ensures KeepsSounds(Vacated(two, isFour, place), Vacated(four, !isFour, place),
                        operators, channels, operators', channels')
  {
    forall f: bool, n: nat | n < Places(f) &&
        SlotAt(Vacated(two, isFour, place), Vacated(four, !isFour, place), f, n) != null
      ensures SoundAt(operators', channels', f, n) == SoundAt(operators, channels, f, n)
    {
      assert SlotAt(two, four, f, n) != null;
      ElsewhereSoundsTheSame(operators, channels, operators', channels', isFour, place, f, n);
    }
  }

  /** No two voices on a chip share an operator. */
  lemma LiveVoicesShareNoOperator(chips: set<Opl>, voices: set<Voice>, v: Voice, w: Voice)
    requires Inv(chips, voices) && v in voices && w in voices && v != w && v.owner != null && v.owner == w.owner
    ensures !Overlap(v.four, v.place, w.four, w.place)
    ensures forall s: nat :: !(Uses(v.four, v.place, s) && Uses(w.four, w.place, s))
    ensures KeyChannel(v.four, v.place) != KeyChannel(w.four, w.place)
  {
    assert v.owner.InOrder();
    assert SlotAt(v.owner.two, v.owner.four, v.four, v.place) == v;
    assert SlotAt(v.owner.two, v.owner.four, w.four, w.place) == w;
    OperatorsMeetExactlyWhenOverlapping(v.four, v.place, w.four, w.place);
  }

  /** The voices evicted from a chip are exactly those at places that share an operator with the place. */
  lemma EvictedAreThoseOverlapping(chips: set<Opl>, voices: set<Voice>, c: Opl, isFour: bool, n: nat)
    requires Inv(chips, voices) && c in chips && n < Places(isFour)
    ensures forall w | w in c.Evicted(isFour, n) :: w in voices
    ensures forall w | w in voices :: w in c.Evicted(isFour, n) <==> w.owner == c && Overlap(w.four, w.place, isFour, n)
  {
  }

  lemma RemovalFits(kind: OplType, fourOp: FourOpBits, channels: ChannelBank, two: TwoOpSlots, four: FourOpSlots,
                    isFour: bool, place: nat)
    requires place < Places(isFour) && SlotsFit(kind, fourOp, channels, two, four)
    ensures var key := KeyChannel(isFour, place);
            SlotsFit(kind, fourOp, channels[key := WithKey(channels[key], false)],
                     Vacated(two, isFour, place), Vacated(four, !isFour, place))
  {
  }

  lemma WritingFits(kind: OplType, fourOp: FourOpBits, channels: ChannelBank, channels': ChannelBank,
                    two: TwoOpSlots, four: FourOpSlots, isFour: bool, place: nat)
    requires place < Places(isFour) && SlotsFit(kind, fourOp, channels, two, four)
    requires (if isFour then four[place] else two[place]) != null
    requires forall ch | 0 <= ch < 18 && ch != KeyChannel(isFour, place) && KeyOn(channels'[ch]) :: KeyOn(channels[ch])
    ensures SlotsFit(kind, fourOp, channels', two, four)
    ensures !Partial(kind, fourOp, KeyChannel(isFour, place))
    ensures isFour ==> Partial(kind, fourOp, Secondary(place))
  {
  }

  /** The slots without a voice, unless it is of the other kind. */
  ghost function Vacated(slots: seq<Voice?>, otherKind: bool, place: nat): (r: seq<Voice?>)
    requires !otherKind ==> place < |slots|
    ensures |r| == |slots|
  {
    if otherKind then slots else slots[place := null]
  }

  /** The channel records after writing a voice with record `c`. Of the secondary channel of a 4-operator voice only
      the first byte changes: its connection bit is the upper bit of the voice's. */
  ghost function WithVoice(channels: ChannelBank, v: Voice, c: ChannelRecord): ChannelBank
    requires v.WellFormed()
    reads v
  {
    var sec := if v.four
               then channels[Secondary(v.place) :=
                      [WithConnection(c, v.connection / 2)[0]] + channels[Secondary(v.place)][1..]]
               else channels;
    sec[KeyChannel(v.four, v.place) := WithConnection(c, v.connection % 2)]
  }
}
