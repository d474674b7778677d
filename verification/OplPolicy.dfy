/** Which place a new voice gets, computed from a snapshot of the places, and what the choice guarantees to the
    voices already there. */
module OplPolicy {
  import opened Basics
  import opened OplLayout

  // Times are opaque ordered values; TIME_MAX stands for "never".
  const TIME_MAX: int := 0x7fff_ffff_ffff_ffff
  const PRIORITY_MAX: int := 0x7fff_ffff
  type Time = t: int | t <= TIME_MAX
  type Priority = p: int | p <= PRIORITY_MAX

  datatype Mode = No | Yes | Force | Automatic | AutoForce

  datatype Occupant = Occupant(priority: Priority, on: Time, off: Time)

  /** What is at every place, which pairs of channels are joined to 4-operator channels, and the configuration. */
  datatype View = View(
    kind: OplType, mode: Mode, ignorePriority: bool,
    two: seq<Option<Occupant>>, four: seq<Option<Occupant>>, joined: seq<bool>)
  {
    /** A joined pair has no 2-operator voices, an unjoined one no 4-operator voice; the OPL2 joins nothing. */
    ghost predicate Ok()
    {
      && |two| == 18 && |four| == 6 && |joined| == 6
      && (forall k | 0 <= k < 6 && joined[k] :: two[Primary(k)].None? && two[Secondary(k)].None?)
      && (forall k | 0 <= k < 6 && !joined[k] :: four[k].None?)
      && (kind.Opl2? ==> forall k | 0 <= k < 6 :: !joined[k])
    }

    predicate AnyJoined()
      requires |joined| == 6
    {
      exists k | 0 <= k < 6 :: joined[k]
    }
  }

  /** The newcomer: its operator count and priority, and the time of the request. */
  datatype Request = Request(four: bool, priority: Priority, now: Time)

  datatype Candidate = Candidate(place: nat, priority: Priority, on: Time, off: Time)
  datatype Probe = Vacant | Taken(c: Candidate)
  datatype Best = Best(place: Option<nat>, priority: Priority, on: Time, off: Time)
  datatype Search = Found(place: nat) | Going(best: Best)

  const NONE_YET: Best := Best(None, PRIORITY_MAX, TIME_MAX, TIME_MAX)

  /** Keep the better of the best so far and one more candidate. */
  function Consider(b: Best, c: Candidate, q: Request, ignore: bool): Best
  {
    if c.off > b.off then b
    else if c.off == b.off && c.on > b.on then b
    else if !ignore && q.now < c.off then
      if c.priority > q.priority || c.priority > b.priority then b
      else Best(Some(c.place), c.priority, c.on, c.off)
    else Best(Some(c.place), b.priority, c.on, c.off)
  }

  function ProbeOne(o: Option<Occupant>, place: nat): Probe
  {
    match o
    case None => Vacant
    case Some(o) => Taken(Candidate(place, o.priority, o.on, o.off))
  }

  function Max(a: int, b: int): int
  {
    if a < b then b else a
  }

  /** Of a pair, the sounding voice counts; when both or neither sound, the larger value does. */
  function MaxOfPair(aOn: bool, bOn: bool, a: int, b: int): int
  {
    if aOn == bOn then Max(a, b) else if aOn then a else b
  }

  /** Who would make room at `place`. */
  function ProbeOf(v: View, q: Request, place: nat): Probe
    requires v.Ok() && place < Places(q.four)
  {
    if !q.four then
      if Paired(place) && v.joined[PairOf(place)] then ProbeOne(v.four[PairOf(place)], place)
      else ProbeOne(v.two[place], place)
    else if v.joined[place] then ProbeOne(v.four[place], place)
    else match (v.two[Primary(place)], v.two[Secondary(place)])
      case (None, b) => ProbeOne(b, place)
      case (a, None) => ProbeOne(a, place)
      case (Some(a), Some(b)) =>
        var aOn, bOn := q.now < a.off, q.now < b.off;
        Taken(Candidate(place, MaxOfPair(aOn, bOn, a.priority, b.priority),
                        MaxOfPair(aOn, bOn, a.on, b.on), Max(a.off, b.off)))
  }

  ghost predicate ArePlaces(order: seq<nat>, four: bool)
  {
    forall i | 0 <= i < |order| :: order[i] < Places(four)
  }

  /** Examine the places of `order` in turn, stopping at a vacant one. */
  function Scan(v: View, q: Request, order: seq<nat>, start: Best): Search
    requires v.Ok() && ArePlaces(order, q.four)
  {
    if order == [] then Going(start)
    else
      var (before, last) := (order[..|order| - 1], order[|order| - 1]);
      match Scan(v, q, before, start)
      case Found(n) => Found(n)
      case Going(b) =>
        match ProbeOf(v, q, last)
        case Vacant => Found(last)
        case Taken(c) => Going(Consider(b, c, q, v.ignorePriority))
  }

  /** Scanning on from where a scan ended is scanning both orders. */
  lemma ScanInTwoParts(v: View, q: Request, first: seq<nat>, second: seq<nat>, start: Best)
    requires v.Ok() && ArePlaces(first, q.four) && ArePlaces(second, q.four)
    ensures Scan(v, q, first + second, start) ==
            match Scan(v, q, first, start)
            case Found(n) => Found(n)
            case Going(b) => Scan(v, q, second, b)
  {
    if second == [] {
      assert first + second == first;
    } else {
      var before := second[..|second| - 1];
      assert (first + second)[..|first + second| - 1] == first + before;
      ScanInTwoParts(v, q, first, before, start);
    }
  }

  /** One more step of a scan. */
  lemma ScanOneMore(v: View, q: Request, order: seq<nat>, i: nat, start: Best)
    requires v.Ok() && ArePlaces(order, q.four) && i < |order|
    requires Scan(v, q, order[..i], start).Going?
    ensures var (b, p) := (Scan(v, q, order[..i], start).best, ProbeOf(v, q, order[i]));
            if p.Vacant? then Scan(v, q, order, start) == Found(order[i])
            else Scan(v, q, order[..i + 1], start) == Going(Consider(b, p.c, q, v.ignorePriority))
  {
    assert order[..i + 1][..i] == order[..i];
    assert order[..i + 1] + order[i + 1..] == order;
    ScanInTwoParts(v, q, order[..i + 1], order[i + 1..], start);
  }

  const UNPAIRED: seq<nat> := [6, 7, 8, 15, 16, 17]
  const OPL2_ORDER: seq<nat> := [0, 1, 2, 3, 4, 5, 6, 7, 8]
  const FOUR_ORDER: seq<nat> := [0, 1, 2, 3, 4, 5]

  /** The paired places for a 2-operator voice in the order they are tried: a joined pair is tried only once. */
  function PairOrder(v: View, k: nat): seq<nat>
    requires v.Ok() && k <= 6
  {
    if k == 0 then [] else PairOrder(v, k - 1) + PairPlaces(v, k - 1)
  }

  function PairPlaces(v: View, k: nat): seq<nat>
    requires v.Ok() && k < 6
  {
    if v.joined[k] then [Primary(k)] else [Primary(k), Secondary(k)]
  }

  /** Mode `force`, or `auto_force` once 4-operator channels are in use: 2-operator voices stay out of pairs. */
  predicate Forced(v: View)
    requires |v.joined| == 6
  {
    v.mode.Force? || (v.mode.AutoForce? && v.AnyJoined())
  }

  /** Mode `yes`, or `automatic` while 4-operator channels are in use: a silent unpaired place is preferred. */
  predicate Preferred(v: View)
    requires |v.joined| == 6
  {
    v.mode.Yes? || (v.mode.Automatic? && v.AnyJoined())
  }

  function Result(s: Search): Option<nat>
  {
    match s
    case Found(n) => Some(n)
    case Going(b) => b.place
  }

  /** The place a new voice is inserted at, if any. */
  function Choose(v: View, q: Request): Option<nat>
    requires v.Ok()
  {
    if v.kind.Opl2? then
      if q.four then None else Result(Scan(v, q, OPL2_ORDER, NONE_YET))
    else if q.four then Result(Scan(v, q, FOUR_ORDER, NONE_YET))
    else
      match Scan(v, q, UNPAIRED, NONE_YET)
      case Found(n) => Some(n)
      case Going(b) =>
        if Forced(v) then b.place
        else if Preferred(v) && q.now >= b.off then b.place
        else
          PairOrderIsPlaces(v, 6);
          Result(Scan(v, q, PairOrder(v, 6), b))
  }

  lemma PairOrderIsPlaces(v: View, k: nat)
    requires v.Ok() && k <= 6
    ensures forall i | 0 <= i < |PairOrder(v, k)| ::
              var n := PairOrder(v, k)[i]; n < 18 && Paired(n) && PairOf(n) < k
    ensures forall n: nat | n < 18 && Paired(n) && PairOf(n) < k ::
              n in PairOrder(v, k) || (v.joined[PairOf(n)] && Primary(PairOf(n)) in PairOrder(v, k))
  {
  }

  /** Scanning one pair more; a vacant place found there is what a scan of all pairs finds. */
  lemma ScanOnePairMore(v: View, q: Request, k: nat, start: Best)
    requires v.Ok() && !q.four && k < 6
    requires ArePlaces(PairOrder(v, k), false) && Scan(v, q, PairOrder(v, k), start).Going?
    ensures ArePlaces(PairOrder(v, k + 1), false) && ArePlaces(PairOrder(v, 6), false)
    ensures var s := Scan(v, q, PairPlaces(v, k), Scan(v, q, PairOrder(v, k), start).best);
            && Scan(v, q, PairOrder(v, k + 1), start) == s
            && (s.Found? ==> Scan(v, q, PairOrder(v, 6), start) == s)
  {
    PairOrderIsPlaces(v, 6);
    PairOrderIsPlaces(v, k + 1);
    ScanInTwoParts(v, q, PairOrder(v, k), PairPlaces(v, k), start);
    if Scan(v, q, PairOrder(v, k + 1), start).Found? {
      FoundIsKept(v, q, k + 1, start);
    }
  }

  lemma FoundIsKeptOnce(v: View, q: Request, k: nat, start: Best)
    requires v.Ok() && !q.four && k < 6
    requires ArePlaces(PairOrder(v, k), false) && Scan(v, q, PairOrder(v, k), start).Found?
    ensures ArePlaces(PairOrder(v, k + 1), false)
    ensures Scan(v, q, PairOrder(v, k + 1), start) == Scan(v, q, PairOrder(v, k), start)
  {
    PairOrderIsPlaces(v, k + 1);
    ScanInTwoParts(v, q, PairOrder(v, k), PairPlaces(v, k), start);
  }

  lemma FoundIsKept(v: View, q: Request, k: nat, start: Best)
    requires v.Ok() && !q.four && k <= 6
    requires ArePlaces(PairOrder(v, k), false) && Scan(v, q, PairOrder(v, k), start).Found?
    ensures ArePlaces(PairOrder(v, 6), false)
    ensures Scan(v, q, PairOrder(v, 6), start) == Scan(v, q, PairOrder(v, k), start)
    decreases 6 - k
  {
    if k < 6 {
      FoundIsKeptOnce(v, q, k, start);
      FoundIsKept(v, q, k + 1, start);
    }
  }

  // ----- What the choice means for the voices already there

  /** Whether inserting at `place` evicts this occupant. */
  ghost predicate Evicts(v: View, four: bool, place: nat, o: Occupant)
    requires v.Ok() && place < Places(four)
  {
    if four then v.four[place] == Some(o) || v.two[Primary(place)] == Some(o) || v.two[Secondary(place)] == Some(o)
    else v.two[place] == Some(o) || (Paired(place) && v.four[PairOf(place)] == Some(o))
  }

  predicate Sounding(o: Occupant, now: Time)
  {
    now < o.off
  }

  /** Places the chip and the mode allow for the newcomer. */
  ghost predicate Permitted(v: View, four: bool, place: nat)
    requires v.Ok()
  {
    if v.kind.Opl2? then !four && place < 9
    else if four then place < 6
    else place < 18 && (Paired(place) ==> !Forced(v))
  }

  /** Inserting here would cut off no sounding voice. */
  ghost predicate Quiet(v: View, q: Request, place: nat)
    requires v.Ok() && place < Places(q.four)
  {
    forall o | Evicts(v, q.four, place, o) :: !Sounding(o, q.now)
  }

  /** Inserting here would cut off a sounding voice of higher priority, and priorities count. */
  ghost predicate Outranked(v: View, q: Request, place: nat)
    requires v.Ok() && place < Places(q.four)
  {
    !v.ignorePriority && exists o :: Evicts(v, q.four, place, o) && Sounding(o, q.now) && o.priority > q.priority
  }

  // ----- Scanning

  predicate Blocked(c: Candidate, q: Request, ignore: bool)
  {
    !ignore && q.now < c.off && c.priority > q.priority
  }

  /** A candidate taken regardless of priorities. */
  predicate Yields(c: Candidate, q: Request, ignore: bool)
  {
    ignore || c.off <= q.now
  }

  /** Of candidates with the same times, the one examined last is taken. */
  predicate Earlier(a: Candidate, b: Candidate, aIsLast: bool)
  {
    a.off < b.off || (a.off == b.off && (a.on < b.on || (a.on == b.on && aIsLast)))
  }

  predicate NotLater(a: Candidate, b: Candidate)
  {
    a.off < b.off || (a.off == b.off && a.on <= b.on)
  }

  /** Candidate `i` is what `b` stands for, and it is the right choice among `cs`: a candidate that yields regardless
      of priority and is the first of those to end; failing that one that is not blocked, where no unblocked
      candidate of no higher priority ends earlier. */
  ghost predicate Wins(cs: seq<Candidate>, i: nat, b: Best, q: Request, ignore: bool)
    requires i < |cs|
  {
    var c := cs[i];
    && b.place == Some(c.place) && b.on == c.on && b.off == c.off && !Blocked(c, q, ignore)
    && (Yields(c, q, ignore) ==> forall j | 0 <= j < |cs| && Yields(cs[j], q, ignore) :: Earlier(c, cs[j], j <= i))
    && (!Yields(c, q, ignore) ==>
          && b.priority == c.priority
          && forall j | 0 <= j < |cs| ::
               !Yields(cs[j], q, ignore) && (cs[j].priority <= c.priority ==> Earlier(c, cs[j], j <= i)))
  }

  /** Nothing has been chosen only if every candidate is blocked. */
  ghost predicate IsBest(cs: seq<Candidate>, b: Best, q: Request, ignore: bool)
  {
    if b.place.None? then b == NONE_YET && forall i | 0 <= i < |cs| :: Blocked(cs[i], q, ignore)
    else exists i: nat | i < |cs| :: Wins(cs, i, b, q, ignore)
  }

  lemma ConsiderKeepsBest(cs: seq<Candidate>, b: Best, c: Candidate, q: Request, ignore: bool)
    requires IsBest(cs, b, q, ignore)
    ensures IsBest(cs + [c], Consider(b, c, q, ignore), q, ignore)
  {
    var b' := Consider(b, c, q, ignore);
    if b.place.Some? {
      var i: nat :| i < |cs| && Wins(cs, i, b, q, ignore);
      if !Earlier(c, Candidate(c.place, b.priority, b.on, b.off), true)
         || (!Yields(c, q, ignore) && (c.priority > q.priority || c.priority > b.priority)) {
        assert Wins(cs + [c], i, b', q, ignore);
      } else {
        assert Wins(cs + [c], |cs|, b', q, ignore);
      }
    } else if b'.place.Some? {
      assert Wins(cs + [c], |cs|, b', q, ignore);
    }
  }

  ghost predicate AllTaken(v: View, q: Request, order: seq<nat>)
    requires v.Ok() && ArePlaces(order, q.four)
  {
    forall i | 0 <= i < |order| :: ProbeOf(v, q, order[i]).Taken?
  }

  ghost function Candidates(v: View, q: Request, order: seq<nat>): seq<Candidate>
    requires v.Ok() && ArePlaces(order, q.four) && AllTaken(v, q, order)
  {
    seq(|order|, i requires 0 <= i < |order| => ProbeOf(v, q, order[i]).c)
  }

  lemma {:induction false} ScanFindsVacantOrBest(v: View, q: Request, done: seq<nat>, order: seq<nat>, start: Best)
    requires v.Ok() && ArePlaces(done, q.four) && ArePlaces(order, q.four)
    requires AllTaken(v, q, done) && IsBest(Candidates(v, q, done), start, q, v.ignorePriority)
    ensures match Scan(v, q, order, start)
            case Found(n) => n in order && ProbeOf(v, q, n).Vacant?
            case Going(b) => AllTaken(v, q, done + order) &&
                             IsBest(Candidates(v, q, done + order), b, q, v.ignorePriority)
  {
    if order == [] {
      assert done + order == done;
    } else {
      var (before, last) := (order[..|order| - 1], order[|order| - 1]);
      assert (done + before) + [last] == done + order;
      ScanFindsVacantOrBest(v, q, done, before, start);
      var s := Scan(v, q, before, start);
      if s.Going? && ProbeOf(v, q, last).Taken? {
        assert AllTaken(v, q, (done + before) + [last]);
        assert Candidates(v, q, (done + before) + [last]) ==
               Candidates(v, q, done + before) + [ProbeOf(v, q, last).c];
        ConsiderKeepsBest(Candidates(v, q, done + before), s.best, ProbeOf(v, q, last).c, q, v.ignorePriority);
      }
    }
  }

  // ----- What a probe says about the voices at a place

  lemma ProbeMeaning(v: View, q: Request, n: nat)
    requires v.Ok() && n < Places(q.four)
    ensures ProbeOf(v, q, n).Vacant? <==> forall o :: !Evicts(v, q.four, n, o)
    ensures ProbeOf(v, q, n).Taken? ==>
              var c := ProbeOf(v, q, n).c;
              && c.place == n
              && (Blocked(c, q, v.ignorePriority) <==> Outranked(v, q, n))
              && (c.off <= q.now <==> Quiet(v, q, n))
  {
    var (a, b) := if !q.four then (v.two[n], if Paired(n) then v.four[PairOf(n)] else None)
                  else if v.joined[n] then (v.four[n], None)
                  else (v.two[Primary(n)], v.two[Secondary(n)]);
    assert forall o :: Evicts(v, q.four, n, o) <==> a == Some(o) || b == Some(o);
    if a.Some? {
      assert Evicts(v, q.four, n, a.value);
    }
    if b.Some? {
      assert Evicts(v, q.four, n, b.value);
    }
  }

  /** Where two voices would be evicted, those that sound count, or both if neither does: with the highest of their
      priorities, and the latest of their times. */
  ghost predicate Counts(v: View, q: Request, place: nat, o: Occupant)
    requires v.Ok() && place < Places(q.four)
  {
    Evicts(v, q.four, place, o) && (Sounding(o, q.now) || Quiet(v, q, place))
  }

  lemma ProbeIsOfThoseThatCount(v: View, q: Request, n: nat)
    requires v.Ok() && n < Places(q.four) && ProbeOf(v, q, n).Taken?
    ensures var c := ProbeOf(v, q, n).c;
            && (forall o | Evicts(v, q.four, n, o) :: o.off <= c.off)
            && (exists o :: Evicts(v, q.four, n, o) && o.off == c.off)
            && (forall o | Counts(v, q, n, o) :: o.priority <= c.priority && o.on <= c.on)
            && (exists o :: Counts(v, q, n, o) && o.priority == c.priority)
            && (exists o :: Counts(v, q, n, o) && o.on == c.on)
  {
    var (a, b) := if !q.four then (v.two[n], if Paired(n) then v.four[PairOf(n)] else None)
                  else if v.joined[n] then (v.four[n], None)
                  else (v.two[Primary(n)], v.two[Secondary(n)]);
    assert forall o :: Evicts(v, q.four, n, o) <==> a == Some(o) || b == Some(o);
    assert a.Some? ==> Evicts(v, q.four, n, a.value);
    assert b.Some? ==> Evicts(v, q.four, n, b.value);
    assert Quiet(v, q, n) <==> (a.Some? ==> !Sounding(a.value, q.now)) && (b.Some? ==> !Sounding(b.value, q.now));
    assert a.Some? ==> (Counts(v, q, n, a.value) <==> Sounding(a.value, q.now) || Quiet(v, q, n));
    assert b.Some? ==> (Counts(v, q, n, b.value) <==> Sounding(b.value, q.now) || Quiet(v, q, n));
  }

  /** Two places where inserting meets the same occupant: equal, or the halves of a joined pair. */
  ghost predicate SameRoom(v: View, q: Request, m: nat, n: nat)
    requires v.Ok() && m < Places(q.four) && n < Places(q.four)
  {
    m == n || (!q.four && Paired(m) && Paired(n) && PairOf(m) == PairOf(n) && v.joined[PairOf(m)])
  }

  /** Whether the choice settles on a silent unpaired place without looking at the paired ones. */
  ghost predicate CutShort(v: View, q: Request)
    requires v.Ok()
  {
    && !v.kind.Opl2? && !q.four && Preferred(v) && AllTaken(v, q, UNPAIRED)
    && exists i | 0 <= i < |UNPAIRED| :: Quiet(v, q, UNPAIRED[i])
  }

  ghost predicate Examined(v: View, q: Request, m: nat)
    requires v.Ok()
  {
    m < Places(q.four) && Permitted(v, q.four, m) && (CutShort(v, q) ==> !Paired(m))
  }

  ghost predicate Covers(v: View, q: Request, order: seq<nat>)
    requires v.Ok() && ArePlaces(order, q.four)
  {
    && (forall i | 0 <= i < |order| :: Permitted(v, q.four, order[i]))
    && forall m: nat | Examined(v, q, m) :: exists i :: 0 <= i < |order| && SameRoom(v, q, order[i], m)
  }

  /** The choice is a vacant place, or the best of candidates that stand for every examined place. */
  ghost predicate Decides(v: View, q: Request, order: seq<nat>, b: Best)
    requires v.Ok()
  {
    && ArePlaces(order, q.four) && Covers(v, q, order)
    && if Choose(v, q).Some? && Choose(v, q).value < Places(q.four) && ProbeOf(v, q, Choose(v, q).value).Vacant?
       then Choose(v, q).value in order
       else AllTaken(v, q, order) && IsBest(Candidates(v, q, order), b, q, v.ignorePriority)
            && Choose(v, q) == b.place
  }

  /** Starting from the best of `done`, a scan of `order` decides. */
  lemma ScanDecides(v: View, q: Request, done: seq<nat>, order: seq<nat>, start: Best) returns (b: Best)
    requires v.Ok() && ArePlaces(done, q.four) && ArePlaces(order, q.four)
    requires AllTaken(v, q, done) && IsBest(Candidates(v, q, done), start, q, v.ignorePriority)
    requires Covers(v, q, done + order)
    requires Choose(v, q) == Result(Scan(v, q, order, start))
    ensures Decides(v, q, done + order, b)
  {
    ScanFindsVacantOrBest(v, q, done, order, start);
    match Scan(v, q, order, start) {
      case Found(n) => b := start;
      case Going(best) =>
        b := best;
        if b.place.Some? {
          var i: nat :| i < |done + order| && Wins(Candidates(v, q, done + order), i, b, q, v.ignorePriority);
          ProbeMeaning(v, q, (done + order)[i]);
        }
    }
  }

  lemma NothingYet(v: View, q: Request)
    requires v.Ok()
    ensures AllTaken(v, q, []) && IsBest(Candidates(v, q, []), NONE_YET, q, v.ignorePriority)
  {
  }

  lemma FixedOrdersCover(v: View, q: Request)
    requires v.Ok()
    ensures v.kind.Opl2? && !q.four ==> ArePlaces(OPL2_ORDER, false) && Covers(v, q, OPL2_ORDER)
    ensures !v.kind.Opl2? && q.four ==> ArePlaces(FOUR_ORDER, true) && Covers(v, q, FOUR_ORDER)
  {
    if v.kind.Opl2? && !q.four {
      forall m: nat | Examined(v, q, m)
        ensures exists i :: 0 <= i < |OPL2_ORDER| && SameRoom(v, q, OPL2_ORDER[i], m)
      {
        assert SameRoom(v, q, OPL2_ORDER[m], m);
      }
    } else if !v.kind.Opl2? && q.four {
      forall m: nat | Examined(v, q, m)
        ensures exists i :: 0 <= i < |FOUR_ORDER| && SameRoom(v, q, FOUR_ORDER[i], m)
      {
        assert SameRoom(v, q, FOUR_ORDER[m], m);
      }
    }
  }

  function UnpairedIndex(m: nat): nat
    requires 6 <= m && !Paired(m)
  {
    if m < 9 then m - 6 else m - 12
  }

  lemma UnpairedCovers(v: View, q: Request)
    requires v.Ok() && !v.kind.Opl2? && !q.four && (Forced(v) || CutShort(v, q))
    ensures Covers(v, q, UNPAIRED)
  {
    forall m: nat | Examined(v, q, m)
      ensures exists i :: 0 <= i < |UNPAIRED| && SameRoom(v, q, UNPAIRED[i], m)
    {
      assert SameRoom(v, q, UNPAIRED[UnpairedIndex(m)], m);
    }
  }

  lemma FullOrderCovers(v: View, q: Request)
    requires v.Ok() && !v.kind.Opl2? && !q.four && !Forced(v)
    ensures ArePlaces(PairOrder(v, 6), false) && Covers(v, q, UNPAIRED + PairOrder(v, 6))
  {
    PairOrderIsPlaces(v, 6);
    var order := UNPAIRED + PairOrder(v, 6);
    forall m: nat | Examined(v, q, m)
      ensures exists i :: 0 <= i < |order| && SameRoom(v, q, order[i], m)
    {
      if !Paired(m) {
        assert SameRoom(v, q, order[UnpairedIndex(m)], m);
      } else {
        var n := if m in PairOrder(v, 6) then m else Primary(PairOf(m));
        var i :| 0 <= i < |PairOrder(v, 6)| && PairOrder(v, 6)[i] == n;
        assert SameRoom(v, q, order[|UNPAIRED| + i], m);
      }
    }
  }

  lemma ChoiceDecides(v: View, q: Request) returns (order: seq<nat>, b: Best)
    requires v.Ok() && q.now < TIME_MAX && !(v.kind.Opl2? && q.four)
    ensures Decides(v, q, order, b)
  {
    NothingYet(v, q);
    FixedOrdersCover(v, q);
    if v.kind.Opl2? || q.four {
      order := if q.four then FOUR_ORDER else OPL2_ORDER;
      assert [] + order == order;
      b := ScanDecides(v, q, [], order, NONE_YET);
    } else {
      assert [] + UNPAIRED == UNPAIRED;
      ScanFindsVacantOrBest(v, q, [], UNPAIRED, NONE_YET);
      if !Forced(v) {
        FullOrderCovers(v, q);
      }
      match Scan(v, q, UNPAIRED, NONE_YET) {
        case Found(n) =>
          b := NONE_YET;
          if Forced(v) || CutShort(v, q) {
            order := UNPAIRED;
            UnpairedCovers(v, q);
          } else {
            order := UNPAIRED + PairOrder(v, 6);
          }
        case Going(first) =>
          if Forced(v) || (Preferred(v) && q.now >= first.off) {
            order, b := UNPAIRED, first;
            FirstBestIsPlaced(v, q, UNPAIRED, b);
            UnpairedCovers(v, q);
          } else {
            order := UNPAIRED + PairOrder(v, 6);
            b := ScanDecides(v, q, UNPAIRED, PairOrder(v, 6), first);
          }
      }
    }
  }

  /** A best that has been chosen is at the place of its candidate, which is taken. */
  lemma FirstBestIsPlaced(v: View, q: Request, order: seq<nat>, b: Best)
    requires v.Ok() && ArePlaces(order, q.four) && AllTaken(v, q, order)
    requires IsBest(Candidates(v, q, order), b, q, v.ignorePriority)
    ensures b.place.Some? ==> b.place.value in order && ProbeOf(v, q, b.place.value).Taken?
                              && (b.off <= q.now <==> Quiet(v, q, b.place.value))
  {
    if b.place.Some? {
      var i: nat :| i < |order| && Wins(Candidates(v, q, order), i, b, q, v.ignorePriority);
      ProbeMeaning(v, q, order[i]);
    }
  }

  lemma SameRoomSameProbe(v: View, q: Request, m: nat, n: nat)
    requires v.Ok() && m < Places(q.four) && n < Places(q.four) && SameRoom(v, q, m, n)
    ensures forall o :: Evicts(v, q.four, m, o) <==> Evicts(v, q.four, n, o)
    ensures Quiet(v, q, m) == Quiet(v, q, n) && Outranked(v, q, m) == Outranked(v, q, n)
    ensures ProbeOf(v, q, m).Taken? ==>
              ProbeOf(v, q, n) == Taken(ProbeOf(v, q, m).c.(place := n))
    ensures ProbeOf(v, q, m).Vacant? ==> ProbeOf(v, q, n).Vacant?
  {
    ProbeMeaning(v, q, m);
    ProbeMeaning(v, q, n);
  }

  // ----- The guarantees

  /** A voice finds a place unless every place it may take holds a sounding voice of higher priority; and the place it
      gets is one it may take, with no such voice. */
  lemma RefusedExactlyWhenOutranked(v: View, q: Request)
    requires v.Ok() && q.now < TIME_MAX
    ensures Choose(v, q).None? <==> forall n: nat | n < Places(q.four) && Permitted(v, q.four, n) :: Outranked(v, q, n)
    ensures var r := Choose(v, q);
            r.Some? ==> r.value < Places(q.four) && Permitted(v, q.four, r.value) && !Outranked(v, q, r.value)
  {
    if !(v.kind.Opl2? && q.four) {
      var order, b := ChoiceDecides(v, q);
      if Choose(v, q).Some? {
        ChosenIsInOrder(v, q, order, b);
      } else {
        forall n: nat | n < Places(q.four) && Permitted(v, q.four, n)
          ensures Outranked(v, q, n)
        {
          BestNothingMeansNotCut(v, q, order, b);
          assert Examined(v, q, n);
          var i :| 0 <= i < |order| && SameRoom(v, q, order[i], n);
          assert Candidates(v, q, order)[i] == ProbeOf(v, q, order[i]).c;
          ProbeMeaning(v, q, order[i]);
          SameRoomSameProbe(v, q, order[i], n);
        }
      }
    }
  }

  lemma ChosenIsInOrder(v: View, q: Request, order: seq<nat>, b: Best)
    requires v.Ok() && Decides(v, q, order, b) && Choose(v, q).Some?
    ensures var n := Choose(v, q).value;
            n < Places(q.four) && n in order && Permitted(v, q.four, n) && !Outranked(v, q, n)
  {
    var n := Choose(v, q).value;
    if !(n < Places(q.four) && ProbeOf(v, q, n).Vacant?) {
      FirstBestIsPlaced(v, q, order, b);
      var i: nat :| i < |order| && Wins(Candidates(v, q, order), i, b, q, v.ignorePriority);
      ProbeMeaning(v, q, order[i]);
    } else {
      ProbeMeaning(v, q, n);
    }
  }

  lemma BestNothingMeansNotCut(v: View, q: Request, order: seq<nat>, b: Best)
    requires v.Ok() && Decides(v, q, order, b) && Choose(v, q).None?
    ensures !CutShort(v, q)
  {
    if CutShort(v, q) {
      var u: nat :| u < |UNPAIRED| && Quiet(v, q, UNPAIRED[u]);
      var m := UNPAIRED[u];
      assert !Paired(m) && Examined(v, q, m);
      var i :| 0 <= i < |order| && SameRoom(v, q, order[i], m);
      assert Candidates(v, q, order)[i] == ProbeOf(v, q, order[i]).c;
      ProbeMeaning(v, q, m);
    }
  }

  /** If the voice may take a place where nothing sounds, free or with silent voices only, then nothing sounding is
      evicted, whatever the priorities. */
  lemma QuietPlaceIsPreferred(v: View, q: Request, m: nat)
    requires v.Ok() && q.now < TIME_MAX
    requires m < Places(q.four) && Permitted(v, q.four, m) && Quiet(v, q, m)
    ensures var r := Choose(v, q); r.Some? && r.value < Places(q.four) && Quiet(v, q, r.value)
  {
    RefusedExactlyWhenOutranked(v, q);
    var order, b := ChoiceDecides(v, q);
    var n := Choose(v, q).value;
    ProbeMeaning(v, q, n);
    if ProbeOf(v, q, n).Taken? {
      var m' :| Examined(v, q, m') && Quiet(v, q, m');
      ChosenEndsFirst(v, q, n, m');
      ProbeMeaning(v, q, m');
    }
  }

  /** When the chosen place is not vacant, no examined place is. If anything may be taken regardless of priority, the
      chosen voice may, and it ends before the others that may; otherwise no examined voice of no higher priority ends
      before it. */
  lemma ChosenEndsFirst(v: View, q: Request, n: nat, m: nat)
    requires v.Ok() && q.now < TIME_MAX
    requires Choose(v, q) == Some(n) && n < Places(q.four) && ProbeOf(v, q, n).Taken? && Examined(v, q, m)
    ensures ProbeOf(v, q, m).Taken?
    ensures var (c, d) := (ProbeOf(v, q, n).c, ProbeOf(v, q, m).c);
            && (Yields(d, q, v.ignorePriority) ==> Yields(c, q, v.ignorePriority) && NotLater(c, d))
            && (!Yields(c, q, v.ignorePriority) && d.priority <= c.priority ==> NotLater(c, d))
  {
    var order, b := ChoiceDecides(v, q);
    var cs := Candidates(v, q, order);
    var w: nat :| w < |order| && Wins(cs, w, b, q, v.ignorePriority);
    ProbeMeaning(v, q, order[w]);
    var i :| 0 <= i < |order| && SameRoom(v, q, order[i], m);
    SameRoomSameProbe(v, q, order[i], m);
    assert cs[i] == ProbeOf(v, q, order[i]).c;
    assert NotLater(cs[w], cs[i]) <==> NotLater(cs[w], ProbeOf(v, q, m).c);
  }

  // ----- What the modes mean, for a 2-operator voice on a chip with pairs

  /** A place where inserting evicts nobody. */
  ghost predicate Free(v: View, q: Request, place: nat)
    requires v.Ok() && place < Places(q.four)
  {
    forall o :: !Evicts(v, q.four, place, o)
  }

  /** In mode `force` no 2-operator voice is put in a pair, and with `auto_force` none while a pair is joined. Such a
      voice is then refused exactly when it is outranked at every unpaired place. */
  lemma ForceKeepsOutOfPairs(v: View, q: Request)
    requires v.Ok() && q.now < TIME_MAX && !v.kind.Opl2? && !q.four
    requires v.mode == Force || (v.mode == AutoForce && exists k | 0 <= k < 6 :: v.joined[k])
    ensures var r := Choose(v, q); r.Some? ==> r.value < 18 && !Paired(r.value)
    ensures Choose(v, q).None? <==> forall n: nat | n < 18 && !Paired(n) :: Outranked(v, q, n)
  {
    RefusedExactlyWhenOutranked(v, q);
  }

  /** In every other mode it is refused only when it is outranked everywhere. */
  lemma OthersRefuseOnlyWhenOutranked(v: View, q: Request)
    requires v.Ok() && q.now < TIME_MAX && !v.kind.Opl2? && !q.four
    requires !(v.mode == Force || (v.mode == AutoForce && exists k | 0 <= k < 6 :: v.joined[k]))
    ensures Choose(v, q).None? <==> forall n: nat | n < 18 :: Outranked(v, q, n)
  {
    RefusedExactlyWhenOutranked(v, q);
  }

  /** In every mode, the first free unpaired place is taken. */
  lemma FreeUnpairedIsTaken(v: View, q: Request, n: nat)
    requires v.Ok() && !v.kind.Opl2? && !q.four
    requires 6 <= n < 18 && !Paired(n) && Free(v, q, n)
    requires forall m: nat | 6 <= m < n && !Paired(m) :: !Free(v, q, m)
    ensures Choose(v, q) == Some(n)
  {
    FirstFreeIsFound(v, q, UNPAIRED, UnpairedIndex(n));
  }

  lemma FirstFreeIsFound(v: View, q: Request, order: seq<nat>, i: nat)
    requires v.Ok() && ArePlaces(order, q.four) && i < |order|
    requires Free(v, q, order[i]) && forall j | 0 <= j < i :: !Free(v, q, order[j])
    ensures Scan(v, q, order, NONE_YET) == Found(order[i])
  {
    ProbeMeaning(v, q, order[i]);
    NothingFreeIsScanned(v, q, order[..i], NONE_YET);
    ScanOneMore(v, q, order, i, NONE_YET);
  }

  /** In mode `yes`, and with `automatic` while a pair is joined, an unpaired place where nothing sounds keeps the
      voice out of the pairs. */
  lemma QuietUnpairedKeepsOutOfPairs(v: View, q: Request, m: nat)
    requires v.Ok() && q.now < TIME_MAX && !v.kind.Opl2? && !q.four
    requires v.mode == Yes || (v.mode == Automatic && exists k | 0 <= k < 6 :: v.joined[k])
    requires 6 <= m < 18 && !Paired(m) && Quiet(v, q, m)
    ensures var r := Choose(v, q); r.Some? && r.value < 18 && !Paired(r.value) && Quiet(v, q, r.value)
  {
    QuietPlaceIsPreferred(v, q, m);
    NothingYet(v, q);
    assert [] + UNPAIRED == UNPAIRED;
    ScanFindsVacantOrBest(v, q, [], UNPAIRED, NONE_YET);
    match Scan(v, q, UNPAIRED, NONE_YET) {
      case Found(n) =>
      case Going(b) => QuietUnpairedIsBest(v, q, m, b);
    }
  }

  lemma QuietUnpairedIsBest(v: View, q: Request, m: nat, b: Best)
    requires v.Ok() && !q.four && 6 <= m < 18 && !Paired(m) && Quiet(v, q, m)
    requires AllTaken(v, q, UNPAIRED) && IsBest(Candidates(v, q, UNPAIRED), b, q, v.ignorePriority)
    ensures b.place.Some? && b.place.value in UNPAIRED && b.off <= q.now
  {
    var i := UnpairedIndex(m);
    assert ProbeOf(v, q, UNPAIRED[i]).Taken? && UNPAIRED[i] == m;
    ProbeMeaning(v, q, m);
    FirstBestIsPlaced(v, q, UNPAIRED, b);
    QuietBestEnds(Candidates(v, q, UNPAIRED), i, b, q, v.ignorePriority);
  }

  /** The best has ended if any candidate has. */
  lemma QuietBestEnds(cs: seq<Candidate>, i: nat, b: Best, q: Request, ignore: bool)
    requires i < |cs| && IsBest(cs, b, q, ignore) && cs[i].off <= q.now
    ensures b.place.Some? && b.off <= q.now
  {
    assert Yields(cs[i], q, ignore);
  }

  /** When pairs are as good as any place: in mode `no`, and in the automatic modes while no pair is joined; in the
      others but `force`, when something sounds at every unpaired place. */
  ghost predicate PairsCount(v: View, q: Request)
    requires v.Ok() && !q.four
  {
    match v.mode
    case No => true
    case Yes => forall m: nat | 6 <= m < 18 && !Paired(m) :: !Quiet(v, q, m)
    case Force => false
    case Automatic =>
      (exists k | 0 <= k < 6 :: v.joined[k]) ==> forall m: nat | 6 <= m < 18 && !Paired(m) :: !Quiet(v, q, m)
    case AutoForce => !exists k | 0 <= k < 6 :: v.joined[k]
  }

  lemma NotCutShortWhenPairsCount(v: View, q: Request)
    requires v.Ok() && !q.four && PairsCount(v, q)
    ensures !CutShort(v, q) && !Forced(v)
  {
  }

  /** A place that is free is then taken before any voice gives way; and a voice that does is the first of all to
      end. */
  lemma PairsAreAsGood(v: View, q: Request, n: nat, m: nat)
    requires v.Ok() && q.now < TIME_MAX && !v.kind.Opl2? && !q.four && PairsCount(v, q)
    requires Choose(v, q) == Some(n) && m < 18
    ensures n < 18 && (Free(v, q, m) ==> Free(v, q, n))
    ensures ProbeOf(v, q, n).Taken? && ProbeOf(v, q, m).Taken? ==>
              var (c, d) := (ProbeOf(v, q, n).c, ProbeOf(v, q, m).c);
              && (Yields(d, q, v.ignorePriority) ==> Yields(c, q, v.ignorePriority) && NotLater(c, d))
              && (!Yields(c, q, v.ignorePriority) && d.priority <= c.priority ==> NotLater(c, d))
  {
    NotCutShortWhenPairsCount(v, q);
    RefusedExactlyWhenOutranked(v, q);
    ProbeMeaning(v, q, n);
    ProbeMeaning(v, q, m);
    if ProbeOf(v, q, n).Taken? {
      ChosenEndsFirst(v, q, n, m);
    }
  }

  /** And when no unpaired place is free, the first pair with one that is gives it, its primary channel before its
      secondary. */
  lemma FirstFreePairedIsTaken(v: View, q: Request, k: nat)
    requires v.Ok() && q.now < TIME_MAX && !v.kind.Opl2? && !q.four && PairsCount(v, q) && k < 6
    requires forall m: nat | m < 18 && (!Paired(m) || PairOf(m) < k) :: !Free(v, q, m)
    requires Free(v, q, Primary(k)) || Free(v, q, Secondary(k))
    ensures Choose(v, q) == Some(if Free(v, q, Primary(k)) then Primary(k) else Secondary(k))
  {
    var n := if Free(v, q, Primary(k)) then Primary(k) else Secondary(k);
    PairOrderIsPlaces(v, 6);
    PairOrderIsPlaces(v, k);
    NotCutShortWhenPairsCount(v, q);
    NothingFreeIsScanned(v, q, UNPAIRED, NONE_YET);
    var b := Scan(v, q, UNPAIRED, NONE_YET).best;
    NotPlacedEarly(v, q, b);
    NothingFreeIsScanned(v, q, PairOrder(v, k), b);
    ScanOnePairMore(v, q, k, b);
    PairIsSearched(v, q, k, Scan(v, q, PairOrder(v, k), b).best);
  }

  lemma {:induction false} NothingFreeIsScanned(v: View, q: Request, order: seq<nat>, start: Best)
    requires v.Ok() && ArePlaces(order, q.four) && forall i | 0 <= i < |order| :: !Free(v, q, order[i])
    ensures AllTaken(v, q, order) && Scan(v, q, order, start).Going?
  {
    forall i | 0 <= i < |order|
      ensures ProbeOf(v, q, order[i]).Taken?
    {
      ProbeMeaning(v, q, order[i]);
    }
    if order != [] {
      NothingFreeIsScanned(v, q, order[..|order| - 1], start);
    }
  }

  lemma PairIsSearched(v: View, q: Request, k: nat, start: Best)
    requires v.Ok() && !q.four && k < 6 && (Free(v, q, Primary(k)) || Free(v, q, Secondary(k)))
    ensures ArePlaces(PairPlaces(v, k), false)
    ensures Scan(v, q, PairPlaces(v, k), start) == Found(if Free(v, q, Primary(k)) then Primary(k) else Secondary(k))
  {
    ProbeMeaning(v, q, Primary(k));
    ProbeMeaning(v, q, Secondary(k));
    ScanOfOne(v, q, Primary(k), start);
    if v.joined[k] {
      SameRoomSameProbe(v, q, Primary(k), Secondary(k));
    } else {
      assert [Primary(k), Secondary(k)] == [Primary(k)] + [Secondary(k)];
      ScanInTwoParts(v, q, [Primary(k)], [Secondary(k)], start);
      match Scan(v, q, [Primary(k)], start) {
        case Found(_) =>
        case Going(b) => ScanOfOne(v, q, Secondary(k), b);
      }
    }
  }

  lemma ScanOfOne(v: View, q: Request, n: nat, start: Best)
    requires v.Ok() && n < Places(q.four)
    ensures Scan(v, q, [n], start) ==
            match ProbeOf(v, q, n)
            case Vacant => Found(n)
            case Taken(c) => Going(Consider(start, c, q, v.ignorePriority))
  {
    assert [n][..0] == [];
  }

  lemma NotPlacedEarly(v: View, q: Request, b: Best)
    requires v.Ok() && q.now < TIME_MAX && !v.kind.Opl2? && !q.four && !CutShort(v, q)
    requires AllTaken(v, q, UNPAIRED) && Scan(v, q, UNPAIRED, NONE_YET) == Going(b)
    ensures Preferred(v) ==> q.now < b.off
  {
    NothingYet(v, q);
    assert [] + UNPAIRED == UNPAIRED;
    ScanFindsVacantOrBest(v, q, [], UNPAIRED, NONE_YET);
    FirstBestIsPlaced(v, q, UNPAIRED, b);
  }

  /** A 4-operator voice, and any voice on an OPL2, gets the first place there is where nobody is. */
  lemma FirstFreeOfAllIsTaken(v: View, q: Request, n: nat)
    requires v.Ok() && (if q.four then !v.kind.Opl2? && n < 6 else v.kind.Opl2? && n < 9)
    requires Free(v, q, n) && forall m: nat | m < n :: !Free(v, q, m)
    ensures Choose(v, q) == Some(n)
  {
    FirstFreeIsFound(v, q, if q.four then FOUR_ORDER else OPL2_ORDER, n);
  }
}
