/** What a receiver that follows the protocol makes of the stub's frames: a `$` may not stand in a packet, a star
    repeats the byte before it, and `}` is the escape for binary data, which changes one bit of the byte after it. */
module GdbStandard {
  import opened Basics
  import opened GdbCodec

  const ESCAPE: Byte := 0x7d

  /** Bit 5 the other way round. */
  function Flip(b: Byte): Byte
  {
    if b / 0x20 % 2 == 1 then b - 0x20 else b + 0x20
  }

  function Unescape(s: seq<Byte>): Option<seq<Byte>>
    decreases |s|
  {
    if s == [] then Some([])
    else if s[0] != ESCAPE then Prepended(s[0], Unescape(s[1..]))
    else if |s| < 2 then None
    else Prepended(Flip(s[1]), Unescape(s[2..]))
  }

  function Prepended(b: Byte, s: Option<seq<Byte>>): Option<seq<Byte>>
  {
    match s
    case None => None
    case Some(rest) => Some([b] + rest)
  }

  /** The payload of the packet that the input begins with, if the packet is as it should be. */
  function Receive(input: seq<Byte>): Option<seq<Byte>>
  {
    if input == [] || input[0] != DOLLAR then None
    else
      var s := input[1..];
      var k := BeforeHash(s);
      if k == |s| || |s| < k + 3 || DOLLAR in s[..k] || Decode(s[k + 1..k + 3]) != Some(Checksum(s[..k])) then None
      else Contents(s[..k])
  }

  function Contents(body: seq<Byte>): Option<seq<Byte>>
  {
    match Expand(body, [])
    case None => None
    case Some(s) => Unescape(s)
  }

  // ----- Counting

  predicate Special(b: Byte)
  {
    b == HASH || b == DOLLAR || b == STAR || b == ESCAPE
  }

  function Specials(s: seq<Byte>): nat
  {
    if s == [] then 0 else (if Special(s[0]) then 1 else 0) + Specials(s[1..])
  }

  function CountOf(b: Byte, s: seq<Byte>): nat
  {
    if s == [] then 0 else (if s[0] == b then 1 else 0) + CountOf(b, s[1..])
  }

  /** Runs of escapes: only the last of each can escape anything else than an escape. */
  function Groups(s: seq<Byte>): nat
  {
    if s == [] then 0 else (if s[0] == ESCAPE && (|s| == 1 || s[1] != ESCAPE) then 1 else 0) + Groups(s[1..])
  }

  /** From bytes without them, special bytes come only by escapes, at most one for each run of escapes. */
  lemma {:induction false} SpecialsTakeGroups(s: seq<Byte>)
    requires HASH !in s && DOLLAR !in s && STAR !in s && Unescape(s).Some?
    ensures Specials(Unescape(s).value) <= Groups(s)
    decreases |s|
  {
    if s != [] {
      if s[0] != ESCAPE {
        SpecialsTakeGroups(s[1..]);
        var u := Unescape(s[1..]).value;
        assert ([s[0]] + u)[1..] == u;
      } else {
        SpecialsTakeGroups(s[2..]);
        var u := Unescape(s[2..]).value;
        assert ([Flip(s[1])] + u)[1..] == u;
        assert s[1..][1..] == s[2..];
        assert Special(Flip(s[1])) ==> s[1] != ESCAPE;
      }
    }
  }

  lemma {:induction false} GroupsOfOneMore(s: seq<Byte>, b: Byte)
    ensures Groups(s + [b]) == Groups(s) + if b == ESCAPE && (s == [] || s[|s| - 1] != ESCAPE) then 1 else 0
  {
    if s == [] {
      assert [] + [b] == [b] && [b][1..] == [];
    } else {
      GroupsOfOneMore(s[1..], b);
      assert (s + [b])[1..] == s[1..] + [b];
    }
  }

  /** Repeating the last byte makes no more runs. */
  lemma {:induction false} GroupsOfRepeated(s: seq<Byte>, n: nat)
    requires s != []
    ensures Groups(s + Repeat(s[|s| - 1], n)) == Groups(s)
  {
    var b := s[|s| - 1];
    if n == 0 {
      assert s + Repeat(b, n) == s;
    } else {
      GroupsOfRepeated(s, n - 1);
      var t := s + Repeat(b, n - 1);
      assert s + Repeat(b, n) == t + [b];
      GroupsOfOneMore(t, b);
    }
  }

  /** Escapes among the bytes that expansion takes literally; `counting` if the first byte is a count. */
  function Literals(s: seq<Byte>, counting: bool): nat
  {
    if s == [] then 0
    else if counting then Literals(s[1..], false)
    else if s[0] == STAR then Literals(s[1..], true)
    else (if s[0] == ESCAPE then 1 else 0) + Literals(s[1..], false)
  }

  lemma {:induction false} ExpansionMakesNoGroups(s: seq<Byte>, out: seq<Byte>)
    requires Expand(s, out).Some?
    ensures Groups(Expand(s, out).value) <= Groups(out) + Literals(s, false)
    decreases |s|
  {
    if s != [] {
      if s[0] != STAR {
        GroupsOfOneMore(out, s[0]);
        ExpansionMakesNoGroups(s[1..], out + [s[0]]);
      } else {
        GroupsOfRepeated(out, s[1] - 29);
        ExpansionMakesNoGroups(s[2..], out + Repeat(out[|out| - 1], s[1] - 29));
        assert s[1..][1..] == s[2..];
      }
    }
  }

  function Counting(s: seq<Byte>, counting: bool): bool
  {
    if s == [] then counting else Counting(s[1..], !counting && s[0] == STAR)
  }

  lemma {:induction false} LiteralsInParts(a: seq<Byte>, b: seq<Byte>, counting: bool)
    ensures Literals(a + b, counting) == Literals(a, counting) + Literals(b, Counting(a, counting))
  {
    if a == [] {
      assert a + b == b;
    } else {
      LiteralsInParts(a[1..], b, !counting && a[0] == STAR);
      assert (a + b)[0] == a[0] && (a + b)[1..] == a[1..] + b;
    }
  }

  lemma {:induction false} CountInParts(x: Byte, a: seq<Byte>, b: seq<Byte>)
    ensures CountOf(x, a + b) == CountOf(x, a) + CountOf(x, b)
  {
    if a == [] {
      assert a + b == b;
    } else {
      CountInParts(x, a[1..], b);
      assert (a + b)[0] == a[0] && (a + b)[1..] == a[1..] + b;
    }
  }

  lemma {:induction false} CountOfRepeat(x: Byte, b: Byte, n: nat)
    ensures CountOf(x, Repeat(b, n)) == if b == x then n else 0
  {
    if n > 0 {
      CountOfRepeat(x, b, n - 1);
      assert Repeat(b, n)[1..] == Repeat(b, n - 1);
    }
  }

  lemma {:induction false} LiteralsOfRepeat(b: Byte, n: nat, counting: bool)
    ensures Literals(Repeat(b, n), counting) <= if b == ESCAPE then n else 0
  {
    if n > 0 {
      LiteralsOfRepeat(b, n - 1, !counting && b == STAR);
      assert Repeat(b, n)[1..] == Repeat(b, n - 1);
    }
  }

  /** A count that is an escape can be taken literally only behind a run of stars. */
  lemma LiteralsOfPacked(b: Byte, n: nat, counting: bool)
    requires 0 < n <= 98
    ensures 2 * Literals(Packed(b, n), counting) <= if b == ESCAPE then 2 * n else if b == STAR then n else 0
  {
    if n > 3 {
      var s := [b, STAR, n + 28];
      var (two, one) := ([STAR, n + 28], [n + 28]);
      assert s[1..] == two && two[1..] == one && one[1..] == [];
      assert Literals([], false) == 0 && Literals([], true) == 0;
      assert Literals(one, true) == 0 && Literals(one, false) <= 1;
      assert two[0] == STAR;
      assert Literals(two, true) == Literals(one, false) && Literals(two, false) == Literals(one, true);
    } else {
      LiteralsOfRepeat(b, n, counting);
    }
  }

  lemma {:induction false} LiteralsOfCompressed(p: seq<Byte>, counting: bool)
    ensures 2 * Literals(Compress(p), counting) <= 2 * CountOf(ESCAPE, p) + CountOf(STAR, p)
    decreases |p|
  {
    if p != [] {
      var n := Chunk(Run(p));
      var (first, rest) := (Packed(p[0], n), p[n..]);
      LiteralsInParts(first, Compress(rest), counting);
      LiteralsOfPacked(p[0], n, counting);
      LiteralsOfCompressed(rest, Counting(first, counting));
      CountsByRun(p, ESCAPE);
      CountsByRun(p, STAR);
    }
  }

  lemma CountsByRun(p: seq<Byte>, x: Byte)
    requires p != []
    ensures var n := Chunk(Run(p)); CountOf(x, p) == (if p[0] == x then n else 0) + CountOf(x, p[n..])
  {
    var n := Chunk(Run(p));
    RunComesFirst(p);
    CountInParts(x, Repeat(p[0], n), p[n..]);
    CountOfRepeat(x, p[0], n);
  }

  lemma {:induction false} SpecialsAddUp(s: seq<Byte>)
    ensures Specials(s) == CountOf(ESCAPE, s) + CountOf(STAR, s) + CountOf(HASH, s) + CountOf(DOLLAR, s)
  {
    if s != [] {
      SpecialsAddUp(s[1..]);
    }
  }

  lemma {:induction false} CountsWhatIsThere(x: Byte, s: seq<Byte>)
    ensures CountOf(x, s) == 0 <==> x !in s
  {
    if s != [] {
      CountsWhatIsThere(x, s[1..]);
    }
  }

  // ----- What comes back

  lemma LiteralsOfPrefix(s: seq<Byte>, k: nat)
    requires k <= |s|
    ensures Literals(s[..k], false) <= Literals(s, false)
  {
    assert s == s[..k] + s[k..];
    LiteralsInParts(s[..k], s[k..], false);
  }

  /** A payload that comes back, from all of its frame or from a part, has none of the special bytes but escapes. */
  lemma OnlyEscapesComeBack(p: seq<Byte>, k: nat)
    requires k <= |Compress(p)|
    requires var body := Compress(p)[..k]; HASH !in body && DOLLAR !in body && Contents(body) == Some(p)
    ensures HASH !in p && DOLLAR !in p && STAR !in p
  {
    var body := Compress(p)[..k];
    var e := Expand(body, []).value;
    ExpandMakesNo(HASH, body, []);
    ExpandMakesNo(DOLLAR, body, []);
    ExpandMakesNo(STAR, body, []);
    SpecialsTakeGroups(e);
    ExpansionMakesNoGroups(body, []);
    LiteralsOfPrefix(Compress(p), k);
    LiteralsOfCompressed(p, false);
    SpecialsAddUp(p);
    CountsWhatIsThere(HASH, p);
    CountsWhatIsThere(DOLLAR, p);
    CountsWhatIsThere(STAR, p);
  }

  lemma {:induction false} UnescapeShortens(s: seq<Byte>)
    ensures ESCAPE !in s ==> Unescape(s) == Some(s)
    ensures ESCAPE in s && Unescape(s).Some? ==> |Unescape(s).value| < |s|
    ensures Unescape(s).Some? ==> |Unescape(s).value| <= |s|
    decreases |s|
  {
    if s != [] {
      if s[0] != ESCAPE {
        UnescapeShortens(s[1..]);
        assert [s[0]] + s[1..] == s;
      } else if |s| >= 2 {
        UnescapeShortens(s[2..]);
      }
    }
  }

  lemma BodyIsFound(p: seq<Byte>, more: seq<Byte>) returns (k: nat)
    ensures k <= |Compress(p)| && (HASH !in p ==> k == |Compress(p)|)
    ensures Receive(Frame(p) + more).Some? ==>
              && HASH !in Compress(p)[..k] && DOLLAR !in Compress(p)[..k]
              && Receive(Frame(p) + more) == Contents(Compress(p)[..k])
  {
    var (body, s) := (Compress(p), Tail(Compress(p), more));
    FrameHasTail(p, more);
    assert ([DOLLAR] + s)[1..] == s;
    CompressKeepsFree(p, HASH);
    k := BeforeHash(s);
    assert s[|body|] == HASH;
    assert k <= |body|;
    assert s[..k] == body[..k];
    assert HASH !in p ==> forall i | 0 <= i < |body| :: s[i] == body[i] != HASH;
  }

  lemma CleanFrameIsReceived(p: seq<Byte>, more: seq<Byte>)
    requires HASH !in p && DOLLAR !in p
    ensures Receive(Frame(p) + more) == Contents(Compress(p))
  {
    var (body, s) := (Compress(p), Tail(Compress(p), more));
    var digits := Hex([Checksum(body)]);
    FrameHasTail(p, more);
    assert ([DOLLAR] + s)[1..] == s;
    CompressKeepsFree(p, HASH);
    CompressKeepsFree(p, DOLLAR);
    BodyEnds(body, more);
    TwoDigits(digits, Checksum(body));
  }

  lemma BodyEnds(body: seq<Byte>, more: seq<Byte>)
    requires HASH !in body
    ensures var s := Tail(body, more);
            && BeforeHash(s) == |body| && s[..|body|] == body && |s| >= |body| + 3
            && s[|body| + 1..|body| + 3] == Hex([Checksum(body)])
  {
    var s := Tail(body, more);
    assert forall i | 0 <= i < |body| :: s[i] == body[i];
    assert s[|body|] == HASH;
  }

  /** A receiver that follows the protocol takes the payload out of its frame exactly when there is none of `#`,
      `$`, `*` and `}` in it. */
  lemma StandardExactly(p: seq<Byte>, more: seq<Byte>)
    ensures Receive(Frame(p) + more) == Some(p) <==> forall b | b in p :: !Special(b)
  {
    if HASH in p || DOLLAR in p || STAR in p {
      var k := BodyIsFound(p, more);
      if Receive(Frame(p) + more) == Some(p) {
        OnlyEscapesComeBack(p, k);
      }
    } else {
      CleanFrameIsReceived(p, more);
      ExpandUndoesCompress(p, []);
      assert [] + p == p;
      UnescapeShortens(p);
    }
  }
}
