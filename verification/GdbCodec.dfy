/** The packet codec of the remote debugging stub: run-length compression, framing with a checksum, and hexadecimal. */
module GdbCodec {
  import opened Basics

  const BUFFER_SIZE: nat := 4096
  const DOLLAR: Byte := 0x24
  const HASH: Byte := 0x23
  const STAR: Byte := 0x2a
  const PLUS: Byte := 0x2b
  const MINUS: Byte := 0x2d

  function Repeat(b: Byte, n: nat): seq<Byte> {
    seq(n, _ => b)
  }

  // Compression.

  /** How many times the first byte stands at the front. */
  function Run(p: seq<Byte>): (n: nat)
    requires p != []
    ensures 0 < n <= |p| && (forall i | 0 <= i < n :: p[i] == p[0]) && (n < |p| ==> p[n] != p[0])
  {
    if |p| == 1 || p[1] != p[0] then 1 else 1 + Run(p[1..])
  }

  /** How much of a run is sent at once: the count must be printable, and neither `#` nor `$`. */
  function Chunk(run: nat): (n: nat)
    requires run > 0
    ensures 0 < n <= run && n <= 98 && n != 7 && n != 8
  {
    var most := if run > 98 then 98 else run;
    if run <= 3 then run else if 7 <= most < 9 then 6 else most
  }

  /** A run as it is sent. The count byte is 29 more than the number of repetitions. */
  function Packed(b: Byte, n: nat): seq<Byte>
    requires n <= 98
  {
    if n > 3 then [b, STAR, n + 28] else Repeat(b, n)
  }

  lemma RunComesFirst(p: seq<Byte>)
    requires p != []
    ensures var n := Chunk(Run(p)); p == Repeat(p[0], n) + p[n..]
  {
  }

  function Compress(p: seq<Byte>): seq<Byte> {
    if p == [] then [] else Packed(p[0], Chunk(Run(p))) + Compress(p[Chunk(Run(p))..])
  }

  /** Run-length expansion, one byte after the other: a star repeats the byte expanded last. */
  function Expand(s: seq<Byte>, out: seq<Byte>): Option<seq<Byte>>
    decreases |s|
  {
    if s == [] then
      Some(out)
    else if s[0] != STAR then
      Expand(s[1..], out + [s[0]])
    else if out == [] || |s| < 2 || s[1] <= 29 then
      None
    else
      Expand(s[2..], out + Repeat(out[|out| - 1], s[1] - 29))
  }

  lemma {:induction false} ExpandLiterals(b: Byte, n: nat, rest: seq<Byte>, out: seq<Byte>)
    requires b != STAR
    ensures Expand(Repeat(b, n) + rest, out) == Expand(rest, out + Repeat(b, n))
  {
    if n == 0 {
      assert Repeat(b, n) + rest == rest && out + Repeat(b, n) == out;
    } else {
      ExpandLiterals(b, n - 1, rest, out + [b]);
      assert (Repeat(b, n) + rest)[1..] == Repeat(b, n - 1) + rest;
      assert out + [b] + Repeat(b, n - 1) == out + Repeat(b, n);
    }
  }

  lemma ExpandPacked(b: Byte, n: nat, rest: seq<Byte>, out: seq<Byte>)
    requires b != STAR && n <= 98
    ensures Expand(Packed(b, n) + rest, out) == Expand(rest, out + Repeat(b, n))
  {
    if n > 3 {
      var s := [b, STAR, n + 28] + rest;
      assert s[1..] == [STAR, n + 28] + rest;
      assert s[1..][2..] == rest;
      assert out + [b] + Repeat(b, n - 1) == out + Repeat(b, n);
    } else {
      ExpandLiterals(b, n, rest, out);
    }
  }

  lemma ExpandFirst(p: seq<Byte>, out: seq<Byte>)
    requires p != [] && STAR !in p
    ensures var n := Chunk(Run(p));
            Expand(Compress(p), out) == Expand(Compress(p[n..]), out + Repeat(p[0], n))
  {
    var n := Chunk(Run(p));
    ExpandPacked(p[0], n, Compress(p[n..]), out);
  }

  lemma Regroup(p: seq<Byte>, out: seq<Byte>)
    requires p != []
    ensures var n := Chunk(Run(p)); out + Repeat(p[0], n) + p[n..] == out + p
  {
    var n := Chunk(Run(p));
    RunComesFirst(p);
    assert out + Repeat(p[0], n) + p[n..] == out + (Repeat(p[0], n) + p[n..]);
  }

  lemma {:induction false} ExpandUndoesCompress(p: seq<Byte>, out: seq<Byte>)
    requires STAR !in p
    ensures Expand(Compress(p), out) == Some(out + p)
    decreases |p|
  {
    if p == [] {
      assert out + p == out;
    } else {
      var n := Chunk(Run(p));
      ExpandFirst(p, out);
      ExpandUndoesCompress(p[n..], out + Repeat(p[0], n));
      Regroup(p, out);
    }
  }

  /** A decoder makes no byte that it has not read, and never a star. */
  lemma {:induction false} ExpandMakesNo(b: Byte, s: seq<Byte>, out: seq<Byte>)
    requires b !in out && (b == STAR || b !in s) && Expand(s, out).Some?
    ensures b !in Expand(s, out).value
    decreases |s|
  {
    if s != [] {
      if s[0] != STAR {
        ExpandMakesNo(b, s[1..], out + [s[0]]);
      } else {
        ExpandMakesNo(b, s[2..], out + Repeat(out[|out| - 1], s[1] - 29));
      }
    }
  }

  /** A payload comes back from compression exactly when there is no star in it. */
  lemma ComesBackExactlyWithoutStar(p: seq<Byte>)
    ensures Expand(Compress(p), []) == Some(p) <==> STAR !in p
  {
    if STAR !in p {
      ExpandUndoesCompress(p, []);
      assert [] + p == p;
    } else if Expand(Compress(p), []).Some? {
      ExpandMakesNo(STAR, Compress(p), []);
    }
  }

  /** Compression makes nothing longer. */
  lemma {:induction false} CompressIsShort(p: seq<Byte>)
    ensures |Compress(p)| <= |p|
    decreases |p|
  {
    if p != [] {
      CompressIsShort(p[Chunk(Run(p))..]);
    }
  }

  /** The length of the last part of a run: up to three bytes as they are, and else a byte and its count, with one
      or two bytes left over where the count may not be sent. */
  function LastOfRun(n: nat): nat
    requires n < 98
  {
    if n <= 3 then n else if n == 7 then 4 else if n == 8 then 5 else 3
  }

  /** A run takes three bytes for every 98, and its last part. */
  lemma {:induction false} RunsBecomeShort(b: Byte, n: nat)
    ensures |Compress(Repeat(b, n))| == 3 * (n / 98) + LastOfRun(n % 98)
    decreases n
  {
    if n > 0 {
      var k := Chunk(n);
      FirstOfRun(b, n);
      RunsBecomeShort(b, n - k);
      LengthsAddUp(n);
    }
  }

  lemma FirstOfRun(b: Byte, n: nat)
    requires n > 0
    ensures var k := Chunk(n); Compress(Repeat(b, n)) == Packed(b, k) + Compress(Repeat(b, n - k))
  {
    var (p, k) := (Repeat(b, n), Chunk(n));
    assert Run(p) == n && p[k..] == Repeat(b, n - k);
  }

  lemma LengthsAddUp(n: nat)
    requires n > 0
    ensures var k := Chunk(n);
            3 * (n / 98) + LastOfRun(n % 98) ==
            (if k > 3 then 3 else k) + 3 * ((n - k) / 98) + LastOfRun((n - k) % 98)
  {
    if n >= 98 {
      assert Chunk(n) == 98 && (n - 98) / 98 == n / 98 - 1 && (n - 98) % 98 == n % 98;
    }
  }

  lemma PackedKeepsFree(first: Byte, n: nat, b: Byte)
    requires 0 < n <= 98 && n != 7 && n != 8 && (b == HASH || b == DOLLAR || b < 0x20 || b > 0x7e)
    ensures b in Packed(first, n) <==> b == first
  {
    assert Packed(first, n)[0] == first;
  }

  lemma RepeatIn(first: Byte, n: nat, b: Byte)
    requires 0 < n
    ensures b in Repeat(first, n) <==> b == first
  {
    assert Repeat(first, n)[0] == first;
  }

  /** Compression makes no byte with a meaning for frames, and nothing that is not printable, unless it was there. */
  lemma {:induction false} CompressKeepsFree(p: seq<Byte>, b: Byte)
    requires b == HASH || b == DOLLAR || b < 0x20 || b > 0x7e
    ensures b in Compress(p) <==> b in p
    decreases |p|
  {
    if p != [] {
      var n := Chunk(Run(p));
      CompressKeepsFree(p[n..], b);
      PackedKeepsFree(p[0], n, b);
      RepeatIn(p[0], n, b);
      RunComesFirst(p);
    }
  }

  // Hexadecimal.

  function Digit(n: nat): Byte
    requires n < 16
  {
    if n < 10 then 0x30 + n else 0x57 + n
  }

  function Nibble(c: Byte): (n: Option<nat>)
    ensures n.Some? ==> n.value < 16
  {
    if 0x30 <= c <= 0x39 then Some(c - 0x30) else if 0x61 <= c <= 0x66 then Some(c - 0x57) else None
  }

  function Hex(s: seq<Byte>): (h: seq<Byte>)
    ensures |h| == 2 * |s|
  {
    if s == [] then [] else [Digit(s[0] / 16), Digit(s[0] % 16)] + Hex(s[1..])
  }

  function Appended(high: nat, c: Byte): (n: Option<nat>)
    ensures n.Some? ==> n.value < 0x1_0000_0000
  {
    match Nibble(c)
    case Some(low) => Some(high * 16 % 0x1_0000_0000 + low)
    case None => None
  }

  /** A number of any length, cut to 32 bits; nothing when a character is no digit. */
  function Decode(s: seq<Byte>): (n: Option<nat>)
    ensures n.Some? ==> n.value < 0x1_0000_0000
  {
    if s == [] then
      Some(0)
    else
      match Decode(s[..|s| - 1])
      case Some(high) => Appended(high, s[|s| - 1])
      case None => None
  }

  lemma NibbleIsDigit(c: Byte, n: nat)
    requires n < 16
    ensures Nibble(c) == Some(n) <==> c == Digit(n)
  {
  }

  /** The digits of GDB, and no other characters. */
  lemma DigitsAreLowerCase(c: Byte, n: nat)
    requires n < 16
    ensures Digit(n) == "0123456789abcdef"[n] as int
    ensures Nibble(c) == Some(n) <==> c == "0123456789abcdef"[n] as int
  {
  }

  lemma SplitsUniquely(high: nat, low: nat, b: nat)
    requires high < 16 && low < 16
    ensures high * 16 + low == b <==> high == b / 16 && low == b % 16
  {
  }

  lemma DecodeTwo(s: seq<Byte>)
    requires |s| == 2
    ensures Decode(s) == match Nibble(s[0])
                         case Some(high) => Appended(high, s[1])
                         case None => None
  {
    assert s[..1] == [s[0]];
    assert Decode(s[..1][..0]) == Some(0);
    assert Decode(s[..1]) == Nibble(s[0]);
  }

  /** Two digits decode to a byte exactly when they are that byte's. */
  lemma TwoDigits(s: seq<Byte>, b: Byte)
    requires |s| == 2
    ensures Decode(s) == Some(b) <==> s[0] == Digit(b / 16) && s[1] == Digit(b % 16)
    ensures Decode(s).Some? ==> Decode(s).value < 0x100
  {
    DecodeTwo(s);
    NibbleIsDigit(s[0], b / 16);
    NibbleIsDigit(s[1], b % 16);
    match (Nibble(s[0]), Nibble(s[1])) {
      case (Some(high), Some(low)) => SplitsUniquely(high, low, b);
      case _ =>
    }
  }

  /** The bytes that the first `n` pairs of digits stand for. */
  function Unhex(h: seq<Byte>, n: nat): (s: Option<seq<Byte>>)
    requires 2 * n <= |h|
    ensures s.Some? ==> |s.value| == n
  {
    if n == 0 then
      Some([])
    else
      match (Decode(h[..2]), Unhex(h[2..], n - 1))
      case (Some(b), Some(s)) => Some([b % 0x100] + s)
      case _ => None
  }

  lemma UnhexFirst(h: seq<Byte>, n: nat)
    requires 0 < n && 2 * n <= |h|
    ensures Unhex(h, n).Some? <==> Decode(h[..2]).Some? && Unhex(h[2..], n - 1).Some?
    ensures Unhex(h, n).Some? ==> Decode(h[..2]) == Some(Unhex(h, n).value[0])
    ensures Unhex(h, n).Some? ==> Unhex(h[2..], n - 1) == Some(Unhex(h, n).value[1..])
  {
    TwoDigits(h[..2], 0);
  }

  /** Characters decode to bytes exactly when they are those bytes' digits. */
  lemma {:induction false} HexRoundTrip(h: seq<Byte>, s: seq<Byte>)
    requires |h| == 2 * |s|
    ensures Unhex(h, |s|) == Some(s) <==> h == Hex(s)
  {
    if s != [] {
      HexRoundTrip(h[2..], s[1..]);
      TwoDigits(h[..2], s[0]);
      UnhexFirst(h, |s|);
      assert h == [h[0], h[1]] + h[2..] && s == [s[0]] + s[1..];
      assert Unhex(h, |s|).Some? ==> Unhex(h, |s|).value == [Unhex(h, |s|).value[0]] + Unhex(h, |s|).value[1..];
    }
  }

  function Checksum(s: seq<Byte>): Byte {
    if s == [] then 0 else (Checksum(s[..|s| - 1]) + s[|s| - 1]) % 0x100
  }

  function Total(s: seq<Byte>): nat {
    if s == [] then 0 else s[0] + Total(s[1..])
  }

  lemma {:induction false} TotalOfMore(s: seq<Byte>, b: Byte)
    ensures Total(s + [b]) == Total(s) + b
  {
    if s != [] {
      TotalOfMore(s[1..], b);
      assert (s + [b])[1..] == s[1..] + [b];
    }
  }

  /** The checksum is the sum of all bytes, cut to eight bits. */
  lemma {:induction false} ChecksumIsTotal(s: seq<Byte>)
    ensures Checksum(s) == Total(s) % 0x100
  {
    if s != [] {
      var (init, b) := (s[..|s| - 1], s[|s| - 1]);
      ChecksumIsTotal(init);
      TotalOfMore(init, b);
      assert s == init + [b];
      CutTwice(Total(init), b);
    }
  }

  lemma CutTwice(n: nat, b: nat)
    ensures (n % 0x100 + b) % 0x100 == (n + b) % 0x100
  {
  }

  // Frames.

  function Frame(p: seq<Byte>): seq<Byte> {
    [DOLLAR] + Compress(p) + [HASH] + Hex([Checksum(Compress(p))])
  }

  /** What comes in: nothing; one of the characters with a meaning of their own, or without any; or a packet, which
      may end with the input, be longer than the buffer, have no number for a checksum, or the wrong one. */
  datatype Reception = Nothing | Resend | Acknowledged | Interrupt | Ignored
                     | Ended | TooLong | NoNumber | Damaged(body: seq<Byte>) | Packet(body: seq<Byte>)
  {
    predicate OfPacket() {
      Ended? || TooLong? || NoNumber? || Damaged? || Packet?
    }
  }

  /** The length of what comes before the first `#`. */
  function BeforeHash(s: seq<Byte>): (k: nat)
    ensures k <= |s| && (forall i | 0 <= i < k :: s[i] != HASH) && (k < |s| ==> s[k] == HASH)
  {
    if s == [] || s[0] == HASH then 0 else 1 + BeforeHash(s[1..])
  }

  function Parse(input: seq<Byte>): (Reception, seq<Byte>) {
    if input == [] then (Nothing, [])
    else if input[0] == MINUS then (Resend, input[1..])
    else if input[0] == PLUS then (Acknowledged, input[1..])
    else if input[0] == 3 then (Interrupt, input[1..])
    else if input[0] != DOLLAR then (Ignored, input[1..])
    else ParsePacket(input[1..])
  }

  function ParsePacket(s: seq<Byte>): (Reception, seq<Byte>) {
    var k := BeforeHash(s);
    if k < BUFFER_SIZE && k < |s| then ParseSum(s[..k], s[k + 1..])
    else if |s| < BUFFER_SIZE then (Ended, [])
    else (TooLong, s[BUFFER_SIZE - 1..])
  }

  /** What is sent in answer; on request, the last frame once more. */
  function Answer(r: Reception, last: seq<Byte>): seq<Byte> {
    match r
    case Resend => last
    case Packet(_) => [PLUS]
    case Damaged(_) => [MINUS]
    case TooLong => [MINUS]
    case _ => []
  }

  function ParseSum(body: seq<Byte>, s: seq<Byte>): (Reception, seq<Byte>) {
    if |s| < 2 then
      (Ended, [])
    else
      match Decode(s[..2])
      case None => (NoNumber, s[2..])
      case Some(sum) => (if sum == Checksum(body) then Packet(body) else Damaged(body), s[2..])
  }

  lemma SumIsReceived(body: seq<Byte>, more: seq<Byte>)
    ensures ParseSum(body, Hex([Checksum(body)]) + more) == (Packet(body), more)
  {
    var digits := Hex([Checksum(body)]);
    assert (digits + more)[..2] == digits && (digits + more)[2..] == more;
    TwoDigits(digits, Checksum(body));
  }

  /** How a frame looks after its first character. */
  function Tail(body: seq<Byte>, more: seq<Byte>): seq<Byte> {
    body + [HASH] + Hex([Checksum(body)]) + more
  }

  lemma FrameHasTail(p: seq<Byte>, more: seq<Byte>)
    ensures Frame(p) + more == [DOLLAR] + Tail(Compress(p), more)
  {
  }

  lemma BodyIsReceived(body: seq<Byte>, more: seq<Byte>)
    requires HASH !in body && |body| < BUFFER_SIZE
    ensures Parse([DOLLAR] + Tail(body, more)) == (Packet(body), more)
  {
    var s := Tail(body, more);
    assert BeforeHash(s) == |body| by {
      assert forall i | 0 <= i < |body| :: s[i] == body[i];
      assert s[|body|] == HASH;
    }
    assert s[..|body|] == body;
    assert s[|body| + 1..] == Hex([Checksum(body)]) + more;
    SumIsReceived(body, more);
    assert ([DOLLAR] + s)[1..] == s;
  }

  lemma BodyIsCut(body: seq<Byte>, more: seq<Byte>)
    requires HASH in body
    ensures Parse([DOLLAR] + Tail(body, more)).0 != Packet(body)
  {
    var s := Tail(body, more);
    var k :| 0 <= k < |body| && body[k] == HASH;
    assert s[k] == HASH;
    assert ([DOLLAR] + s)[1..] == s;
  }

  /** A frame is received as the compressed payload, with all that comes after it left over, exactly when there is
      no `#` in the payload. */
  lemma ReceivedExactlyWithoutHash(p: seq<Byte>, more: seq<Byte>)
    requires |p| <= BUFFER_SIZE - 4
    ensures Parse(Frame(p) + more) == (Packet(Compress(p)), more) <==> HASH !in p
  {
    CompressIsShort(p);
    CompressKeepsFree(p, HASH);
    FrameHasTail(p, more);
    if HASH !in p {
      BodyIsReceived(Compress(p), more);
    } else {
      BodyIsCut(Compress(p), more);
    }
  }

  /** What comes in when a packet with this body and these two characters behind it does. */
  function Sending(body: seq<Byte>, digits: seq<Byte>, more: seq<Byte>): seq<Byte> {
    [0x24] + body + [0x23] + digits + more
  }

  lemma SendingIsParsed(body: seq<Byte>, digits: seq<Byte>, more: seq<Byte>)
    requires 0x23 !in body && |body| < BUFFER_SIZE && |digits| == 2
    ensures Parse(Sending(body, digits, more)) == ParseSum(body, digits + more)
  {
    var s := body + [0x23] + digits + more;
    assert Sending(body, digits, more) == [0x24] + s;
    assert BeforeHash(s) == |body| by {
      assert forall i | 0 <= i < |body| :: s[i] == body[i];
      assert s[|body|] == HASH;
    }
    assert s[..|body|] == body && s[|body| + 1..] == digits + more;
  }

  /** The two digits of a byte. */
  function DigitsOf(b: Byte): (s: seq<Byte>)
    ensures |s| == 2
  {
    [Digit(b / 16), Digit(b % 16)]
  }

  predicate AreDigits(s: seq<Byte>)
    requires |s| == 2
  {
    (0x30 <= s[0] <= 0x39 || 0x61 <= s[0] <= 0x66) && (0x30 <= s[1] <= 0x39 || 0x61 <= s[1] <= 0x66)
  }

  /** A packet with this body and these two characters is taken, and answered with a plus, exactly when they are the
      digits of its checksum. It is answered with a minus exactly when they are other digits, and otherwise with
      nothing. */
  predicate AnswersRight(r: Reception, body: seq<Byte>, digits: seq<Byte>, answer: seq<Byte>)
    requires |digits| == 2
  {
    if digits == DigitsOf(Total(body) % 0x100) then r == Packet(body) && answer == [0x2b]
    else r.OfPacket() && !r.Packet? && answer == if AreDigits(digits) then [0x2d] else []
  }

  lemma SumIsAnswered(body: seq<Byte>, digits: seq<Byte>, more: seq<Byte>, last: seq<Byte>)
    requires |digits| == 2
    ensures var (r, rest) := ParseSum(body, digits + more);
            rest == more && AnswersRight(r, body, digits, Answer(r, last))
  {
    ChecksumIsTotal(body);
    assert (digits + more)[..2] == digits && (digits + more)[2..] == more;
    TwoDigits(digits, Checksum(body));
    DecodeTwo(digits);
  }

  /** The sender takes a plus, and nothing else, for an acknowledgement, and a minus for a request to send its last
      frame again, which it does. */
  lemma AnsweredExactly(body: seq<Byte>, digits: seq<Byte>, more: seq<Byte>, last: seq<Byte>, later: seq<Byte>)
    requires 0x23 !in body && |body| < BUFFER_SIZE && |digits| == 2
    ensures var (r, rest) := Parse(Sending(body, digits, more));
            var answer := Answer(r, last);
            && rest == more && AnswersRight(r, body, digits, answer)
            && (Parse(answer + later) == (Acknowledged, later) <==> digits == DigitsOf(Total(body) % 0x100))
            && (answer == [0x2d] ==> Parse(answer + later) == (Resend, later) && Answer(Resend, last) == last)
  {
    SendingIsParsed(body, digits, more);
    SumIsAnswered(body, digits, more, last);
    SenderTakes(Answer(Parse(Sending(body, digits, more)).0, last), later);
  }

  lemma SenderTakes(answer: seq<Byte>, later: seq<Byte>)
    requires answer in {[0x2b], [0x2d], []}
    ensures Parse(answer + later) == (Acknowledged, later) <==> answer == [0x2b]
    ensures answer == [0x2d] ==> Parse(answer + later) == (Resend, later)
  {
    AnswersAreTaken(later);
  }

  lemma PacketsAreAnswered(input: seq<Byte>, last: seq<Byte>)
    ensures var r := Parse(input).0;
            forall body, digits, more | input == Sending(body, digits, more) && 0x23 !in body && |body| < BUFFER_SIZE
                                        && |digits| == 2 :: AnswersRight(r, body, digits, Answer(r, last))
  {
    forall body, digits, more | input == Sending(body, digits, more) && 0x23 !in body && |body| < BUFFER_SIZE
                                && |digits| == 2
      ensures var r := Parse(input).0; AnswersRight(r, body, digits, Answer(r, last))
    {
      SendingIsParsed(body, digits, more);
      SumIsAnswered(body, digits, more, last);
    }
  }

  lemma AnswersAreTaken(later: seq<Byte>)
    ensures Parse([0x2b] + later) == (Acknowledged, later)
    ensures Parse([0x2d] + later) == (Resend, later)
    ensures Parse([0x03] + later) == (Interrupt, later)
    ensures Parse([] + later).0 == Acknowledged ==> later != [] && Parse([] + later).1 == later[1..]
  {
    ParsedFirst(0x2b, later);
    ParsedFirst(0x2d, later);
    ParsedFirst(0x03, later);
    assert [] + later == later;
  }

  lemma ParsedFirst(c: Byte, later: seq<Byte>)
    requires c != DOLLAR
    ensures Parse([c] + later) == (if c == MINUS then Resend else if c == PLUS then Acknowledged
                                   else if c == 3 then Interrupt else Ignored, later)
  {
    assert ([c] + later)[1..] == later;
  }

  /** Between two stubs: a payload without `#` is acknowledged, and so is it when it has been asked for again. */
  lemma FrameIsAcknowledged(p: seq<Byte>, more: seq<Byte>, last: seq<Byte>, later: seq<Byte>)
    requires |p| <= BUFFER_SIZE - 4 && HASH !in p
    ensures var answer := Answer(Parse(Frame(p) + more).0, last);
            answer == [0x2b] && Parse(answer + later) == (Acknowledged, later)
    ensures var again := Answer(Parse([0x2d] + later).0, Frame(p));
            again == Frame(p) && Answer(Parse(again + more).0, last) == [0x2b]
  {
    FrameGetsPlus(p, more, last);
    AnswersAreTaken(later);
  }

  lemma FrameGetsPlus(p: seq<Byte>, more: seq<Byte>, last: seq<Byte>)
    requires |p| <= BUFFER_SIZE - 4 && HASH !in p
    ensures Answer(Parse(Frame(p) + more).0, last) == [0x2b]
  {
    ReceivedExactlyWithoutHash(p, more);
  }

  /** A payload goes through, from this stub's own sending and receiving to run-length expansion and nothing more,
      exactly when there is neither `#` nor star in it. */
  lemma GoesThroughExactly(p: seq<Byte>, more: seq<Byte>)
    requires |p| <= BUFFER_SIZE - 4
    ensures var (r, rest) := Parse(Frame(p) + more);
            (r.Packet? && rest == more && Expand(r.body, []) == Some(p)) <==> HASH !in p && STAR !in p
  {
    var (r, rest) := Parse(Frame(p) + more);
    ReceivedExactlyWithoutHash(p, more);
    ComesBackExactlyWithoutStar(p);
    if HASH in p && r.Packet? {
      PacketHasNoHash(Frame(p) + more);
      if Expand(r.body, []).Some? {
        ExpandMakesNo(HASH, r.body, []);
      }
    }
  }

  lemma PacketHasNoHash(input: seq<Byte>)
    requires Parse(input).0.Packet?
    ensures HASH !in Parse(input).0.body
  {
  }

  // The stub's own buffers.

  /** Add up characters of a buffer. */
  method Sum(a: array<Byte>, from: nat, to: nat) returns (r: Byte)
    requires from <= to <= a.Length
    ensures r == Checksum(a[from..to])
  {
    r := 0;
    for i := from to to
      invariant r == Checksum(a[from..i])
    {
      assert a[from..i + 1] == a[from..i] + [a[i]];
      r := (r + a[i]) % 0x100;
    }
  }

  method EncodeByte(out: array<Byte>, at: nat, b: Byte)
    requires at + 2 <= out.Length
    modifies out
    ensures out[..at + 2] == old(out[..at]) + [Digit(b / 16), Digit(b % 16)]
    ensures out[at + 2..] == old(out[at + 2..])
  {
    out[at] := Digit(b / 16);
    out[at + 1] := Digit(b % 16);
  }

  /** Write bytes as digits. */
  method Encode(out: array<Byte>, at: nat, s: seq<Byte>) returns (end: nat)
    requires at + 2 * |s| <= out.Length
    modifies out
    ensures end == at + 2 * |s|
    ensures out[..end] == old(out[..at]) + Hex(s)
    ensures out[end..] == old(out[at + 2 * |s|..])
  {
    ghost var (before, after) := (out[..at], out[at + 2 * |s|..]);
    ghost var done := [];
    end := at;
    for i := 0 to |s|
      invariant end == at + 2 * i && done + Hex(s[i..]) == Hex(s)
      invariant out[..end] == before + done && out[at + 2 * |s|..] == after
    {
      EncodeByte(out, end, s[i]);
      HexOneMore(done, s, i);
      done := done + [Digit(s[i] / 16), Digit(s[i] % 16)];
      end := end + 2;
    }
    assert done + Hex([]) == done;
  }

  lemma HexOneMore(done: seq<Byte>, s: seq<Byte>, i: nat)
    requires i < |s|
    ensures done + Hex(s[i..]) == done + [Digit(s[i] / 16), Digit(s[i] % 16)] + Hex(s[i + 1..])
  {
    assert s[i..][1..] == s[i + 1..];
  }

  method DecodeDigits(s: seq<Byte>) returns (n: Option<nat>)
    ensures n == Decode(s)
  {
    n := Some(0);
    for i := 0 to |s|
      invariant n == Decode(s[..i])
    {
      assert s[..i + 1][..i] == s[..i];
      if n.Some? {
        n := Appended(n.value, s[i]);
      }
    }
    assert s[..|s|] == s;
  }

  lemma UnhexOneMore(h: seq<Byte>, n: nat, i: nat, done: seq<Byte>)
    requires 2 * n <= |h| && i < n
    requires Unhex(h, n) == After(done, Unhex(h[2 * i..], n - i))
    ensures Decode(h[2 * i..2 * i + 2]).None? ==> Unhex(h, n).None?
    ensures match Decode(h[2 * i..2 * i + 2])
            case None => true
            case Some(b) => b < 0x100 && Unhex(h, n) == After(done + [b], Unhex(h[2 * i + 2..], n - i - 1))
  {
    var rest := h[2 * i..];
    assert rest[..2] == h[2 * i..2 * i + 2] && rest[2..] == h[2 * i + 2..];
    TwoDigits(rest[..2], 0);
    if Unhex(rest, n - i).Some? {
      var (b, s) := (Decode(rest[..2]).value, Unhex(rest[2..], n - i - 1).value);
      assert done + ([b] + s) == done + [b] + s;
    }
  }

  function After(done: seq<Byte>, s: Option<seq<Byte>>): Option<seq<Byte>> {
    match s
    case None => None
    case Some(rest) => Some(done + rest)
  }

  lemma AfterNothing(s: Option<seq<Byte>>)
    ensures After([], s) == s
  {
    if s.Some? {
      assert [] + s.value == s.value;
    }
  }

  /** Read bytes from digits, as many as fit; false when a character is no digit. */
  method ReverseDecode(h: seq<Byte>, out: array<Byte>) returns (ok: bool)
    modifies out
    ensures var n := if out.Length < |h| / 2 then out.Length else |h| / 2;
            && ok == Unhex(h, n).Some?
            && (ok ==> out[..n] == Unhex(h, n).value)
            && out[n..] == old(out[n..])
  {
    var n := if out.Length < |h| / 2 then out.Length else |h| / 2;
    ok := true;
    var i := 0;
    AfterNothing(Unhex(h, n));
    assert h[0..] == h && out[..0] == [];
    while ok && i < n
      invariant i <= n
      invariant ok ==> Unhex(h, n) == After(out[..i], Unhex(h[2 * i..], n - i))
      invariant !ok ==> Unhex(h, n).None?
      invariant out[n..] == old(out[n..])
      decreases n - i, ok
    {
      var b := DecodeDigits(h[2 * i..2 * i + 2]);
      UnhexOneMore(h, n, i, out[..i]);
      if b.Some? {
        out[i] := b.value;
        i := i + 1;
        assert out[..i] == out[..i - 1] + [b.value];
      } else {
        ok := false;
      }
    }
  }

  lemma RunIs(p: seq<Byte>, n: nat)
    requires 0 < n <= |p| && (forall i | 0 <= i < n :: p[i] == p[0]) && (n < |p| ==> p[n] != p[0])
    ensures Run(p) == n
  {
    var m := Run(p);
    assert m < |p| ==> p[m] != p[0];
    assert n < |p| ==> p[n] != p[0];
  }

  /** The end of a run of equal characters. */
  method FindEndOfRun(src: array<Byte>, i: nat, end: nat) returns (j: nat)
    requires i < end <= src.Length
    ensures i < j <= end && Run(src[i..end]) == j - i
  {
    j := i + 1;
    while j < end && src[j] == src[i]
      invariant i < j <= end && forall k | i <= k < j :: src[k] == src[i]
    {
      j := j + 1;
    }
    RunIs(src[i..end], j - i);
  }

  method Emit(out: array<Byte>, at: nat, b: Byte, n: nat) returns (end: nat)
    requires n <= 98 && at + n <= out.Length
    modifies out
    ensures end == at + |Packed(b, n)| <= at + n
    ensures out[..end] == old(out[..at]) + Packed(b, n)
    ensures forall k | at + n <= k < out.Length :: out[k] == old(out[k])
  {
    if n > 3 {
      out[at], out[at + 1], out[at + 2] := b, STAR, n + 28;
      end := at + 3;
    } else {
      end := at;
      for i := 0 to n
        invariant end == at + i && out[..end] == old(out[..at]) + Repeat(b, i)
        invariant forall k | at + n <= k < out.Length :: out[k] == old(out[k])
      {
        out[end] := b;
        end := end + 1;
      }
    }
  }

  /** Compress the run at the front of what is left, without touching what comes after it. */
  method PackRun(out: array<Byte>, at: nat, src: array<Byte>, from: nat, to: nat, ghost left: seq<Byte>)
      returns (p: nat, i: nat)
    requires from < to <= src.Length && at + (to - from) <= out.Length && (src == out ==> at <= from)
    requires src[from..to] == left
    modifies out
    ensures var n := Chunk(Run(left));
            && i == from + n <= to && p == at + |Packed(left[0], n)| <= at + n
            && out[..p] == old(out[..at]) + Packed(left[0], n)
            && src[i..to] == left[n..]
  {
    var ch := src[from];
    var j := FindEndOfRun(src, from, to);
    var n := Chunk(j - from);
    i := from + n;
    assert ch == left[0] && src[i..to] == left[n..];
    p := Emit(out, at, ch, n);
    assert forall k | i <= k < to :: src[k] == old(src[k]);
    assert src[i..to] == old(src[i..to]);
  }

  lemma CompressOneMore(done: seq<Byte>, p: seq<Byte>)
    requires p != []
    ensures var n := Chunk(Run(p)); done + Compress(p) == done + Packed(p[0], n) + Compress(p[n..])
  {
    var n := Chunk(Run(p));
    Associate(done, Packed(p[0], n), Compress(p[n..]));
  }

  /** Compress a payload into a frame, even where the payload stands in the frame's own buffer, behind the first
      byte. */
  method Pack(out: array<Byte>, src: array<Byte>, from: nat, size: nat) returns (p: nat)
    requires from + size <= src.Length && size + 4 <= out.Length && (src == out ==> from > 0)
    modifies out
    ensures p <= size + 1 && out[..p] == [DOLLAR] + Compress(old(src[from..from + size]))
  {
    ghost var payload := src[from..from + size];
    ghost var (done, left) := ([DOLLAR], payload);
    out[0] := DOLLAR;
    p := 1;
    var (i, to) := (from, from + size);
    while i < to
      invariant from <= i <= to && 1 <= p <= i - from + 1
      invariant out[..p] == done && done + Compress(left) == [DOLLAR] + Compress(payload)
      invariant src[i..to] == left
    {
      CompressOneMore(done, left);
      p, i := PackRun(out, p, src, i, to, left);
      ghost var n := Chunk(Run(left));
      done, left := done + Packed(left[0], n), left[n..];
    }
    assert left == [] && done + Compress([]) == done;
  }

  datatype Line = Found | Full | End

  datatype Outcome = Sent | Halted | Waiting | Discarded | Threw

  /** The stub, with its buffers, and what has come and gone over the line. */
  class Stub {
    const txbuf: array<Byte>
    const rxbuf: array<Byte>
    var txSize: nat
    var rxSize: nat
    var needAck: bool
    var replied: bool
    var received: bool
    var ctrlC: bool
    var input: seq<Byte>
    var output: seq<Byte>

    constructor (input: seq<Byte>)
      ensures Valid() && fresh(txbuf) && fresh(rxbuf) && this.input == input && output == [] && !needAck
    {
      txbuf, rxbuf := new Byte[BUFFER_SIZE], new Byte[BUFFER_SIZE];
      txSize, rxSize, needAck, replied, received, ctrlC := 0, 0, false, false, false, false;
      this.input, output := input, [];
    }

    ghost predicate Valid()
      reads `txSize, `rxSize
    {
      && txbuf != rxbuf && txbuf.Length == rxbuf.Length == BUFFER_SIZE
      && txSize <= BUFFER_SIZE && rxSize < BUFFER_SIZE
    }

    /** Read characters up to `#`, at most as many as fit in the buffer with a terminator behind them. */
    method GetLine() returns (line: Line, n: nat)
      requires rxbuf.Length == BUFFER_SIZE
      modifies rxbuf, `input
      ensures var k := BeforeHash(old(input));
              if k < BUFFER_SIZE && k < |old(input)| then
                line == Found && n == k && rxbuf[..k] == old(input)[..k] && input == old(input)[k + 1..]
              else if |old(input)| < BUFFER_SIZE then
                line == End && n == |old(input)| && input == []
              else
                line == Full && n == BUFFER_SIZE - 1 && input == old(input)[n..]
    {
      n := 0;
      while n < BUFFER_SIZE - 1 && n < |input| && input[n] != HASH
        modifies rxbuf
        invariant n < BUFFER_SIZE && n <= BeforeHash(input)
        invariant rxbuf[..n] == input[..n]
      {
        rxbuf[n] := input[n];
        n := n + 1;
      }
      if n == |input| {
        line := End;
        input := [];
      } else if input[n] == HASH {
        line := Found;
        input := input[n + 1..];
      } else {
        line := Full;
        input := input[n..];
      }
    }

    /** Receive the rest of a packet. */
    method ReceivePacket() returns (outcome: Reception)
      requires Valid()
      modifies rxbuf, `input, `rxSize, `output, `received, `ctrlC
      ensures Valid() && (outcome, input) == ParsePacket(old(input)) && outcome.OfPacket()
      ensures outcome.Packet? ==> rxbuf[..rxSize] == outcome.body
      ensures received == outcome.Packet? && ctrlC == (old(ctrlC) || outcome.Ended?)
      ensures output == old(output) + Answer(outcome, [])
      ensures outcome.TooLong? ==> output == old(output) + [0x2d]
      ensures outcome.Ended? ==> output == old(output)
    {
      received := false;
      rxSize := 0;
      var line, n := GetLine();
      if line == Full {
        outcome := TooLong;
        output := output + [MINUS];
      } else if line == End || |input| < 2 {
        outcome := Ended;
        input := [];
        ctrlC := true;
      } else {
        rxSize := n;
        outcome := CheckSum();
      }
    }

    method CheckSum() returns (outcome: Reception)
      requires Valid() && 2 <= |input|
      modifies `input, `output, `received
      ensures (outcome, input) == ParseSum(rxbuf[..rxSize], old(input)) && outcome.OfPacket()
      ensures output == old(output) + Answer(outcome, [])
      ensures received == (outcome.Packet? || old(received))
      ensures AnswersRight(outcome, rxbuf[..rxSize], old(input)[..2], output[|old(output)|..])
    {
      assert input[..2] + input[2..] == input;
      SumIsAnswered(rxbuf[..rxSize], input[..2], input[2..], []);
      var digits := input[..2];
      input := input[2..];
      var want := DecodeDigits(digits);
      var sum := Sum(rxbuf, 0, rxSize);
      var body := rxbuf[..rxSize];
      if want == None {
        outcome := NoNumber;
      } else if want.value != sum {
        output := output + [MINUS];
        outcome := Damaged(body);
      } else {
        output := output + [PLUS];
        received := true;
        outcome := Packet(body);
      }
    }

    /** Receive whatever comes next. */
    method Receive() returns (outcome: Reception)
      requires Valid()
      modifies rxbuf, `input, `rxSize, `output, `received, `replied, `ctrlC, `needAck
      ensures Valid() && (outcome, input) == Parse(old(input))
      ensures outcome.Packet? ==> rxbuf[..rxSize] == outcome.body
      ensures received == if outcome.OfPacket() then outcome.Packet? else old(received)
      ensures replied == (old(replied) && !outcome.OfPacket())
      ensures needAck == (old(needAck) && !outcome.Acknowledged?)
      ensures ctrlC == (old(ctrlC) || outcome.Interrupt? || outcome.Ended?)
      ensures output == old(output) + Answer(outcome, txbuf[..txSize])
      ensures forall body, digits, more | old(input) == Sending(body, digits, more) && 0x23 !in body
                && |body| < BUFFER_SIZE && |digits| == 2 ::
                && received == (digits == DigitsOf(Total(body) % 0x100))
                && (received ==> rxbuf[..rxSize] == body && output == old(output) + [0x2b])
                && (!received ==> output == old(output) + if AreDigits(digits) then [0x2d] else [])
    {
      PacketsAreAnswered(input, txbuf[..txSize]);
      outcome := TakeNext();
    }

    method TakeNext() returns (outcome: Reception)
      requires Valid()
      modifies rxbuf, `input, `rxSize, `output, `received, `replied, `ctrlC, `needAck
      ensures Valid() && (outcome, input) == Parse(old(input))
      ensures outcome.Packet? ==> rxbuf[..rxSize] == outcome.body
      ensures received == if outcome.OfPacket() then outcome.Packet? else old(received)
      ensures replied == (old(replied) && !outcome.OfPacket())
      ensures needAck == (old(needAck) && !outcome.Acknowledged?)
      ensures ctrlC == (old(ctrlC) || outcome.Interrupt? || outcome.Ended?)
      ensures output == old(output) + Answer(outcome, txbuf[..txSize])
    {
      if input == [] {
        outcome := Nothing;
      } else {
        var first := input[0];
        input := input[1..];
        if first == MINUS {
          output := output + txbuf[..txSize];
          outcome := Resend;
        } else if first == PLUS {
          needAck := false;
          outcome := Acknowledged;
        } else if first == 3 {
          ctrlC := true;
          outcome := Interrupt;
        } else if first == DOLLAR {
          replied := false;
          outcome := ReceivePacket();
        } else {
          outcome := Ignored;
        }
      }
    }

    /** Put a payload into a frame, and send it. */
    method Transmit(src: array<Byte>, from: nat, size: nat)
      requires Valid() && size <= BUFFER_SIZE - 4 && from + size <= src.Length && (src == txbuf ==> from > 0)
      modifies txbuf, `txSize, `output, `replied, `needAck
      ensures Valid() && txbuf[..txSize] == Frame(old(src[from..from + size]))
      ensures output == old(output) + Frame(old(src[from..from + size]))
      ensures replied && needAck
    {
      ghost var c := Compress(src[from..from + size]);
      var p := Pack(txbuf, src, from, size);
      assert txbuf[1..p] == c;
      var sum := Sum(txbuf, 1, p);
      txbuf[p] := HASH;
      assert txbuf[..p + 1] == [DOLLAR] + c + [HASH];
      p := Encode(txbuf, p + 1, [sum]);
      txSize := p;
      output := output + txbuf[..txSize];
      replied, needAck := true, true;
    }

    /** Wait until the last frame is acknowledged. Some outcome if that does not come to pass: nothing more comes
        in, or a packet comes instead. */
    method AwaitAck() returns (stop: Option<Outcome>)
      requires Valid()
      modifies rxbuf, `input, `rxSize, `output, `received, `replied, `ctrlC, `needAck
      ensures Valid()
      ensures match stop
              case None => !needAck
              case Some(outcome) => outcome == Threw || if outcome == Waiting then needAck && input == []
                                                        else outcome == Discarded && !needAck && received
      ensures !old(needAck) ==> stop == None && output == old(output)
    {
      stop := None;
      while needAck && stop == None
        invariant Valid()
        invariant match stop
                  case None => true
                  case Some(outcome) => outcome == Threw || if outcome == Waiting then needAck && input == []
                                                            else outcome == Discarded && !needAck && received
        invariant !old(needAck) ==> !needAck && stop == None && output == old(output)
        decreases |input|, stop == None
      {
        var r := Receive();
        if r.Nothing? {
          stop := Some(Waiting);
        } else if r.NoNumber? {
          stop := Some(Threw);
        } else if r.Packet? {
          needAck := false;
          stop := Some(Discarded);
        }
      }
    }

    /** Send a payload once the last frame is acknowledged. */
    method Send(src: array<Byte>, from: nat, size: nat) returns (outcome: Outcome)
      requires Valid() && from + size <= src.Length && (src == txbuf ==> from > 0) && src != rxbuf
      modifies txbuf, rxbuf, `input, `rxSize, `txSize, `output, `received, `replied, `ctrlC, `needAck
      ensures Valid() && (outcome == Halted <==> size > BUFFER_SIZE - 4)
      ensures !old(needAck) && size <= BUFFER_SIZE - 4 ==> outcome == Sent
      ensures var f := Frame(old(src[from..from + size]));
              if outcome == Sent
                then |f| <= |output| && output[|output| - |f|..] == f == txbuf[..txSize] && needAck
                else txbuf[..] == old(txbuf[..])
      ensures !old(needAck) && outcome == Sent ==> output == old(output) + Frame(old(src[from..from + size]))
    {
      if size > BUFFER_SIZE - 4 {
        outcome := Halted;
      } else {
        var stop := AwaitAck();
        if stop == None {
          assert src[from..from + size] == old(src[from..from + size]);
          Transmit(src, from, size);
          outcome := Sent;
        } else {
          outcome := stop.value;
        }
      }
    }
  }
}
