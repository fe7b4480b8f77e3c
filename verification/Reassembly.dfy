/** How a length-prefixed response is put together from whatever pieces the socket gives. */
module Reassembly {
  import opened NetUtil
  import opened ConnModel

  // What recv hands over until want bytes are there, or until it hands over none; rest is what it answers from then on.
  datatype Taking = Taking(bytes: seq<Byte>, rest: seq<Gave>)

  function Take(gave: seq<Gave>, want: nat): (t: Taking)
    ensures |t.bytes| <= want
    ensures |t.bytes| < want ==> t.rest == [] || !t.rest[0].Chunk? || t.rest[0].bytes == []
    decreases |gave|
  {
    if want == 0 || gave == [] || !gave[0].Chunk? || gave[0].bytes == [] then Taking([], gave)
    else
      var n := Min(|gave[0].bytes|, want);
      var t := Take(gave[1..], want - n);
      Taking(gave[0].bytes[..n] + t.bytes, t.rest)
  }

  // What recv having no bytes means: nothing for now, or the end of the stream or an error.
  function Drought(rest: seq<Gave>): Ending {
    if rest == [] || rest[0].Again? then Starved else Failed
  }

  predicate LengthOk(length: int, readMax: nat) {
    4 < length < readMax
  }

  // A whole response: as long as its own first four bytes say.
  predicate IsResponse(r: seq<Byte>, readMax: nat) {
    |r| > 4 && ReadInt(r[..4]) == |r| && LengthOk(|r|, readMax)
  }

  // x is what a response not yet whole has given: part of its head, which the head buffer holds, or all of its head and
  // part of its body. Past the head, readLen is 4 above the bytes still missing.
  predicate Reading(readLen: int, head: seq<Byte>, x: seq<Byte>, readMax: nat)
    requires |head| == 4
  {
    if |x| < 4 then readLen == |x| - 4 && head[..|x|] == x
    else
      var length := ReadInt(x[..4]);
      head == x[..4] && LengthOk(length, readMax) && |x| < length && readLen == length + 4 - |x|
  }

  // k whole responses, one after the other, and nothing else.
  predicate Framed(s: seq<Byte>, k: nat, readMax: nat)
    decreases k
  {
    if k == 0 then s == []
    else
      && |s| > 4 && LengthOk(ReadInt(s[..4]), readMax) && ReadInt(s[..4]) <= |s|
      && Framed(s[ReadInt(s[..4])..], k - 1, readMax)
  }

  lemma {:induction false} FramedSnoc(s: seq<Byte>, k: nat, readMax: nat, r: seq<Byte>)
    requires Framed(s, k, readMax) && IsResponse(r, readMax)
    ensures Framed(s + r, k + 1, readMax)
    decreases k
  {
    if k == 0 {
      assert s + r == r && r[|r|..] == [];
      assert Framed(r[|r|..], 0, readMax);
    } else {
      var length := ReadInt(s[..4]);
      assert (s + r)[..4] == s[..4] && (s + r)[length..] == s[length..] + r;
      FramedSnoc(s[length..], k - 1, readMax, r);
    }
  }

  lemma PrefixParts(s: seq<Byte>, t: seq<Byte>, n: nat)
    requires s <= t && n <= |s|
    ensures s[..n] == t[..n] && s[n..] <= t[n..]
  {
  }

  lemma PrefixWhole(s: seq<Byte>, t: seq<Byte>, n: nat)
    requires n <= |s| && n <= |t| && s[..n] == t[..n] && s[n..] <= t[n..]
    ensures s <= t && (s[n..] == t[n..] ==> s == t)
  {
    assert s == s[..n] + s[n..] && t == t[..n] + t[n..];
  }

  // There is only one way to cut bytes into responses: two framings of one stream agree as far as both go.
  lemma {:induction false} FramedOnce(s: seq<Byte>, k: nat, t: seq<Byte>, j: nat, readMax: nat)
    requires Framed(s, k, readMax) && Framed(t, j, readMax) && (s <= t || t <= s) && k <= j
    ensures s <= t && (k == j ==> s == t)
    decreases k
  {
    if k > 0 {
      if s <= t { PrefixParts(s, t, 4); } else { PrefixParts(t, s, 4); }
      var length := ReadInt(s[..4]);
      if s <= t { PrefixParts(s, t, length); } else { PrefixParts(t, s, length); }
      FramedOnce(s[length..], k - 1, t[length..], j - 1, readMax);
      PrefixWhole(s, t, length);
    }
  }

  // All a response gives to one handler call, x having been given to earlier ones: the rest of the head, and then, if
  // the head makes sense, what there is of the body.
  function Gathered(gave: seq<Gave>, x: seq<Byte>, readMax: nat): seq<Byte>
    requires |x| < 4
  {
    var h := Take(gave, 4 - |x|);
    var head := x + h.bytes;
    if |head| < 4 || !LengthOk(ReadInt(head), readMax) then head
    else head + Take(h.rest, ReadInt(head) - 4).bytes
  }

  // How that call ends.
  function EndsAs(gave: seq<Gave>, x: seq<Byte>, readMax: nat): Ending
    requires |x| < 4
  {
    var h := Take(gave, 4 - |x|);
    var head := x + h.bytes;
    if |head| < 4 then Drought(h.rest)
    else if !LengthOk(ReadInt(head), readMax) then Failed
    else
      var b := Take(h.rest, ReadInt(head) - 4);
      if |b.bytes| == ReadInt(head) - 4 then Whole else Drought(b.rest)
  }

  lemma TailOf(x: seq<Byte>, y: seq<Byte>)
    ensures x <= x + y && (x + y)[|x|..] == y && (x + y)[..|x|] == x
  {
  }

  // The loop inside the body takes what the kernel gives, up to the end of the body.
  lemma {:induction false} BodyTakes(p: Progress, readMax: nat, gave: seq<Gave>, size: nat)
    requires |p.head| == 4 && size > 0 && p.stored == size + 4
    ensures var t, r := Take(gave, size), ReadLoop(p, readMax, gave, size + 4, size);
      && r.0.head == p.head && r.0.given == p.given + t.bytes
      && if |t.bytes| == size then r.1 == Whole else r.1 == Drought(t.rest) && r.0.stored == size + 4 - |t.bytes|
    decreases |gave|
  {
    if gave != [] && gave[0].Chunk? && gave[0].bytes != [] {
      var n := Min(|gave[0].bytes|, size);
      var bytes := gave[0].bytes[..n];
      if n < size {
        BodyTakes(Progress(p.head, size + 4 - n, p.given + bytes), readMax, gave[1..], size - n);
        assert p.given + bytes + Take(gave[1..], size - n).bytes == p.given + (bytes + Take(gave[1..], size - n).bytes);
      } else {
        assert bytes + [] == bytes;
      }
    }
  }

  // The head buffer holds x, the part of a head that has arrived.
  predicate InHead(p: Progress, x: seq<Byte>) {
    |p.head| == 4 && |x| < 4 && p.stored == |x| - 4 && p.head[..|x|] == x
  }

  // A piece that leaves the head incomplete.
  lemma HeadMore(p: Progress, readMax: nat, gave: seq<Gave>, x: seq<Byte>) returns (q: Progress)
    requires InHead(p, x) && gave != [] && gave[0].Chunk? && 0 < |gave[0].bytes| < 4 - |x|
    ensures InHead(q, x + gave[0].bytes) && q.given == p.given + gave[0].bytes
    ensures ReadLoop(p, readMax, gave, p.stored, -p.stored) == ReadLoop(q, readMax, gave[1..], q.stored, -q.stored)
  {
    var bytes := gave[0].bytes;
    assert bytes[..|bytes|] == bytes;
    q := Progress(PutHead(p.head, |x|, bytes), p.stored + |bytes|, p.given + bytes);
  }

  // How far the loop gets inside the head, h being what it takes for it.
  predicate InsideHead(p: Progress, readMax: nat, x: seq<Byte>, h: Taking, r: (Progress, Ending)) {
    var head, given := x + h.bytes, p.given + h.bytes;
    |p.head| == 4 && |head| <= 4 &&
    if |head| < 4 then r.1 == Drought(h.rest) && InHead(r.0, head) && r.0.given == given
    else if !LengthOk(ReadInt(head), readMax) then r.1 == Failed && r.0.given == given
    else r == ReadLoop(Progress(head, ReadInt(head), given), readMax, h.rest, ReadInt(head), ReadInt(head) - 4)
  }

  // The piece that completes the head.
  lemma HeadFilled(p: Progress, readMax: nat, gave: seq<Gave>, x: seq<Byte>, bytes: seq<Byte>)
    requires InHead(p, x) && gave != [] && gave[0].Chunk? && bytes <= gave[0].bytes && |bytes| == 4 - |x|
    ensures InsideHead(p, readMax, x, Taking(bytes, gave[1..]), ReadLoop(p, readMax, gave, p.stored, -p.stored))
  {
    var put := PutHead(p.head, |x|, bytes);
    assert put == put[..4] == x + bytes;
    assert Min(|gave[0].bytes|, 4 - |x|) == 4 - |x| && gave[0].bytes[..4 - |x|] == bytes;
  }

  lemma InsideLater(p: Progress, readMax: nat, x: seq<Byte>, q: Progress, y: seq<Byte>, h: Taking,
                    r: (Progress, Ending))
    requires |p.head| == 4 && q.given == p.given + y && InsideHead(q, readMax, x + y, h, r)
    ensures InsideHead(p, readMax, x, Taking(y + h.bytes, h.rest), r)
  {
    assert x + y + h.bytes == x + (y + h.bytes) && p.given + y + h.bytes == p.given + (y + h.bytes);
  }

  lemma TakeStep(gave: seq<Gave>, want: nat)
    requires want > 0 && gave != [] && gave[0].Chunk? && gave[0].bytes != []
    ensures var bytes := gave[0].bytes;
      Take(gave, want) ==
      if |bytes| >= want then Taking(bytes[..want], gave[1..])
      else Taking(bytes + Take(gave[1..], want - |bytes|).bytes, Take(gave[1..], want - |bytes|).rest)
  {
    var bytes := gave[0].bytes;
    if |bytes| >= want {
      assert bytes[..want] + [] == bytes[..want];
    } else {
      assert bytes[..|bytes|] == bytes;
    }
  }

  lemma NothingInside(p: Progress, readMax: nat, gave: seq<Gave>, x: seq<Byte>)
    requires InHead(p, x) && (gave == [] || !gave[0].Chunk? || gave[0].bytes == [])
    ensures InsideHead(p, readMax, x, Take(gave, 4 - |x|), ReadLoop(p, readMax, gave, p.stored, -p.stored))
  {
    assert x + [] == x && p.given + [] == p.given;
  }

  lemma HeadAtOnce(p: Progress, readMax: nat, gave: seq<Gave>, x: seq<Byte>)
    requires InHead(p, x) && gave != [] && gave[0].Chunk? && |gave[0].bytes| >= 4 - |x|
    ensures InsideHead(p, readMax, x, Take(gave, 4 - |x|), ReadLoop(p, readMax, gave, p.stored, -p.stored))
  {
    TakeStep(gave, 4 - |x|);
    HeadFilled(p, readMax, gave, x, gave[0].bytes[..4 - |x|]);
  }

  lemma HeadLater(p: Progress, readMax: nat, gave: seq<Gave>, x: seq<Byte>, q: Progress, r: (Progress, Ending))
    requires |p.head| == 4 && gave != [] && gave[0].Chunk? && 0 < |gave[0].bytes| < 4 - |x|
    requires q.given == p.given + gave[0].bytes
    requires InsideHead(q, readMax, x + gave[0].bytes, Take(gave[1..], 4 - |x + gave[0].bytes|), r)
    ensures InsideHead(p, readMax, x, Take(gave, 4 - |x|), r)
  {
    TakeStep(gave, 4 - |x|);
    assert 4 - |x + gave[0].bytes| == 4 - |x| - |gave[0].bytes|;
    InsideLater(p, readMax, x, q, gave[0].bytes, Take(gave[1..], 4 - |x + gave[0].bytes|), r);
  }

  // The loop inside the head takes what the kernel gives, up to the end of the head.
  lemma {:induction false} HeadTakes(p: Progress, readMax: nat, gave: seq<Gave>, x: seq<Byte>)
    requires InHead(p, x)
    ensures InsideHead(p, readMax, x, Take(gave, 4 - |x|), ReadLoop(p, readMax, gave, p.stored, -p.stored))
    decreases |gave|
  {
    if gave == [] || !gave[0].Chunk? || gave[0].bytes == [] {
      NothingInside(p, readMax, gave, x);
    } else {
      if |gave[0].bytes| < 4 - |x| {
        var q := HeadMore(p, readMax, gave, x);
        HeadTakes(q, readMax, gave[1..], x + gave[0].bytes);
        HeadLater(p, readMax, gave, x, q, ReadLoop(q, readMax, gave[1..], q.stored, -q.stored));
      } else {
        HeadAtOnce(p, readMax, gave, x);
      }
    }
  }

  // What one handler call, begun anywhere inside the head, makes of it: exactly all is read, and the call ends as ends.
  predicate Gathers(p: Progress, readMax: nat, x: seq<Byte>, all: seq<Byte>, ends: Ending, r: (Progress, Ending)) {
    && |r.0.head| == 4 && x <= all && r.0.given == p.given + all[|x|..] && r.1 == ends
    && (ends == Whole ==> IsResponse(all, readMax))
    && (ends == Starved ==> Reading(r.0.stored, r.0.head, all, readMax))
  }

  lemma HeadGathers(p: Progress, readMax: nat, x: seq<Byte>, h: Taking, r: (Progress, Ending))
    requires InsideHead(p, readMax, x, h, r) && |r.0.head| == 4
    requires |x + h.bytes| < 4 || !LengthOk(ReadInt(x + h.bytes), readMax)
    ensures Gathers(p, readMax, x, x + h.bytes, if |x + h.bytes| < 4 then Drought(h.rest) else Failed, r)
  {
    TailOf(x, h.bytes);
  }

  lemma BodyGathers(p: Progress, readMax: nat, x: seq<Byte>, h: Taking, b: Taking, r: (Progress, Ending))
    requires |x + h.bytes| == 4 && LengthOk(ReadInt(x + h.bytes), readMax) && |b.bytes| <= ReadInt(x + h.bytes) - 4
    requires r.0.head == x + h.bytes && r.0.given == p.given + h.bytes + b.bytes
    requires var size := ReadInt(x + h.bytes) - 4;
      if |b.bytes| == size then r.1 == Whole else r.1 == Drought(b.rest) && r.0.stored == size + 4 - |b.bytes|
    ensures Gathers(p, readMax, x, x + h.bytes + b.bytes,
                    if |b.bytes| == ReadInt(x + h.bytes) - 4 then Whole else Drought(b.rest), r)
  {
    TailOf(x + h.bytes, b.bytes);
    TailOf(x, h.bytes + b.bytes);
    assert x + h.bytes + b.bytes == x + (h.bytes + b.bytes);
    assert p.given + h.bytes + b.bytes == p.given + (h.bytes + b.bytes);
  }

  lemma LoopGathers(p: Progress, readMax: nat, gave: seq<Gave>, x: seq<Byte>)
    requires InHead(p, x)
    ensures Gathers(p, readMax, x, Gathered(gave, x, readMax), EndsAs(gave, x, readMax),
                    ReadLoop(p, readMax, gave, p.stored, -p.stored))
  {
    HeadTakes(p, readMax, gave, x);
    var h, r := Take(gave, 4 - |x|), ReadLoop(p, readMax, gave, p.stored, -p.stored);
    var head := x + h.bytes;
    if |head| < 4 || !LengthOk(ReadInt(head), readMax) {
      HeadGathers(p, readMax, x, h, r);
    } else {
      var length := ReadInt(head);
      BodyTakes(Progress(head, length, p.given + h.bytes), readMax, h.rest, length - 4);
      BodyGathers(p, readMax, x, h, Take(h.rest, length - 4), r);
    }
  }

  // The answers that cut a body short: they complete an acceptable head and then run dry inside the body.
  predicate CutsBody(gave: seq<Gave>, x: seq<Byte>, readMax: nat)
    requires |x| < 4
  {
    var h := Take(gave, 4 - |x|);
    var head := x + h.bytes;
    && |head| == 4 && LengthOk(ReadInt(head), readMax)
    && var b := Take(h.rest, ReadInt(head) - 4);
       |b.bytes| < ReadInt(head) - 4 && (b.rest == [] || b.rest[0].Again?)
  }

  // The window in which the loop may be entered again, readLen below 0, is left exactly by those answers.
  lemma WindowLeft(p: Progress, readMax: nat, gave: seq<Gave>, x: seq<Byte>)
    requires InHead(p, x)
    ensures var r := ReadLoop(p, readMax, gave, p.stored, -p.stored);
      (r.1 == Starved && r.0.stored >= 0) <==> CutsBody(gave, x, readMax)
  {
    LoopGathers(p, readMax, gave, x);
    TailOf(x, Take(gave, 4 - |x|).bytes);
    HeadTakes(p, readMax, gave, x);
    var head := x + Take(gave, 4 - |x|).bytes;
    if |head| == 4 && LengthOk(ReadInt(head), readMax) {
      TailOf(head, Take(Take(gave, 4 - |x|).rest, ReadInt(head) - 4).bytes);
    }
  }

  // The recv loop taken up inside a body, counting bytes only. Once readLen is below 0 it would write beside the head
  // buffer, and is lost.
  function ResumeLoop(given: seq<Byte>, gave: seq<Gave>, readLen: int, size: nat): (seq<Byte>, Option<Ending>)
    decreases |gave|
  {
    if readLen < 0 then (given, None)
    else if gave == [] || gave[0].Again? then (given, Some(Starved))
    else
      var n := if gave[0].Chunk? then Min(|gave[0].bytes|, size) else -1;
      if n <= 0 then (given, Some(Failed))
      else
        var all := given + gave[0].bytes[..n];
        if n < size then ResumeLoop(all, gave[1..], readLen - n, size - n) else (all, Some(Whole))
  }

  // It is the same loop as long as that is on course.
  lemma {:induction false} ResumeIsRead(p: Progress, readMax: nat, gave: seq<Gave>, m: nat)
    requires |p.head| == 4 && m > 0
    ensures var r := ReadLoop(p, readMax, gave, m + 4, m);
      ResumeLoop(p.given, gave, m + 4, m) == (r.0.given, Some(r.1))
    decreases |gave|
  {
    if gave != [] && gave[0].Chunk? && 0 < |gave[0].bytes| < m {
      var n := |gave[0].bytes|;
      assert gave[0].bytes[..n] == gave[0].bytes;
      ResumeIsRead(Progress(p.head, m + 4 - n, p.given + gave[0].bytes), readMax, gave[1..], m - n);
    }
  }

  // With m bytes of the body missing and size asked for: whatever the kernel gives, the loop stays on the body, reads
  // no more than m bytes and ends the response exactly with the last of them; and all m at once do end it.
  ghost predicate ResumesRight(readLen: int, size: nat, m: nat) {
    && (forall gave: seq<Gave> :: Counts(gave, readLen, size, m))
    && (forall bytes: seq<Byte> :: |bytes| == m ==> EndsWith(bytes, readLen, size))
  }

  predicate EndsWith(bytes: seq<Byte>, readLen: int, size: nat) {
    ResumeLoop([], [Chunk(bytes)], readLen, size).1 == Some(Whole)
  }

  predicate Counts(gave: seq<Gave>, readLen: int, size: nat, m: nat) {
    var r := ResumeLoop([], gave, readLen, size);
    r.1.Some? && |r.0| <= m && (r.1 == Some(Whole) <==> |r.0| == m)
  }

  // As for the number of bytes, a body cut short with m bytes missing is taken up correctly exactly when recv is asked
  // for m bytes. Even then the bytes would land at readLen instead of after those read before.
  lemma BodyResumes(size: nat, m: nat)
    requires m > 0
    ensures ResumesRight(m + 4, size, m) <==> size == m
  {
    var readLen := m + 4;
    if size == m {
      forall gave: seq<Gave> ensures Counts(gave, readLen, m, m) {
        ResumeCounts(gave, m);
      }
      forall bytes: seq<Byte> | |bytes| == m ensures EndsWith(bytes, readLen, m) {
        assert bytes[..m] == bytes;
      }
    } else {
      ResumedWrongly(size, m);
    }
  }

  lemma ResumeCounts(gave: seq<Gave>, m: nat)
    requires m > 0
    ensures Counts(gave, m + 4, m, m)
  {
    var p := Progress([0, 0, 0, 0], m + 4, []);
    ResumeIsRead(p, 0, gave, m);
    BodyTakes(p, 0, gave, m);
  }

  // Asked for too much, the loop waits for bytes of the next response; for too little, it ends early, or takes nothing
  // for the end of the stream.
  lemma ResumedWrongly(size: nat, m: nat)
    requires 0 < m != size
    ensures !ResumesRight(m + 4, size, m)
  {
    var bytes: seq<Byte> := seq(m, i => 0);
    var gave := [Chunk(bytes)];
    var r := ResumeLoop([], gave, m + 4, size);
    if m < size {
      assert bytes[..m] == bytes && gave[1..] == [];
      assert r == ResumeLoop([] + bytes, [], 4, size - m);
      assert r.1 == Some(Starved) && !EndsWith(bytes, m + 4, size);
    } else if size == 0 {
      assert r.1 == Some(Failed) && !EndsWith(bytes, m + 4, size);
    } else {
      assert r == ([] + bytes[..size], Some(Whole));
      assert !Counts(gave, m + 4, size, m);
    }
  }

  // What the handler asks for is never right: with read_buf.end NULL and the buffer in the lower half of the address
  // space, the size wraps around to something enormous.
  lemma NeverResumes(c: Conn)
    requires 4 < c.readLen < 0x8000_0000 && 0 < c.readStart < SIZE_T / 2
    ensures !ResumesRight(c.readLen, ReadSize(c), c.readLen - 4)
  {
    var size := NULL - c.readStart - c.readLen;
    assert ReadSize(c) == size + SIZE_T by { assert 0 < size + SIZE_T < SIZE_T; }
    BodyResumes(ReadSize(c), c.readLen - 4);
  }

  // Pieces as recv hands them over, one call each.
  function Chunks(pieces: seq<seq<Byte>>): (gave: seq<Gave>)
    ensures |gave| == |pieces| && forall i :: 0 <= i < |pieces| ==> gave[i] == Chunk(pieces[i])
  {
    seq(|pieces|, i requires 0 <= i < |pieces| => Chunk(pieces[i]))
  }

  function Joined(pieces: seq<seq<Byte>>): seq<Byte> {
    if pieces == [] then [] else pieces[0] + Joined(pieces[1..])
  }

  predicate NoBytes(gave: seq<Gave>) {
    gave == [] || !gave[0].Chunk? || gave[0].bytes == []
  }

  lemma {:induction false} TakePieces(pieces: seq<seq<Byte>>, tail: seq<Gave>, want: nat)
    requires (forall i :: 0 <= i < |pieces| ==> pieces[i] != []) && |Joined(pieces)| <= want
    requires |Joined(pieces)| == want || NoBytes(tail)
    ensures Take(Chunks(pieces) + tail, want) == Taking(Joined(pieces), tail)
    decreases |pieces|
  {
    var gave := Chunks(pieces) + tail;
    if pieces == [] {
      assert gave == tail;
    } else {
      assert gave[0] == Chunk(pieces[0]) && gave[1..] == Chunks(pieces[1..]) + tail;
      TakePieces(pieces[1..], tail, want - |pieces[0]|);
      assert pieces[0][..|pieces[0]|] == pieces[0];
    }
  }

  // How a call ends, for a head and a body arriving in any pieces, x of the head having come before, and then tail.
  // A head or a body cut short is waited for if the kernel has nothing more for now, and given up otherwise.
  lemma PiecesRead(heads: seq<seq<Byte>>, bodies: seq<seq<Byte>>, tail: seq<Gave>, x: seq<Byte>, readMax: nat)
    requires (forall i :: 0 <= i < |heads| ==> heads[i] != []) && (forall i :: 0 <= i < |bodies| ==> bodies[i] != [])
    requires |x| < 4 && |x + Joined(heads)| <= 4
    requires |x + Joined(heads)| == 4 && 4 < ReadInt(x + Joined(heads)) < readMax ==>
               && |Joined(bodies)| <= ReadInt(x + Joined(heads)) - 4
               && (|Joined(bodies)| < ReadInt(x + Joined(heads)) - 4 ==> NoBytes(tail))
    requires |x + Joined(heads)| < 4 ==> bodies == [] && NoBytes(tail)
    ensures var gave, head := Chunks(heads) + (Chunks(bodies) + tail), x + Joined(heads);
      var waits := if tail == [] || tail[0].Again? then Starved else Failed;
      if |head| < 4 then EndsAs(gave, x, readMax) == waits && Gathered(gave, x, readMax) == head
      else if !(4 < ReadInt(head) < readMax) then
        EndsAs(gave, x, readMax) == Failed && Gathered(gave, x, readMax) == head
      else
        && Gathered(gave, x, readMax) == head + Joined(bodies)
        && EndsAs(gave, x, readMax) == if |Joined(bodies)| == ReadInt(head) - 4 then Whole else waits
  {
    var rest := Chunks(bodies) + tail;
    assert bodies == [] ==> rest == tail;
    TakePieces(heads, rest, 4 - |x|);
    var head := x + Joined(heads);
    var h := Taking(Joined(heads), rest);
    if |head| == 4 && 4 < ReadInt(head) < readMax {
      TakePieces(bodies, tail, ReadInt(head) - 4);
      BodyEnds(Chunks(heads) + rest, x, readMax, h, Taking(Joined(bodies), tail));
    } else {
      HeadEnds(Chunks(heads) + rest, x, readMax, h);
    }
  }

  lemma HeadEnds(gave: seq<Gave>, x: seq<Byte>, readMax: nat, h: Taking)
    requires |x| < 4 && h == Take(gave, 4 - |x|) && (|x + h.bytes| < 4 || !LengthOk(ReadInt(x + h.bytes), readMax))
    ensures Gathered(gave, x, readMax) == x + h.bytes
    ensures EndsAs(gave, x, readMax) == if |x + h.bytes| < 4 then Drought(h.rest) else Failed
  {
  }

  lemma BodyEnds(gave: seq<Gave>, x: seq<Byte>, readMax: nat, h: Taking, b: Taking)
    requires |x| < 4 && h == Take(gave, 4 - |x|) && |x + h.bytes| == 4 && LengthOk(ReadInt(x + h.bytes), readMax)
    requires b == Take(h.rest, ReadInt(x + h.bytes) - 4)
    ensures Gathered(gave, x, readMax) == x + h.bytes + b.bytes
    ensures EndsAs(gave, x, readMax) == if |b.bytes| == ReadInt(x + h.bytes) - 4 then Whole else Drought(b.rest)
  {
  }
}
