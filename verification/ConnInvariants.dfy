/** What every handler keeps true of one connection, whatever the kernel answers. */
module ConnInvariants {
  import opened NetUtil
  import opened ConnModel
  import opened Reassembly
  import Arith

  // The records named by indices, one after the other.
  function Flat(records: seq<seq<Byte>>, indices: seq<nat>): seq<Byte>
    requires forall j :: 0 <= j < |indices| ==> indices[j] < |records|
  {
    if indices == [] then []
    else Flat(records, indices[..|indices| - 1]) + records[indices[|indices| - 1]]
  }

  ghost predicate InRange(s: Settings, indices: seq<nat>) {
    forall j :: 0 <= j < |indices| ==> indices[j] < |s.records|
  }

  // Whole records, then the first k bytes of the one begun last.
  ghost predicate CutAt(s: Settings, sock: Socket, k: nat) {
    && InRange(s, sock.begun) && sock.begun != []
    && var last := s.records[sock.begun[|sock.begun| - 1]];
    && k < |last| && sock.taken == Flat(s.records, sock.begun[..|sock.begun| - 1]) + last[..k]
  }

  // The bytes a socket took are whole records followed by at most one proper prefix of a record.
  ghost predicate WellCut(s: Settings, sock: Socket) {
    InRange(s, sock.begun) && (sock.taken == Flat(s.records, sock.begun) || exists k :: CutAt(s, sock, k))
  }

  // The bytes a socket gave are whole responses, as many as were completed on it, and perhaps part of another.
  ghost predicate WellFramed(s: Settings, sock: Socket) {
    sock.mark <= |sock.given| && Framed(sock.given[..sock.mark], sock.completed, s.readMax)
  }

  // No byte beyond the completed responses has been read.
  ghost predicate Quiet(s: Settings, sock: Socket) {
    WellFramed(s, sock) && sock.mark == |sock.given|
  }

  // What the response under way has given so far.
  function UnderWay(sock: Socket): seq<Byte>
    requires sock.mark <= |sock.given|
  {
    sock.given[sock.mark..]
  }

  // The send cursor, the read cursor, and requests and responses in step, state by state.
  ghost predicate InStep(l: Link, s: Settings) {
    var c, sock := l.c, l.net.sock;
    && InRange(s, sock.begun) && |c.head| == 4
    && match c.state
       case Closed => sock == FRESH
       case Connecting => sock == FRESH
       case Idle =>
         sock.taken == Flat(s.records, sock.begun) && |sock.begun| == sock.completed && Quiet(s, sock)
       case Sending =>
         && SendReady(c, s) && sock.begun != [] && sock.begun[|sock.begun| - 1] == c.record
         && CutAt(s, sock, c.pos) && |sock.begun| == sock.completed + 1 && Quiet(s, sock)
       case Recving =>
         && c.record < |s.records| && c.pos == |s.records[c.record]|
         && sock.taken == Flat(s.records, sock.begun) && |sock.begun| == sock.completed + 1
         && WellFramed(s, sock) && Reading(c.readLen, c.head, UnderWay(sock), s.readMax)
       case Sent => false
       case Recved => false
  }

  // The flags against the kernel's view: at most one direction armed, and each set flag tells the truth. A closed
  // connection keeps a descriptor's number exactly if epoll_ctl refused its last socket.
  ghost predicate FlagsTrue(l: Link) {
    && (l.c.active <==> l.net.interest != Unwatched)
    && (l.c.readyRead ==> l.net.interest == ForRead)
    && (l.c.readyWrite ==> l.net.interest == ForWrite)
    && (l.net.open <==> l.c.state != Closed)
    && (l.net.open ==> l.c.fd >= 0 && l.c.active)
    && (!l.net.open ==> !l.c.active && (l.c.fd != -1 <==> l.net.refused))
    && (l.net.open ==> !l.net.refused)
    && (l.c.state == Idle ==> l.net.interest == ForRead)
  }

  // Without random mode the k-th request started uses record k modulo the number of records.
  ghost predicate RoundRobin(l: Link, s: Settings) {
    var n := |s.records|;
    && l.c.testDataIndex < n
    && (!s.random ==>
          && l.c.testDataIndex == |l.net.started| % n
          && forall k :: 0 <= k < |l.net.started| ==> l.net.started[k] == k % n)
  }

  // The history of started requests is the one of the sockets, oldest first.
  function BegunOn(past: seq<Socket>): seq<nat> {
    if past == [] then [] else BegunOn(past[..|past| - 1]) + past[|past| - 1].begun
  }

  // What holds of a socket at any time, open or not.
  ghost predicate SocketOk(s: Settings, p: Socket) {
    WellCut(s, p) && WellFramed(s, p) && p.completed <= |p.begun| <= p.completed + 1
  }

  ghost predicate PastOk(l: Link, s: Settings) {
    && (forall p :: p in l.net.past ==> SocketOk(s, p))
    && l.net.started == BegunOn(l.net.past) + l.net.sock.begun
  }

  function Pending(c: Conn): nat {
    if c.state in {Connecting, Idle} then 1 else 0
  }

  // budget: started, pending and remaining requests never exceed budget + 1; a wrapped counter means closed for good.
  ghost predicate InBudget(l: Link, budget: nat) {
    && |l.net.started| <= budget + 1
    && (|l.net.started| + Pending(l.c) + l.c.requests <= budget + 1
        || (l.c.state == Closed && l.c.requests == WORD32 - 1))
  }

  ghost predicate Core(l: Link, s: Settings) {
    InStep(l, s) && FlagsTrue(l) && RoundRobin(l, s) && PastOk(l, s)
  }

  ghost predicate Inv(l: Link, s: Settings, budget: nat) {
    Core(l, s) && InBudget(l, budget)
  }

  // With no epoll_ctl failure, the event each state waits for is armed.
  ghost predicate Armed(l: Link) {
    && (l.c.state in {Connecting, Sending} ==> l.c.readyWrite)
    && (l.c.state == Recving ==> l.c.readyRead)
  }

  lemma FreshInv(s: Settings, budget: nat, readStart: nat)
    requires s.Valid()
    ensures Inv(Fresh(budget, readStart), s, budget) && Armed(Fresh(budget, readStart))
  {
  }

  lemma InStepSocket(l: Link, s: Settings)
    requires InStep(l, s) && l.net.open && l.c.state !in {Closed, Connecting}
    ensures SocketOk(s, l.net.sock)
  {
  }

  lemma FreshSocket(s: Settings)
    ensures SocketOk(s, FRESH)
  {
  }

  // What closing a connection relies on, wherever its read cursor may stand.
  ghost predicate Closable(l: Link, s: Settings) {
    && |l.c.head| == 4 && l.net.open && l.c.state != Closed
    && SocketOk(s, l.net.sock) && FlagsTrue(l) && RoundRobin(l, s) && PastOk(l, s)
  }

  lemma CoreClosable(l: Link, s: Settings)
    requires s.Valid() && Core(l, s) && l.net.open
    ensures Closable(l, s)
  {
    FreshSocket(s);
    if l.c.state != Connecting { InStepSocket(l, s); }
  }

  lemma CloseCore(l: Link, s: Settings)
    requires s.Valid() && Closable(l, s)
    ensures Core(CloseConnection(l), s)
  {
    var r := CloseConnection(l);
    assert r.net.past[..|r.net.past| - 1] == l.net.past;
  }

  lemma StartConnectInv(l: Link, s: Settings, budget: nat, a: Answers)
    requires s.Valid() && Inv(l, s, budget) && l.c.state == Closed && l.c.fd == -1
    requires |l.net.started| + 1 + l.c.requests <= budget + 1
    ensures Inv(StartConnect(l, a), s, budget) && StartConnect(l, a).c.state in {Closed, Connecting}
    ensures StartConnect(l, a).c.state == Connecting ==> Armed(StartConnect(l, a))
  {
    FreshSocket(s);
    var r := StartConnect(l, a);
    if r.net.past != l.net.past {
      assert r.net.past[..|r.net.past| - 1] == l.net.past;
    }
  }

  lemma FailInv(l: Link, s: Settings, budget: nat, a: Answers)
    requires s.Valid() && Closable(l, s) && InBudget(l, budget)
    ensures Inv(Fail(l, s, a), s, budget) && Armed(Fail(l, s, a))
  {
    CloseCore(l, s);
    var closed := CloseConnection(l);
    var spent := closed.(c := closed.c.(requests := Decremented(l.c.requests)));
    if s.retry {
      assert Inv(spent, s, budget);
      if l.c.requests > 0 { StartConnectInv(spent, s, budget, a); }
    }
  }

  lemma MakeRequestRoundRobin(l: Link, s: Settings, a: Answers)
    requires s.Valid() && RoundRobin(l, s)
    ensures RoundRobin(MakeRequest(l, s, a), s)
  {
    Arith.NextIndex(|l.net.started|, |s.records|);
  }

  lemma MakeRequestInStep(l: Link, s: Settings, a: Answers)
    requires s.Valid() && InStep(l, s) && l.c.state in {Connecting, Idle} && l.c.testDataIndex < |s.records|
    ensures InStep(MakeRequest(l.(c := l.c.(state := Sending)), s, a), s)
  {
    var r := MakeRequest(l.(c := l.c.(state := Sending)), s, a);
    var begun := l.net.sock.begun;
    assert r.net.sock.begun[..|begun|] == begun;
    assert s.records[r.c.record][..0] == [];
  }

  lemma MakeRequestInv(l: Link, s: Settings, budget: nat, a: Answers)
    requires s.Valid() && Inv(l, s, budget) && l.c.state in {Connecting, Idle}
    ensures Inv(MakeRequest(l.(c := l.c.(state := Sending)), s, a), s, budget)
  {
    var sending := l.(c := l.c.(state := Sending));
    var r := MakeRequest(sending, s, a);
    MakeRequestInStep(l, s, a);
    MakeRequestRoundRobin(sending, s, a);
    assert r.net.started == BegunOn(r.net.past) + r.net.sock.begun;
  }

  // A send that took n more bytes, up to the end of the record at most.
  lemma TakeInStep(l: Link, s: Settings, n: nat)
    requires s.Valid() && InStep(l, s) && l.c.state == Sending && 0 < n <= |s.records[l.c.record]| - l.c.pos
    ensures var record := s.records[l.c.record];
      var sock := l.net.sock.(taken := l.net.sock.taken + record[l.c.pos..l.c.pos + n]);
      if l.c.pos + n < |record| then CutAt(s, sock, l.c.pos + n) else sock.taken == Flat(s.records, sock.begun)
  {
    var record := s.records[l.c.record];
    var whole := Flat(s.records, l.net.sock.begun[..|l.net.sock.begun| - 1]);
    assert record[..l.c.pos] + record[l.c.pos..l.c.pos + n] == record[..l.c.pos + n];
    assert whole + record[..l.c.pos] + record[l.c.pos..l.c.pos + n] == whole + record[..l.c.pos + n];
    if l.c.pos + n == |record| {
      assert record[..|record|] == record;
    }
  }

  // n more bytes taken: still sending, or, at the end of the record, about to await the response.
  function Taken(l: Link, s: Settings, n: nat): Link
    requires l.c.record < |s.records| && l.c.pos + n <= |s.records[l.c.record]|
  {
    Link(l.c.(pos := l.c.pos + n),
         l.net.(sock := l.net.sock.(taken := l.net.sock.taken + s.records[l.c.record][l.c.pos..l.c.pos + n])))
  }

  lemma TakenPart(l: Link, s: Settings, budget: nat, n: nat)
    requires s.Valid() && Inv(l, s, budget) && l.c.state == Sending && 0 < n < |s.records[l.c.record]| - l.c.pos
    ensures Inv(Taken(l, s, n), s, budget)
  {
    TakeInStep(l, s, n);
  }

  lemma TakenAll(l: Link, s: Settings, budget: nat, n: nat)
    requires s.Valid() && Inv(l, s, budget) && l.c.state == Sending && 0 < n == |s.records[l.c.record]| - l.c.pos
    ensures var t := Taken(l, s, n); Inv(t.(c := t.c.(state := Recving, readLen := -4)), s, budget)
  {
    TakeInStep(l, s, n);
  }

  lemma WaitInv(l: Link, s: Settings, budget: nat, ok: bool)
    requires Inv(l, s, budget) && l.c.state == Sending
    ensures var r := AddWriteEvent(l.(c := l.c.(readyWrite := false)), ok);
      Inv(r, s, budget) && r.c.state == Sending && (ok ==> Armed(r))
  {
  }

  lemma AwaitInv(l: Link, s: Settings, budget: nat, ok: bool)
    requires Inv(l.(c := l.c.(state := Recving, readLen := -4)), s, budget)
    ensures var r := AddReadEvent(l.(c := l.c.(state := Sent)), ok);
      var m := r.(c := r.c.(state := Recving, readLen := -4));
      Inv(m, s, budget) && (ok ==> Armed(m))
  {
  }

  ghost predicate SentOk(r: Link, s: Settings, budget: nat, ok: bool) {
    Inv(r, s, budget) && r.c.state != Idle && (ok ==> Armed(r))
  }

  // How many bytes the send call takes; -1 for an error.
  function SendCount(l: Link, s: Settings, a: Answers): int
    requires l.c.record < |s.records|
  {
    if a.took.Accepted? then Min(a.took.n, |s.records[l.c.record]| - l.c.pos) else -1
  }

  lemma SendOnPart(l: Link, s: Settings, a: Answers)
    requires s.Valid() && SendReady(l.c, s) && l.c.state == Sending
    requires 0 < SendCount(l, s, a) < |s.records[l.c.record]| - l.c.pos
    ensures var t := Taken(l, s, SendCount(l, s, a));
      SendOn(l, s, a) == AddWriteEvent(t.(c := t.c.(readyWrite := false)), a.ctl)
  {
  }

  lemma SendingPart(l: Link, s: Settings, budget: nat, a: Answers)
    requires s.Valid() && Inv(l, s, budget) && l.c.state == Sending
    requires 0 < SendCount(l, s, a) < |s.records[l.c.record]| - l.c.pos
    ensures SentOk(SendOn(l, s, a), s, budget, a.ctl)
  {
    TakenPart(l, s, budget, SendCount(l, s, a));
    WaitInv(Taken(l, s, SendCount(l, s, a)), s, budget, a.ctl);
    SendOnPart(l, s, a);
  }

  lemma SendingAll(l: Link, s: Settings, budget: nat, a: Answers)
    requires s.Valid() && Inv(l, s, budget) && l.c.state == Sending
    requires 0 < SendCount(l, s, a) == |s.records[l.c.record]| - l.c.pos
    ensures SentOk(SendOn(l, s, a), s, budget, a.ctl)
  {
    TakenAll(l, s, budget, SendCount(l, s, a));
    AwaitInv(Taken(l, s, SendCount(l, s, a)), s, budget, a.ctl);
  }

  lemma SendingNone(l: Link, s: Settings, budget: nat, a: Answers)
    requires s.Valid() && Inv(l, s, budget) && l.c.state == Sending && SendCount(l, s, a) <= 0
    ensures SentOk(SendOn(l, s, a), s, budget, a.ctl)
  {
    WaitInv(l, s, budget, a.ctl);
    CoreClosable(l, s);
    FailInv(l, s, budget, a);
  }

  lemma SendingInv(l: Link, s: Settings, budget: nat, a: Answers)
    requires s.Valid() && Inv(l, s, budget) && l.c.state == Sending
    ensures SentOk(SendOn(l, s, a), s, budget, a.ctl)
  {
    var n := SendCount(l, s, a);
    if 0 < n < |s.records[l.c.record]| - l.c.pos {
      SendingPart(l, s, budget, a);
    } else if 0 < n {
      SendingAll(l, s, budget, a);
    } else {
      SendingNone(l, s, budget, a);
    }
  }

  lemma SendInv(l: Link, s: Settings, budget: nat, a: Answers)
    requires s.Valid() && Inv(l, s, budget)
    ensures Inv(HandleSend(l, s, a), s, budget) && HandleSend(l, s, a).c.state != Idle
    ensures a.ctl && Armed(l) ==> Armed(HandleSend(l, s, a))
  {
    if l.c.state in {Connecting, Idle} {
      MakeRequestInv(l, s, budget, a);
      var begun := MakeRequest(l.(c := l.c.(state := Sending)), s, a);
      SendingInv(begun, s, budget, a);
    } else if l.c.state == Sending {
      SendingInv(l, s, budget, a);
    }
  }

  // A response has just been read in full.
  ghost predicate Answered(l: Link, s: Settings, budget: nat) {
    l.c.state == Recved && Core(l.(c := l.c.(state := Idle)), s) && InBudget(l, budget)
  }

  ghost predicate ReadOutcome(r: Outcome, s: Settings, a: Answers, budget: nat) {
    && s.Valid() && Inv(r.link, s, budget) && (a.ctl ==> Armed(r.link))
    && (r.link.c.state == Idle <==> r.nap.Some?)
    && (r.nap.Some? ==> r.nap == Some(SleepMs(s, a.nap)) && s.sleepMin <= r.nap.value <= s.sleepMax && 0 < s.sleepMin)
  }

  lemma AfterRequestInv(l: Link, s: Settings, budget: nat, a: Answers)
    requires s.Valid() && Answered(l, s, budget)
    ensures ReadOutcome(HandleAfterRequest(l, s, a), s, a, budget)
  {
    var spent := l.(c := l.c.(state := Idle, requests := Decremented(l.c.requests)));
    assert Core(spent, s);
    if l.c.requests == 0 {
      CoreClosable(spent, s);
      CloseCore(spent, s);
    } else {
      assert Inv(spent, s, budget);
      SendInv(spent, s, budget, a);
    }
  }

  lemma ReadAgainInv(l: Link, s: Settings, a: Answers, budget: nat)
    requires s.Valid() && Inv(l, s, budget) && l.c.state == Recving
    ensures ReadOutcome(Outcome(AddReadEvent(l.(c := l.c.(readyRead := false)), a.ctl), None), s, a, budget)
  {
  }

  // The read handler has taken all from the response under way; ends is how the recv loop ended.
  ghost predicate TookAll(l: Link, m: Link, s: Settings, all: seq<Byte>, ends: Ending) {
    && l.c.state == Recving && l.net.sock.mark <= |l.net.sock.given| && |m.c.head| == 4
    && m == Reached(l, Progress(m.c.head, m.c.readLen, l.net.sock.given[..l.net.sock.mark] + all))
    && (ends == Whole ==> IsResponse(all, s.readMax))
    && (ends == Starved ==> Reading(m.c.readLen, m.c.head, all, s.readMax))
  }

  lemma TookStarved(l: Link, m: Link, s: Settings, budget: nat, all: seq<Byte>)
    requires Inv(l, s, budget) && TookAll(l, m, s, all, Starved)
    ensures Inv(m, s, budget)
  {
    var sock := l.net.sock;
    assert m.net.sock.given[..sock.mark] == sock.given[..sock.mark] && UnderWay(m.net.sock) == all;
  }

  lemma TookFailed(l: Link, m: Link, s: Settings, budget: nat, all: seq<Byte>)
    requires s.Valid() && Inv(l, s, budget) && TookAll(l, m, s, all, Failed)
    ensures Closable(m, s) && InBudget(m, budget)
  {
    var sock := l.net.sock;
    assert m.net.sock.given[..sock.mark] == sock.given[..sock.mark];
    CoreClosable(l, s);
  }

  lemma TookWhole(l: Link, m: Link, s: Settings, budget: nat, all: seq<Byte>)
    requires Inv(l, s, budget) && TookAll(l, m, s, all, Whole) && l.net.interest == ForRead
    ensures var sock := m.net.sock.(completed := m.net.sock.completed + 1, mark := |m.net.sock.given|);
      Answered(Link(m.c.(state := Recved), m.net.(sock := sock)), s, budget)
  {
    var given := m.net.sock.given;
    FramedSnoc(l.net.sock.given[..l.net.sock.mark], l.net.sock.completed, s.readMax, all);
    assert given[..|given|] == given;
  }

  lemma InsideAtFirst(l: Link, s: Settings, budget: nat)
    requires Inv(l, s, budget) && l.c.state == Recving && l.c.readLen < 0
    ensures |UnderWay(l.net.sock)| < 4 && InHead(ProgressOf(l), UnderWay(l.net.sock)) && ReadReady(l.c)
  {
  }

  lemma TookFrom(l: Link, s: Settings, x: seq<Byte>, all: seq<Byte>, ends: Ending, r: (Progress, Ending))
    requires l.c.state == Recving && l.net.sock.mark <= |l.net.sock.given| && x == UnderWay(l.net.sock)
    requires |l.c.head| == 4 && Gathers(ProgressOf(l), s.readMax, x, all, ends, r)
    ensures r.1 == ends && TookAll(l, Reached(l, r.0), s, all, ends)
  {
    var sock := l.net.sock;
    assert sock.given == sock.given[..sock.mark] + x && all == x + all[|x|..];
    assert sock.given + all[|x|..] == sock.given[..sock.mark] + all;
  }

  // Reading begins inside the head, and goes on with what the kernel gives.
  lemma ReadTakes(l: Link, s: Settings, budget: nat, gave: seq<Gave>)
    requires s.Valid() && Inv(l, s, budget) && l.c.state == Recving && l.c.readLen < 0
    ensures |UnderWay(l.net.sock)| < 4 && InHead(ProgressOf(l), UnderWay(l.net.sock)) && ReadReady(l.c)
    ensures var r := ReadLoop(ProgressOf(l), s.readMax, gave, l.c.readLen, ReadSize(l.c));
      && r.1 == EndsAs(gave, UnderWay(l.net.sock), s.readMax)
      && TookAll(l, Reached(l, r.0), s, Gathered(gave, UnderWay(l.net.sock), s.readMax), r.1)
  {
    InsideAtFirst(l, s, budget);
    var x := UnderWay(l.net.sock);
    LoopGathers(ProgressOf(l), s.readMax, gave, x);
    TookFrom(l, s, x, Gathered(gave, x, s.readMax), EndsAs(gave, x, s.readMax),
             ReadLoop(ProgressOf(l), s.readMax, gave, l.c.readLen, ReadSize(l.c)));
  }

  lemma FinishWhole(l: Link, m: Link, s: Settings, budget: nat, all: seq<Byte>, a: Answers)
    requires s.Valid() && Inv(l, s, budget) && l.net.interest == ForRead && TookAll(l, m, s, all, Whole)
    ensures ReadOutcome(FinishRead(m, Whole, s, a), s, a, budget)
  {
    TookWhole(l, m, s, budget, all);
    var sock := m.net.sock.(completed := m.net.sock.completed + 1, mark := |m.net.sock.given|);
    AfterRequestInv(Link(m.c.(state := Recved), m.net.(sock := sock)), s, budget, a);
  }

  lemma FinishFailed(l: Link, m: Link, s: Settings, budget: nat, all: seq<Byte>, a: Answers)
    requires s.Valid() && Inv(l, s, budget) && TookAll(l, m, s, all, Failed)
    ensures ReadOutcome(FinishRead(m, Failed, s, a), s, a, budget)
  {
    TookFailed(l, m, s, budget, all);
    FailInv(m, s, budget, a);
  }

  lemma FinishStarved(l: Link, m: Link, s: Settings, budget: nat, all: seq<Byte>, a: Answers)
    requires s.Valid() && Inv(l, s, budget) && TookAll(l, m, s, all, Starved)
    ensures ReadOutcome(FinishRead(m, Starved, s, a), s, a, budget)
  {
    TookStarved(l, m, s, budget, all);
    ReadAgainInv(m, s, a, budget);
  }

  lemma FinishInv(l: Link, m: Link, s: Settings, budget: nat, all: seq<Byte>, ends: Ending, a: Answers)
    requires s.Valid() && Inv(l, s, budget) && l.net.interest == ForRead && TookAll(l, m, s, all, ends)
    ensures ReadOutcome(FinishRead(m, ends, s, a), s, a, budget)
  {
    match ends
    case Whole => FinishWhole(l, m, s, budget, all, a);
    case Failed => FinishFailed(l, m, s, budget, all, a);
    case Starved => FinishStarved(l, m, s, budget, all, a);
  }

  lemma ReadInv(l: Link, s: Settings, budget: nat, a: Answers)
    requires s.Valid() && Inv(l, s, budget) && l.net.interest == ForRead
    requires l.c.state == Recving ==> l.c.readLen < 0
    ensures ReadReady(l.c)
    ensures var r := HandleRead(l, s, a);
      && Inv(r.link, s, budget) && (a.ctl && Armed(l) ==> Armed(r.link))
      && (r.nap.Some? ==> r.link.c.state == Idle && s.sleepMin <= r.nap.value <= s.sleepMax && 0 < s.sleepMin)
      && (r.link.c.state == Idle && r.nap.None? ==> r.link == l)
  {
    if l.c.state == Recving {
      ReadTakes(l, s, budget, a.gave);
      var (p, ends) := ReadLoop(ProgressOf(l), s.readMax, a.gave, l.c.readLen, ReadSize(l.c));
      FinishInv(l, Reached(l, p), s, budget, Gathered(a.gave, UnderWay(l.net.sock), s.readMax), ends, a);
    }
  }

  // A body is left cut short exactly by the answers that complete an acceptable head and run dry inside the body.
  lemma CutExactly(l: Link, s: Settings, budget: nat, a: Answers)
    requires s.Valid() && Inv(l, s, budget) && l.net.interest == ForRead && l.c.state == Recving && l.c.readLen < 0
    ensures ReadReady(l.c) && |UnderWay(l.net.sock)| < 4
    ensures var r := HandleRead(l, s, a).link.c;
      (r.state == Recving && r.readLen >= 0) <==> CutsBody(a.gave, UnderWay(l.net.sock), s.readMax)
  {
    ReadTakes(l, s, budget, a.gave);
    WindowLeft(ProgressOf(l), s.readMax, a.gave, UnderWay(l.net.sock));
    var (p, ends) := ReadLoop(ProgressOf(l), s.readMax, a.gave, l.c.readLen, ReadSize(l.c));
    FinishCursor(Reached(l, p), ends, s, a);
  }

  // Only running dry leaves the read cursor where the loop put it; any later response starts over.
  lemma FinishCursor(m: Link, ends: Ending, s: Settings, a: Answers)
    requires s.Valid() && SendReady(m.c.(state := Idle), s) && m.c.state == Recving
    ensures var r := FinishRead(m, ends, s, a).link.c;
      if ends == Starved then r.state == Recving && r.readLen == m.c.readLen
      else r.state == Recving ==> r.readLen == -4
  {
  }

  // With epoll_ctl working, no socket is refused.
  lemma SendTrusted(l: Link, s: Settings, a: Answers)
    requires s.Valid() && SendReady(l.c, s) && FlagsTrue(l) && a.ctl && !l.net.refused
    ensures !HandleSend(l, s, a).net.refused
  {
  }

  lemma FailTrusted(l: Link, s: Settings, a: Answers)
    requires FlagsTrue(l) && a.ctl && !l.net.refused
    ensures !Fail(l, s, a).net.refused
  {
  }

  lemma ReadTrusted(l: Link, s: Settings, a: Answers)
    requires s.Valid() && SendReady(l.c, s) && ReadReady(l.c) && FlagsTrue(l) && a.ctl && !l.net.refused
    ensures !HandleRead(l, s, a).link.net.refused
  {
    if l.c.state == Recving {
      var (p, ends) := ReadLoop(ProgressOf(l), s.readMax, a.gave, l.c.readLen, ReadSize(l.c));
      FinishTrusted(Reached(l, p), ends, s, a);
    }
  }

  lemma FinishTrusted(m: Link, ends: Ending, s: Settings, a: Answers)
    requires s.Valid() && SendReady(m.c.(state := Idle), s) && m.c.state == Recving
    requires FlagsTrue(m) && a.ctl && !m.net.refused
    ensures !FinishRead(m, ends, s, a).link.net.refused
  {
    var sock := m.net.sock.(completed := m.net.sock.completed + 1, mark := |m.net.sock.given|);
    var spent := Link(m.c.(state := Idle, requests := Decremented(m.c.requests)), m.net.(sock := sock));
    if m.net.interest == ForRead { SendTrusted(spent, s, a); }
    FailTrusted(m, s, a);
  }
}
