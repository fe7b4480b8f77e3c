/** What each handler does to one connection, told case by case from the outside. */
module Effects {
  import opened NetUtil
  import opened ConnModel
  import opened Reassembly
  import opened ConnInvariants

  // The socket of l was given up, whatever else the handler had done to l before: r is being dialled again exactly if
  // retries are allowed, the budget is not used up and the dial works; the retry costs one request.
  ghost predicate GivenUp(l: Link, r: Link, s: Settings, a: Answers) {
    && (r.c.state == Connecting <==> s.retry && l.c.requests > 0 && a.dial.Dialled? && a.ctl)
    && (if r.c.state == Connecting then
          r.net.open && r.net.interest == ForWrite && r.c.readyWrite && r.c.fd == a.dial.fd && r.net.sock == FRESH
        else r.c.state == Closed && !r.net.open)
    && r.c.requests == (if !s.retry then l.c.requests else if l.c.requests > 0 then l.c.requests - 1 else 0xFFFF_FFFF)
    && |r.net.past| > |l.net.past| && l.net.past == r.net.past[..|l.net.past|]
  }

  // Nothing has become of the socket but what was sent or received.
  ghost predicate Kept(l: Link, r: Link) {
    r.net.open && r.c.fd == l.c.fd && r.net.past == l.net.past
  }

  lemma FailMeets(l: Link, s: Settings, a: Answers)
    requires Closable(l, s)
    ensures GivenUp(l, Fail(l, s, a), s, a)
    ensures Fail(l, s, a).net.past[|l.net.past|] == l.net.sock && Fail(l, s, a).net.started == l.net.started
    ensures Fail(l, s, a).c.testDataIndex == l.c.testDataIndex
  {
  }

  // A hang-up.
  lemma HangUpMeets(l: Link, s: Settings, budget: nat, a: Answers)
    requires s.Valid() && Inv(l, s, budget) && l.net.open
    ensures var r := HandleClose(l, s, a);
      && GivenUp(l, r, s, a) && r.net.past[|l.net.past|] == l.net.sock
      && r.net.started == l.net.started && r.c.testDataIndex == l.c.testDataIndex
  {
    CoreClosable(l, s);
    FailMeets(l, s, a);
  }

  // The record the next request is for.
  function NextRecord(l: Link, s: Settings, a: Answers): nat
    requires s.records != []
  {
    if s.random then a.pick % |s.records| else l.c.testDataIndex
  }

  // The requests started and the place in the rotation after a request has begun.
  ghost predicate Begun(l: Link, r: Link, s: Settings, a: Answers) {
    && s.records != [] && r.net.started == l.net.started + [NextRecord(l, s, a)]
    && r.c.testDataIndex ==
       if s.random then l.c.testDataIndex
       else if l.c.testDataIndex + 1 == |s.records| then 0
       else l.c.testDataIndex + 1
  }

  // r is l with a request under way that has come to pos: a new one, unless one was under way already.
  ghost predicate UnderWayAt(l: Link, r: Link, s: Settings, a: Answers) {
    && r.c.record < |s.records| && r.c.requests == l.c.requests
    && if l.c.state == Sending then
         r.c.record == l.c.record && r.c.testDataIndex == l.c.testDataIndex && r.net.started == l.net.started
       else Begun(l, r, s, a) && r.c.record == NextRecord(l, s, a)
  }

  // The first byte still to send.
  function Cursor(l: Link): nat {
    if l.c.state == Sending then l.c.pos else 0
  }

  lemma PickInRange(s: Settings, a: Answers)
    requires s.records != []
    ensures a.pick % |s.records| < |s.records|
  {
  }

  lemma RequestMeets(l: Link, s: Settings, budget: nat, a: Answers)
    requires s.Valid() && Inv(l, s, budget) && l.c.state in {Connecting, Idle}
    ensures var m := MakeRequest(l.(c := l.c.(state := Sending)), s, a);
      && UnderWayAt(l, m, s, a) && Kept(l, m) && m.c.state == Sending && m.c.pos == 0
      && m.net.sock == l.net.sock.(begun := m.net.sock.begun) && m.net.interest == l.net.interest
  {
    PickInRange(s, a);
  }

  // A send that the socket refuses for now, or of which it takes nothing.
  lemma SendNothing(m: Link, s: Settings, budget: nat, a: Answers)
    requires s.Valid() && Inv(m, s, budget) && m.c.state == Sending
    requires a.took.Busy? || (a.took.Accepted? && a.took.n == 0)
    ensures var r := SendOn(m, s, a);
      && Kept(m, r) && r.c.state == Sending && r.c.pos == m.c.pos && r.c.record == m.c.record
      && r.net.sock == m.net.sock && r.c.requests == m.c.requests && r.c.testDataIndex == m.c.testDataIndex
      && r.net.started == m.net.started && (a.ctl ==> r.c.readyWrite && r.net.interest == ForWrite)
  {
  }

  // A send of which the socket takes n bytes, the rest of the record at most.
  lemma SendSome(m: Link, s: Settings, budget: nat, a: Answers, n: nat)
    requires s.Valid() && Inv(m, s, budget) && m.c.state == Sending
    requires a.took.Accepted? && a.took.n > 0 && n == Min(a.took.n, |s.records[m.c.record]| - m.c.pos)
    ensures var r, record := SendOn(m, s, a), s.records[m.c.record];
      && Kept(m, r) && r.c.pos == m.c.pos + n && r.c.record == m.c.record
      && r.net.sock == m.net.sock.(taken := m.net.sock.taken + record[m.c.pos..m.c.pos + n])
      && r.c.requests == m.c.requests && r.c.testDataIndex == m.c.testDataIndex && r.net.started == m.net.started
      && if m.c.pos + n < |record| then
           r.c.state == Sending && (a.ctl ==> r.c.readyWrite && r.net.interest == ForWrite)
         else
           r.c.state == Recving && r.c.readLen == -4 && (a.ctl ==> r.c.readyRead && r.net.interest == ForRead)
  {
  }

  lemma SendBroken(m: Link, s: Settings, budget: nat, a: Answers)
    requires s.Valid() && Inv(m, s, budget) && m.c.state == Sending && a.took.Broken?
    ensures var r := SendOn(m, s, a);
      && GivenUp(m, r, s, a) && r.net.past[|m.net.past|] == m.net.sock
      && r.net.started == m.net.started && r.c.testDataIndex == m.c.testDataIndex
  {
    CoreClosable(m, s);
    FailMeets(m, s, a);
  }

  // handle_send_event, all of it. Connecting and idle connections begin a request; what is left of it is sent. Only an
  // error costs the socket: a send that would block, or takes nothing, is waited for.
  ghost predicate Sends(l: Link, r: Link, s: Settings, a: Answers) {
    && (|r.net.past| > |l.net.past| <==> a.took.Broken?)
    && match a.took
       case Broken =>
         && GivenUp(l, r, s, a)
         && if l.c.state == Sending then
              r.net.started == l.net.started && r.c.testDataIndex == l.c.testDataIndex
            else Begun(l, r, s, a)
       case Busy =>
         && Kept(l, r) && UnderWayAt(l, r, s, a) && r.c.state == Sending && r.c.pos == Cursor(l)
         && r.net.sock == l.net.sock.(begun := r.net.sock.begun)
         && (a.ctl ==> r.c.readyWrite && r.net.interest == ForWrite)
       case Accepted(k) =>
         && Kept(l, r) && UnderWayAt(l, r, s, a)
         && var record := s.records[r.c.record];
         && Cursor(l) < |record|
         && var n := if k < |record| - Cursor(l) then k else |record| - Cursor(l);
         && r.c.pos == Cursor(l) + n
         && r.net.sock == l.net.sock.(taken := l.net.sock.taken + record[Cursor(l)..Cursor(l) + n],
                                      begun := r.net.sock.begun)
         && if Cursor(l) + n < |record| then
              r.c.state == Sending && (a.ctl ==> r.c.readyWrite && r.net.interest == ForWrite)
            else
              r.c.state == Recving && r.c.readLen == -4 && (a.ctl ==> r.c.readyRead && r.net.interest == ForRead)
  }

  lemma SendOnMeets(m: Link, s: Settings, budget: nat, a: Answers)
    requires s.Valid() && Inv(m, s, budget) && m.c.state == Sending
    ensures Sends(m, SendOn(m, s, a), s, a)
  {
    match a.took
    case Broken => SendBroken(m, s, budget, a);
    case Busy => SendNothing(m, s, budget, a);
    case Accepted(k) =>
      if k == 0 {
        SendNothing(m, s, budget, a);
        assert s.records[m.c.record][m.c.pos..m.c.pos + 0] == [];
      } else {
        SendSome(m, s, budget, a, Min(k, |s.records[m.c.record]| - m.c.pos));
      }
  }

  lemma SendMeets(l: Link, s: Settings, budget: nat, a: Answers)
    requires s.Valid() && Inv(l, s, budget)
    ensures if l.c.state in {Connecting, Idle, Sending} then Sends(l, HandleSend(l, s, a), s, a)
            else HandleSend(l, s, a) == l
  {
    if l.c.state == Sending {
      SendOnMeets(l, s, budget, a);
    } else if l.c.state in {Connecting, Idle} {
      RequestMeets(l, s, budget, a);
      MakeRequestInv(l, s, budget, a);
      var m := MakeRequest(l.(c := l.c.(state := Sending)), s, a);
      SendOnMeets(m, s, budget, a);
      SentAfter(l, m, HandleSend(l, s, a), s, a);
    }
  }

  // What the send makes of a request just begun is what it makes of the connection that began it.
  lemma SentAfter(l: Link, m: Link, r: Link, s: Settings, a: Answers)
    requires l.c.state in {Connecting, Idle} && UnderWayAt(l, m, s, a) && Kept(l, m) && Sends(m, r, s, a)
    requires m.c.state == Sending && m.c.pos == 0 && m.net.sock == l.net.sock.(begun := m.net.sock.begun)
    ensures Sends(l, r, s, a)
  {
  }

  // In random mode every record can be the next one.
  lemma AnyRecord(l: Link, s: Settings, budget: nat, a: Answers, k: nat)
    requires s.Valid() && Inv(l, s, budget) && s.random && l.c.state in {Connecting, Idle} && k < |s.records|
    ensures HandleSend(l, s, a.(pick := k)).net.started == l.net.started + [k]
  {
    Small(k, |s.records|);
    SendMeets(l, s, budget, a.(pick := k));
  }

  lemma Small(k: nat, n: nat)
    requires k < n
    ensures k % n == k
  {
  }

  // handle_timer_event: only an idle connection is resumed, and then a request begins.
  lemma TimerMeets(l: Link, s: Settings, budget: nat, a: Answers)
    requires s.Valid() && Inv(l, s, budget)
    ensures if l.c.state == Idle then Sends(l, HandleTimer(l, s, a), s, a) else HandleTimer(l, s, a) == l
  {
    if l.c.state == Idle { SendMeets(l, s, budget, a); }
  }

  // The socket of l after its response has given all so far.
  function Fed(l: Link, all: seq<Byte>): Socket
    requires l.net.sock.mark <= |l.net.sock.given|
  {
    l.net.sock.(given := l.net.sock.given[..l.net.sock.mark] + all)
  }

  // The same after that response is complete.
  function Completed(l: Link, all: seq<Byte>): Socket
    requires l.net.sock.mark <= |l.net.sock.given|
  {
    Fed(l, all).(completed := l.net.sock.completed + 1, mark := l.net.sock.mark + |all|)
  }

  // handle_read_event, and handle_after_request behind it: a response awaited has given all in total, and the recv loop
  // ended as ends.
  ghost predicate Reads(l: Link, r: Outcome, s: Settings, a: Answers, all: seq<Byte>, ends: Ending)
    requires s.Valid()
  {
    && l.net.sock.mark <= |l.net.sock.given|
    && match ends
       case Starved =>
         && r.nap.None? && Kept(l, r.link) && r.link.c.state == Recving && r.link.net.sock == Fed(l, all)
         && r.link.c.record == l.c.record && r.link.c.pos == l.c.pos && r.link.c.requests == l.c.requests
         && r.link.c.testDataIndex == l.c.testDataIndex && r.link.net.started == l.net.started
         && (a.ctl ==> r.link.c.readyRead && r.link.net.interest == ForRead)
       case Failed =>
         && r.nap.None? && GivenUp(l, r.link, s, a) && r.link.net.past[|l.net.past|] == Fed(l, all)
         && r.link.net.started == l.net.started && r.link.c.testDataIndex == l.c.testDataIndex
       case Whole =>
         if l.c.requests == 0 then
           && r.nap.None? && r.link.c.state == Closed && !r.link.net.open && r.link.c.fd == -1
           && r.link.net.past == l.net.past + [Completed(l, all)] && r.link.net.started == l.net.started
         else if s.sleepMin > 0 then
           && r.nap.Some? && r.nap.value == s.sleepMin + a.nap % (s.sleepMax - s.sleepMin + 1)
           && Kept(l, r.link) && r.link.c.state == Idle && r.link.net.sock == Completed(l, all)
           && r.link.c.requests == l.c.requests - 1 && r.link.net.interest == l.net.interest
           && r.link.c.testDataIndex == l.c.testDataIndex && r.link.net.started == l.net.started
         else
           && r.nap.None?
           && Sends(Link(l.c.(state := Idle, requests := l.c.requests - 1), l.net.(sock := Completed(l, all))),
                    r.link, s, a)
  }

  lemma FailedMeets(l: Link, m: Link, s: Settings, budget: nat, all: seq<Byte>, a: Answers)
    requires s.Valid() && Inv(l, s, budget) && TookAll(l, m, s, all, Failed)
    ensures Reads(l, FinishRead(m, Failed, s, a), s, a, all, Failed)
  {
    TookFailed(l, m, s, budget, all);
    FailMeets(m, s, a);
  }

  lemma StarvedMeets(l: Link, m: Link, s: Settings, budget: nat, all: seq<Byte>, a: Answers)
    requires s.Valid() && Inv(l, s, budget) && TookAll(l, m, s, all, Starved)
    ensures Reads(l, FinishRead(m, Starved, s, a), s, a, all, Starved)
  {
  }

  // With equal bounds there is one length only.
  lemma SleepIs(s: Settings, nap: nat)
    requires s.Valid()
    ensures SleepMs(s, nap) == s.sleepMin + nap % (s.sleepMax - s.sleepMin + 1)
  {
  }

  // m is l, its response complete.
  ghost predicate JustRead(l: Link, m: Link, s: Settings, budget: nat, all: seq<Byte>) {
    && l.net.sock.mark <= |l.net.sock.given| && m.c.state == Recved && Answered(m, s, budget)
    && m == Link(l.c.(state := Recved, head := m.c.head, readLen := m.c.readLen), l.net.(sock := Completed(l, all)))
  }

  lemma SpentMeets(l: Link, m: Link, s: Settings, budget: nat, all: seq<Byte>, a: Answers)
    requires s.Valid() && JustRead(l, m, s, budget, all) && l.c.requests == 0
    ensures Reads(l, HandleAfterRequest(m, s, a), s, a, all, Whole)
  {
  }

  lemma SleepMeets(l: Link, m: Link, s: Settings, budget: nat, all: seq<Byte>, a: Answers)
    requires s.Valid() && JustRead(l, m, s, budget, all) && l.c.requests > 0 && s.sleepMin > 0
    ensures Reads(l, HandleAfterRequest(m, s, a), s, a, all, Whole)
  {
    SleepIs(s, a.nap);
  }

  lemma AnsweredIdle(m: Link, s: Settings, budget: nat)
    requires Answered(m, s, budget) && m.c.requests > 0
    ensures Inv(Link(m.c.(state := Idle, requests := m.c.requests - 1), m.net), s, budget)
  {
    assert Core(m.(c := m.c.(state := Idle)), s);
  }

  lemma IdleSends(idle: Link, m: Link, s: Settings, budget: nat, a: Answers)
    requires s.Valid() && Inv(idle, s, budget) && idle.c.state == Idle
    requires m == Link(idle.c.(head := m.c.head, readLen := m.c.readLen), idle.net)
    ensures Sends(m, HandleSend(idle, s, a), s, a)
  {
    SendMeets(idle, s, budget, a);
    SameSends(idle, m, HandleSend(idle, s, a), s, a);
  }

  lemma NextMeets(l: Link, m: Link, s: Settings, budget: nat, all: seq<Byte>, a: Answers)
    requires s.Valid() && JustRead(l, m, s, budget, all) && l.c.requests > 0 && s.sleepMin == 0
    ensures Reads(l, HandleAfterRequest(m, s, a), s, a, all, Whole)
  {
    var idle := Link(m.c.(state := Idle, requests := m.c.requests - 1), m.net);
    AnsweredIdle(m, s, budget);
    var other := Link(l.c.(state := Idle, requests := l.c.requests - 1), m.net);
    assert other == Link(idle.c.(head := other.c.head, readLen := other.c.readLen), idle.net);
    IdleSends(idle, other, s, budget, a);
    NextIs(m, idle, s, a);
    NextReads(l, other, HandleSend(idle, s, a), s, all, a);
  }

  lemma NextIs(m: Link, idle: Link, s: Settings, a: Answers)
    requires s.Valid() && SendReady(m.c.(state := Idle), s) && m.c.requests > 0 && s.sleepMin == 0
    requires idle == Link(m.c.(state := Idle, requests := m.c.requests - 1), m.net)
    ensures HandleAfterRequest(m, s, a) == Outcome(HandleSend(idle, s, a), None)
  {
  }

  lemma NextReads(l: Link, other: Link, r: Link, s: Settings, all: seq<Byte>, a: Answers)
    requires s.Valid() && l.net.sock.mark <= |l.net.sock.given| && l.c.requests > 0 && s.sleepMin == 0
    requires other == Link(l.c.(state := Idle, requests := l.c.requests - 1), l.net.(sock := Completed(l, all)))
    requires Sends(other, r, s, a)
    ensures Reads(l, Outcome(r, None), s, a, all, Whole)
  {
  }

  lemma WholeMeets(l: Link, m: Link, s: Settings, budget: nat, all: seq<Byte>, a: Answers)
    requires s.Valid() && Inv(l, s, budget) && l.net.interest == ForRead && TookAll(l, m, s, all, Whole)
    ensures Reads(l, FinishRead(m, Whole, s, a), s, a, all, Whole)
  {
    TookWhole(l, m, s, budget, all);
    var read := Link(m.c.(state := Recved), m.net.(sock := Completed(l, all)));
    assert m.net.sock.(completed := m.net.sock.completed + 1, mark := |m.net.sock.given|) == Completed(l, all);
    assert FinishRead(m, Whole, s, a) == HandleAfterRequest(read, s, a);
    AnsweredMeets(l, read, s, budget, all, a);
  }

  lemma AnsweredMeets(l: Link, m: Link, s: Settings, budget: nat, all: seq<Byte>, a: Answers)
    requires s.Valid() && JustRead(l, m, s, budget, all)
    ensures Reads(l, HandleAfterRequest(m, s, a), s, a, all, Whole)
  {
    if l.c.requests == 0 {
      SpentMeets(l, m, s, budget, all, a);
    } else if s.sleepMin > 0 {
      SleepMeets(l, m, s, budget, all, a);
    } else {
      NextMeets(l, m, s, budget, all, a);
    }
  }

  // Where the read cursor stands is nothing to a send.
  lemma SameSends(l: Link, m: Link, r: Link, s: Settings, a: Answers)
    requires Sends(l, r, s, a) && m == Link(l.c.(head := m.c.head, readLen := m.c.readLen), l.net)
    ensures Sends(m, r, s, a)
  {
  }

  lemma ReadMeets(l: Link, s: Settings, budget: nat, a: Answers)
    requires s.Valid() && Inv(l, s, budget) && l.net.interest == ForRead
    requires l.c.state == Recving ==> l.c.readLen < 0
    ensures ReadReady(l.c)
    ensures if l.c.state != Recving then HandleRead(l, s, a) == Outcome(l, None)
            else
              && l.net.sock.mark <= |l.net.sock.given| && |UnderWay(l.net.sock)| < 4
              && Reads(l, HandleRead(l, s, a), s, a, Gathered(a.gave, UnderWay(l.net.sock), s.readMax),
                       EndsAs(a.gave, UnderWay(l.net.sock), s.readMax))
  {
    if l.c.state == Recving {
      ReadTakes(l, s, budget, a.gave);
      var all := Gathered(a.gave, UnderWay(l.net.sock), s.readMax);
      var (p, ends) := ReadLoop(ProgressOf(l), s.readMax, a.gave, l.c.readLen, ReadSize(l.c));
      match ends
      case Whole => WholeMeets(l, Reached(l, p), s, budget, all, a);
      case Failed => FailedMeets(l, Reached(l, p), s, budget, all, a);
      case Starved => StarvedMeets(l, Reached(l, p), s, budget, all, a);
    }
  }

  lemma SleepLength(l: Link, r: Outcome, s: Settings, a: Answers, all: seq<Byte>, ms: nat)
    requires s.Valid() && Reads(l, r, s, a, all, Whole) && l.c.requests > 0 && 0 < s.sleepMin <= ms <= s.sleepMax
    requires a.nap == ms - s.sleepMin
    ensures r.nap == Some(ms)
  {
    Small(ms - s.sleepMin, s.sleepMax - s.sleepMin + 1);
  }

  // Every length of sleep in the configured range can come up.
  lemma AnySleep(l: Link, s: Settings, budget: nat, a: Answers, ms: nat)
    requires s.Valid() && Inv(l, s, budget) && l.net.interest == ForRead && l.c.state == Recving && l.c.readLen < 0
    requires l.c.requests > 0 && 0 < s.sleepMin <= ms <= s.sleepMax
    requires l.net.sock.mark <= |l.net.sock.given| && |UnderWay(l.net.sock)| < 4
    requires EndsAs(a.gave, UnderWay(l.net.sock), s.readMax) == Whole && a.nap == ms - s.sleepMin
    ensures ReadReady(l.c) && HandleRead(l, s, a).nap == Some(ms)
  {
    ReadMeets(l, s, budget, a);
    SleepLength(l, HandleRead(l, s, a), s, a, Gathered(a.gave, UnderWay(l.net.sock), s.readMax), ms);
  }
}
