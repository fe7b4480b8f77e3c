/** What holds in every state the client can reach, from start_all_connection on. */
module Properties {
  import opened NetUtil
  import opened TimerModel
  import opened ConnModel
  import opened Reassembly
  import opened ConnInvariants
  import opened Effects
  import opened SystemModel

  // The client at some point of some run.
  ghost predicate Reachable(sys: Sys, ss: seq<Settings>, budgets: seq<nat>) {
    exists base: nat, answers, run {:trigger Run(Boot(ss, budgets, base, answers), ss, run)} ::
      && 0 < base && |ss| == |budgets| == |answers| && (forall i :: 0 <= i < |ss| ==> ss[i].Valid())
      && Legal(Boot(ss, budgets, base, answers), ss, run)
      && sys == Run(Boot(ss, budgets, base, answers), ss, run)
  }

  lemma ReachableInv(sys: Sys, ss: seq<Settings>, budgets: seq<nat>)
    requires Reachable(sys, ss, budgets)
    ensures SysInv(sys, ss, budgets)
  {
    var base: nat, answers, run :|
      && 0 < base && |ss| == |budgets| == |answers| && (forall i :: 0 <= i < |ss| ==> ss[i].Valid())
      && Legal(Boot(ss, budgets, base, answers), ss, run)
      && sys == Run(Boot(ss, budgets, base, answers), ss, run);
    BootInv(ss, budgets, base, answers);
    RunInv(Boot(ss, budgets, base, answers), ss, budgets, run);
  }

  // A connection given a budget of R requests never starts more than R + 1, over any errors and retries.
  lemma RequestsBounded(sys: Sys, ss: seq<Settings>, budgets: seq<nat>, i: nat)
    requires Reachable(sys, ss, budgets) && i < |ss|
    ensures i < |sys.links| && |sys.links[i].net.started| <= budgets[i] + 1
  {
    ReachableInv(sys, ss, budgets);
    assert SlotOk(sys, ss, budgets, i);
  }

  // Every socket, past or present, took whole records and at most one proper prefix of another, and completed
  // all its requests but at most the last; outside random mode requests use the records in rotation, across sockets.
  lemma StreamsWellCut(sys: Sys, ss: seq<Settings>, budgets: seq<nat>, i: nat)
    requires Reachable(sys, ss, budgets) && i < |ss|
    ensures i < |sys.links|
    ensures forall p :: p in sys.links[i].net.past ==>
              WellCut(ss[i], p) && p.completed <= |p.begun| <= p.completed + 1
    ensures WellCut(ss[i], sys.links[i].net.sock)
    ensures sys.links[i].net.started == BegunOn(sys.links[i].net.past) + sys.links[i].net.sock.begun
    ensures !ss[i].random ==>
              forall k :: 0 <= k < |sys.links[i].net.started| ==> sys.links[i].net.started[k] == k % |ss[i].records|
  {
    ReachableInv(sys, ss, budgets);
    assert SlotOk(sys, ss, budgets, i);
    if sys.links[i].net.open { CoreClosable(sys.links[i], ss[i]); }
  }

  // Requests and responses in lockstep: while a response is awaited, the whole request has been sent
  // and exactly one more record than responses has gone out on this socket.
  lemma Lockstep(sys: Sys, ss: seq<Settings>, budgets: seq<nat>, i: nat)
    requires Reachable(sys, ss, budgets) && i < |ss|
    ensures i < |sys.links|
    ensures var c, sock := sys.links[i].c, sys.links[i].net.sock;
      c.state == Recving ==>
        && c.record < |ss[i].records| && c.pos == |ss[i].records[c.record]|
        && InRange(ss[i], sock.begun) && sock.taken == Flat(ss[i].records, sock.begun)
        && |sock.begun| == sock.completed + 1
  {
    ReachableInv(sys, ss, budgets);
    assert SlotOk(sys, ss, budgets, i);
  }

  // Every socket, past or present, gave whole responses, each exactly as long as its own head says, and perhaps part of
  // one more. Of that one the head buffer holds the bytes of the head in order, and readLen tells what is missing;
  // unless a response is awaited, not a byte of the next one has been read.
  lemma ResponsesFramed(sys: Sys, ss: seq<Settings>, budgets: seq<nat>, i: nat)
    requires Reachable(sys, ss, budgets) && i < |ss|
    ensures i < |sys.links|
    ensures forall p :: p in sys.links[i].net.past ==> WellFramed(ss[i], p)
    ensures var c, sock := sys.links[i].c, sys.links[i].net.sock;
      && WellFramed(ss[i], sock) && |c.head| == 4
      && if c.state == Recving then Reading(c.readLen, c.head, UnderWay(sock), ss[i].readMax)
         else sock.mark == |sock.given|
  {
    ReachableInv(sys, ss, budgets);
    assert SlotOk(sys, ss, budgets, i);
    FreshSocket(ss[i]);
  }

  // A body cut short is never taken up correctly: readLen - 4 bytes of the response are missing, and with the receive
  // buffer in the lower half of the address space the handler would not ask for that many.
  lemma CutNeverResumes(sys: Sys, ss: seq<Settings>, budgets: seq<nat>, i: nat)
    requires Reachable(sys, ss, budgets) && i < |ss|
    ensures i < |sys.links|
    ensures var c, sock := sys.links[i].c, sys.links[i].net.sock;
      BodyCut(c) ==>
        && |c.head| == 4 && WellFramed(ss[i], sock) && 4 < c.readLen
        && |UnderWay(sock)| + (c.readLen - 4) == ReadInt(c.head)
        && (0 < c.readStart < SIZE_T / 2 ==> !ResumesRight(c.readLen, ReadSize(c), c.readLen - 4))
  {
    ReachableInv(sys, ss, budgets);
    assert SlotOk(sys, ss, budgets, i);
    var c := sys.links[i].c;
    if BodyCut(c) && 0 < c.readStart < SIZE_T / 2 { NeverResumes(c); }
  }

  // A closed connection keeps a descriptor's number exactly if its last attempt to dial got a socket that epoll_ctl
  // refused to watch.
  lemma StaleFd(sys: Sys, ss: seq<Settings>, budgets: seq<nat>, i: nat)
    requires Reachable(sys, ss, budgets) && i < |ss|
    ensures i < |sys.links|
    ensures sys.links[i].c.state == Closed ==> (sys.links[i].c.fd != -1 <==> sys.links[i].net.refused)
  {
    ReachableInv(sys, ss, budgets);
    assert SlotOk(sys, ss, budgets, i);
  }

  // epoll_ctl never fails in this step.
  predicate CtlWorks(e: Event) {
    match e
    case Readable(_, a) => a.ctl
    case Writable(_, a) => a.ctl
    case HungUp(_, a) => a.ctl
    case Clock(_) => true
    case Pass(answers) => forall k :: 0 <= k < |answers| ==> answers[k].ctl
  }

  ghost predicate AllArmed(sys: Sys) {
    forall i :: 0 <= i < |sys.links| ==> Armed(sys.links[i])
  }

  lemma {:induction false} PassArmed(sys: Sys, ss: seq<Settings>, budgets: seq<nat>, answers: seq<Answers>)
    requires SysInv(sys, ss, budgets) && AllArmed(sys) && CtlWorks(Pass(answers))
    ensures AllArmed(PassLoop(sys, ss, answers).0)
    decreases |sys.timers.entries|
  {
    InvIsWellFormed(sys, ss, budgets);
    var q := sys.timers.entries;
    if q != [] && q[0].due <= sys.now {
      FireInv(sys, ss, budgets, answers);
      assert SlotOk(sys, ss, budgets, q[0].id);
      SendInv(sys.links[q[0].id], ss[q[0].id], budgets[q[0].id], if answers == [] then QUIET else answers[0]);
      PassArmed(Fired(sys, ss, answers), ss, budgets, if answers == [] then [] else answers[1..]);
    }
  }

  lemma StepArmed(sys: Sys, ss: seq<Settings>, budgets: seq<nat>, e: Event)
    requires SysInv(sys, ss, budgets) && Enabled(sys, e) && WellFormed(sys, ss) && AllArmed(sys) && CtlWorks(e)
    ensures AllArmed(Step(sys, ss, e))
  {
    match e
    case Readable(id, a) =>
      assert SlotOk(sys, ss, budgets, id);
      ReadInv(sys.links[id], ss[id], budgets[id], a);
    case Writable(id, a) =>
      assert SlotOk(sys, ss, budgets, id);
      SendInv(sys.links[id], ss[id], budgets[id], a);
    case HungUp(id, a) =>
      assert SlotOk(sys, ss, budgets, id);
      CoreClosable(sys.links[id], ss[id]);
      FailInv(sys.links[id], ss[id], budgets[id], a);
    case Clock(t) =>
    case Pass(answers) => PassArmed(sys, ss, budgets, answers);
  }

  // No lost wake-up: as long as epoll_ctl has not failed, every live connection will hear of what it waits for.
  lemma {:induction false} NoLostWakeup(sys: Sys, ss: seq<Settings>, budgets: seq<nat>, run: seq<Event>, i: nat)
    requires SysInv(sys, ss, budgets) && AllArmed(sys) && Legal(sys, ss, run) && i < |ss|
    requires forall k :: 0 <= k < |run| ==> CtlWorks(run[k])
    ensures var r := Run(sys, ss, run);
      && i < |r.links|
      && var l := r.links[i];
      && (l.c.state == Closed || l.net.open)
      && (l.c.state in {Connecting, Sending} ==> l.c.readyWrite && l.net.interest == ForWrite)
      && (l.c.state == Recving ==> l.c.readyRead && l.net.interest == ForRead)
      && (l.c.state == Idle ==> Has(r.timers, i))
      && !(l.c.readyRead && l.c.readyWrite)
    decreases |run|
  {
    if run != [] {
      StepInv(sys, ss, budgets, run[0]);
      StepArmed(sys, ss, budgets, run[0]);
      NoLostWakeup(Step(sys, ss, run[0]), ss, budgets, run[1..], i);
    } else {
      assert SlotOk(sys, ss, budgets, i);
    }
  }

  lemma BootArmed(ss: seq<Settings>, budgets: seq<nat>, base: nat, answers: seq<Answers>)
    requires |ss| == |budgets| == |answers| && forall i :: 0 <= i < |ss| ==> ss[i].Valid()
    ensures AllArmed(Boot(ss, budgets, base, answers))
  {
  }

  lemma {:induction false} PassKeepsClosed(sys: Sys, ss: seq<Settings>, answers: seq<Answers>, i: nat)
    requires i < |sys.links| && sys.links[i].c.state == Closed
    ensures i < |PassLoop(sys, ss, answers).0.links| && PassLoop(sys, ss, answers).0.links[i] == sys.links[i]
    decreases |sys.timers.entries|
  {
    var q := sys.timers.entries;
    if q != [] && q[0].due <= sys.now && WellFormed(sys, ss) {
      PassKeepsClosed(Fired(sys, ss, answers), ss, if answers == [] then [] else answers[1..], i);
    }
  }

  // Once the main loop is running, a connection found closed stays exactly as it is for good.
  lemma {:induction false} ClosedForGood(sys: Sys, ss: seq<Settings>, budgets: seq<nat>, run: seq<Event>, i: nat)
    requires SysInv(sys, ss, budgets) && Legal(sys, ss, run) && i < |ss| && sys.links[i].c.state == Closed
    ensures i < |Run(sys, ss, run).links| && Run(sys, ss, run).links[i] == sys.links[i]
    decreases |run|
  {
    if run != [] {
      StepInv(sys, ss, budgets, run[0]);
      assert SlotOk(sys, ss, budgets, i);
      if run[0].Pass? { PassKeepsClosed(sys, ss, run[0].answers, i); }
      ClosedForGood(Step(sys, ss, run[0]), ss, budgets, run[1..], i);
    }
  }

  lemma {:induction false} PassTouches(sys: Sys, ss: seq<Settings>, answers: seq<Answers>, i: nat)
    requires i < |sys.links| && i !in PassLoop(sys, ss, answers).1
    ensures i < |PassLoop(sys, ss, answers).0.links| && PassLoop(sys, ss, answers).0.links[i] == sys.links[i]
    decreases |sys.timers.entries|
  {
    var q := sys.timers.entries;
    if q != [] && q[0].due <= sys.now && WellFormed(sys, ss) {
      PassTouches(Fired(sys, ss, answers), ss, if answers == [] then [] else answers[1..], i);
    }
  }

  // Going to sleep for ms sets a timer at exactly now + ms if none was armed, and within the lazy delay of it
  // otherwise.
  lemma SleepIsSet(sys: Sys, ss: seq<Settings>, budgets: seq<nat>, i: nat, a: Answers)
    requires SysInv(sys, ss, budgets) && Enabled(sys, Readable(i, a)) && WellFormed(sys, ss)
    requires sys.links[i].c.state != Idle && HandleRead(sys.links[i], ss[i], a).link.c.state == Idle
    ensures var t := Step(sys, ss, Readable(i, a));
      && t.naps[i].at == sys.now && 0 < ss[i].sleepMin <= t.naps[i].ms <= ss[i].sleepMax
      && Asleep(t, i)
      && (!Has(sys.timers, i) ==> DueOf(t.timers, i) == sys.now + t.naps[i].ms)
  {
    assert SlotOk(sys, ss, budgets, i);
    ReadInv(sys.links[i], ss[i], budgets[i], a);
    SleepSettled(sys, i, HandleRead(sys.links[i], ss[i], a));
  }

  lemma SleepSettled(sys: Sys, i: nat, r: Outcome)
    requires i < |sys.links| == |sys.naps| && Sorted(sys.timers) && r.nap.Some?
    ensures var t := Settle(sys, i, r);
      && t.links[i] == r.link && t.naps[i] == Nap(sys.now, r.nap.value) && Asleep(t, i)
      && (!Has(sys.timers, i) ==> DueOf(t.timers, i) == sys.now + r.nap.value)
  {
    SettleNap(sys, i, r);
    RearmMeetsAs(sys.timers, i, sys.now + r.nap.value, Settle(sys, i, r).timers);
  }

  // A sleeping connection is woken only by its timer, less than the lazy delay early at most, or by a hang-up;
  // until then its nap is on record unchanged.
  lemma NotWokenEarly(sys: Sys, ss: seq<Settings>, budgets: seq<nat>, e: Event, i: nat)
    requires SysInv(sys, ss, budgets) && Enabled(sys, e) && WellFormed(sys, ss)
    requires i < |ss| && sys.links[i].c.state == Idle
    ensures SysInv(Step(sys, ss, e), ss, budgets)
    ensures var t := Step(sys, ss, e);
      && t.naps[i] == sys.naps[i]
      && (t.links[i] == sys.links[i]
          || (e.HungUp? && e.id == i)
          || (e.Pass? && sys.now >= sys.naps[i].at + sys.naps[i].ms - 299))
  {
    StepInv(sys, ss, budgets, e);
    assert SlotOk(sys, ss, budgets, i);
    if e.Pass? {
      PassNaps(sys, ss, e.answers);
      PassSplits(sys, ss, budgets, e.answers);
      if i in PassLoop(sys, ss, e.answers).1 {
        var x: Entry :| x in sys.timers.entries && x.id == i && x.due <= sys.now;
        HasEntry(sys.timers, x);
      } else {
        PassTouches(sys, ss, e.answers, i);
      }
    }
  }

  // Every event of the run leaves connection i to its timer: it is not hung up, and no expiry pass happens from until
  // on.
  ghost predicate Undisturbed(sys: Sys, ss: seq<Settings>, run: seq<Event>, i: nat, until: int)
    requires Legal(sys, ss, run)
    decreases |run|
  {
    run == [] ||
    (!(run[0].HungUp? && run[0].id == i) && (run[0].Pass? ==> sys.now < until)
     && Undisturbed(Step(sys, ss, run[0]), ss, run[1..], i, until))
  }

  lemma {:induction false} SleepsOn(sys: Sys, ss: seq<Settings>, budgets: seq<nat>, run: seq<Event>, i: nat, until: int)
    requires SysInv(sys, ss, budgets) && Legal(sys, ss, run) && i < |ss| && sys.links[i].c.state == Idle
    requires Undisturbed(sys, ss, run, i, until) && until <= sys.naps[i].at + sys.naps[i].ms - 299
    ensures i < |Run(sys, ss, run).links| && Run(sys, ss, run).links[i] == sys.links[i]
    decreases |run|
  {
    if run != [] {
      NotWokenEarly(sys, ss, budgets, run[0], i);
      SleepsOn(Step(sys, ss, run[0]), ss, budgets, run[1..], i, until);
    }
  }

  // From going idle at a time T for s, whatever happens short of a hang-up and of an expiry pass at T + s - 299 or
  // later leaves the connection exactly as it went to sleep.
  lemma SleepIsKept(sys: Sys, ss: seq<Settings>, budgets: seq<nat>, i: nat, a: Answers, t: Sys, run: seq<Event>,
                    until: int)
    requires SysInv(sys, ss, budgets) && Enabled(sys, Readable(i, a)) && WellFormed(sys, ss)
    requires sys.links[i].c.state != Idle && HandleRead(sys.links[i], ss[i], a).link.c.state == Idle
    requires t == Step(sys, ss, Readable(i, a))
    requires until == sys.now + t.naps[i].ms - 299 && Legal(t, ss, run) && Undisturbed(t, ss, run, i, until)
    ensures ss[i].sleepMin <= t.naps[i].ms <= ss[i].sleepMax
    ensures i < |Run(t, ss, run).links| && Run(t, ss, run).links[i] == t.links[i]
  {
    FallsAsleep(sys, ss, budgets, i, a, t);
    SleepsOn(t, ss, budgets, run, i, until);
  }

  lemma FallsAsleep(sys: Sys, ss: seq<Settings>, budgets: seq<nat>, i: nat, a: Answers, t: Sys)
    requires SysInv(sys, ss, budgets) && Enabled(sys, Readable(i, a)) && WellFormed(sys, ss)
    requires sys.links[i].c.state != Idle && HandleRead(sys.links[i], ss[i], a).link.c.state == Idle
    requires t == Step(sys, ss, Readable(i, a))
    ensures SysInv(t, ss, budgets) && t.naps[i].at == sys.now && ss[i].sleepMin <= t.naps[i].ms <= ss[i].sleepMax
  {
    StepInv(sys, ss, budgets, Readable(i, a));
    SleepIsSet(sys, ss, budgets, i, a);
  }

  lemma {:induction false} PassNaps(sys: Sys, ss: seq<Settings>, answers: seq<Answers>)
    ensures PassLoop(sys, ss, answers).0.naps == sys.naps
    decreases |sys.timers.entries|
  {
    var q := sys.timers.entries;
    if q != [] && q[0].due <= sys.now && WellFormed(sys, ss) {
      PassNaps(Fired(sys, ss, answers), ss, if answers == [] then [] else answers[1..]);
    }
  }

  ghost predicate AllTrusted(sys: Sys) {
    forall i :: 0 <= i < |sys.links| ==> !sys.links[i].net.refused
  }

  lemma {:induction false} PassTrusted(sys: Sys, ss: seq<Settings>, budgets: seq<nat>, answers: seq<Answers>)
    requires SysInv(sys, ss, budgets) && AllTrusted(sys) && CtlWorks(Pass(answers))
    ensures AllTrusted(PassLoop(sys, ss, answers).0)
    decreases |sys.timers.entries|
  {
    InvIsWellFormed(sys, ss, budgets);
    var q := sys.timers.entries;
    if q != [] && q[0].due <= sys.now {
      FireInv(sys, ss, budgets, answers);
      assert SlotOk(sys, ss, budgets, q[0].id);
      SendTrusted(sys.links[q[0].id], ss[q[0].id], if answers == [] then QUIET else answers[0]);
      PassTrusted(Fired(sys, ss, answers), ss, budgets, if answers == [] then [] else answers[1..]);
    }
  }

  lemma StepTrusted(sys: Sys, ss: seq<Settings>, budgets: seq<nat>, e: Event)
    requires SysInv(sys, ss, budgets) && Enabled(sys, e) && WellFormed(sys, ss) && AllTrusted(sys) && CtlWorks(e)
    ensures AllTrusted(Step(sys, ss, e))
  {
    match e
    case Readable(id, a) =>
      assert SlotOk(sys, ss, budgets, id);
      ReadTrusted(sys.links[id], ss[id], a);
    case Writable(id, a) =>
      assert SlotOk(sys, ss, budgets, id);
      SendTrusted(sys.links[id], ss[id], a);
    case HungUp(id, a) =>
      assert SlotOk(sys, ss, budgets, id);
      FailTrusted(sys.links[id], ss[id], a);
    case Clock(t) =>
    case Pass(answers) => PassTrusted(sys, ss, budgets, answers);
  }

  lemma {:induction false} RunTrusted(sys: Sys, ss: seq<Settings>, budgets: seq<nat>, run: seq<Event>)
    requires SysInv(sys, ss, budgets) && AllTrusted(sys) && Legal(sys, ss, run)
    requires forall k :: 0 <= k < |run| ==> CtlWorks(run[k])
    ensures SysInv(Run(sys, ss, run), ss, budgets) && AllTrusted(Run(sys, ss, run))
    decreases |run|
  {
    if run != [] {
      StepInv(sys, ss, budgets, run[0]);
      StepTrusted(sys, ss, budgets, run[0]);
      RunTrusted(Step(sys, ss, run[0]), ss, budgets, run[1..]);
    }
  }

  // If epoll_ctl works from start-up on, a closed connection has descriptor -1.
  lemma NoStaleFd(ss: seq<Settings>, budgets: seq<nat>, base: nat, answers: seq<Answers>, run: seq<Event>, i: nat)
    requires |ss| == |budgets| == |answers| && (forall k :: 0 <= k < |ss| ==> ss[k].Valid()) && i < |ss|
    requires forall k :: 0 <= k < |answers| ==> answers[k].ctl
    requires Legal(Boot(ss, budgets, base, answers), ss, run) && forall k :: 0 <= k < |run| ==> CtlWorks(run[k])
    ensures var r := Run(Boot(ss, budgets, base, answers), ss, run);
      i < |r.links| && (r.links[i].c.state == Closed ==> r.links[i].c.fd == -1)
  {
    BootInv(ss, budgets, base, answers);
    RunTrusted(Boot(ss, budgets, base, answers), ss, budgets, run);
    assert SlotOk(Run(Boot(ss, budgets, base, answers), ss, run), ss, budgets, i);
  }

  // What one event does to the connection it is for.
  ghost predicate Affects(l: Link, r: Link, s: Settings, e: Event)
    requires s.Valid()
  {
    match e
    case Writable(_, a) => if l.c.state in {Connecting, Idle, Sending} then Sends(l, r, s, a) else r == l
    case HungUp(_, a) => GivenUp(l, r, s, a) && r.net.past[|l.net.past|] == l.net.sock && r.net.started == l.net.started
    case Readable(_, a) =>
      if l.c.state != Recving then r == l
      else
        && l.net.sock.mark <= |l.net.sock.given| && |UnderWay(l.net.sock)| < 4
        && exists nap :: Reads(l, Outcome(r, nap), s, a, Gathered(a.gave, UnderWay(l.net.sock), s.readMax),
                               EndsAs(a.gave, UnderWay(l.net.sock), s.readMax))
    case Clock(_) => r == l
    case Pass(_) => true
  }

  lemma WritableMeets(sys: Sys, ss: seq<Settings>, budgets: seq<nat>, id: nat, a: Answers)
    requires SysInv(sys, ss, budgets) && WellFormed(sys, ss) && Enabled(sys, Writable(id, a))
    ensures var t := Step(sys, ss, Writable(id, a));
      t == sys.(links := sys.links[id := t.links[id]]) && Affects(sys.links[id], t.links[id], ss[id], Writable(id, a))
  {
    assert SlotOk(sys, ss, budgets, id);
    SendMeets(sys.links[id], ss[id], budgets[id], a);
  }

  lemma HungUpMeets(sys: Sys, ss: seq<Settings>, budgets: seq<nat>, id: nat, a: Answers)
    requires SysInv(sys, ss, budgets) && WellFormed(sys, ss) && Enabled(sys, HungUp(id, a))
    ensures var t := Step(sys, ss, HungUp(id, a));
      t == sys.(links := sys.links[id := t.links[id]]) && Affects(sys.links[id], t.links[id], ss[id], HungUp(id, a))
  {
    assert SlotOk(sys, ss, budgets, id);
    HangUpMeets(sys.links[id], ss[id], budgets[id], a);
  }

  lemma ReadableMeets(sys: Sys, ss: seq<Settings>, budgets: seq<nat>, id: nat, a: Answers)
    requires SysInv(sys, ss, budgets) && WellFormed(sys, ss) && Enabled(sys, Readable(id, a))
    ensures var t := Step(sys, ss, Readable(id, a));
      && t == sys.(links := sys.links[id := t.links[id]], naps := t.naps, timers := t.timers)
      && (sys.links[id].c.state == Idle || t.links[id].c.state != Idle ==> t.timers == sys.timers && t.naps == sys.naps)
      && Affects(sys.links[id], t.links[id], ss[id], Readable(id, a))
  {
    assert SlotOk(sys, ss, budgets, id);
    var l := sys.links[id];
    ReadInv(l, ss[id], budgets[id], a);
    ReadMeets(l, ss[id], budgets[id], a);
    var r := HandleRead(l, ss[id], a);
    assert r == Outcome(r.link, r.nap);
  }

  // Every event does to its own connection what it should, and nothing to any other; only going to sleep touches the
  // timers, and only the clock and expiry passes move the time.
  lemma StepMeets(sys: Sys, ss: seq<Settings>, budgets: seq<nat>, e: Event, i: nat)
    requires SysInv(sys, ss, budgets) && Enabled(sys, e) && i < |ss|
    ensures WellFormed(sys, ss) && ss[i].Valid() && |Step(sys, ss, e).links| == |ss|
    ensures var t := Step(sys, ss, e);
      match e
      case Readable(id, _) =>
        && t.now == sys.now
        && (if i == id then Affects(sys.links[i], t.links[i], ss[i], e) else t.links[i] == sys.links[i])
        && (sys.links[id].c.state == Idle || t.links[id].c.state != Idle ==> t.timers == sys.timers)
      case Writable(id, _) =>
        && t.now == sys.now && t.timers == sys.timers
        && (if i == id then Affects(sys.links[i], t.links[i], ss[i], e) else t.links[i] == sys.links[i])
      case HungUp(id, _) =>
        && t.now == sys.now && t.timers == sys.timers
        && (if i == id then Affects(sys.links[i], t.links[i], ss[i], e) else t.links[i] == sys.links[i])
      case Clock(now) => t.now == now && t.links == sys.links && t.timers == sys.timers
      case Pass(_) => t.now == t.since == sys.now
  {
    InvIsWellFormed(sys, ss, budgets);
    StepInv(sys, ss, budgets, e);
    match e
    case Readable(id, a) => ReadableMeets(sys, ss, budgets, id, a);
    case Writable(id, a) => WritableMeets(sys, ss, budgets, id, a);
    case HungUp(id, a) => HungUpMeets(sys, ss, budgets, id, a);
    case Clock(now) =>
    case Pass(answers) => PassInv(sys, ss, budgets, answers);
  }

  // What a timer firing does to its connection.
  ghost predicate Woken(l: Link, r: Link, s: Settings, a: Answers) {
    if l.c.state == Idle then Sends(l, r, s, a) else r == l
  }

  lemma FiredMeets(sys: Sys, ss: seq<Settings>, budgets: seq<nat>, answers: seq<Answers>, i: nat)
    requires SysInv(sys, ss, budgets) && WellFormed(sys, ss) && sys.timers.entries != [] && i < |ss|
    ensures var r := Fired(sys, ss, answers).links[i];
      if i == sys.timers.entries[0].id then
        Woken(sys.links[i], r, ss[i], if answers == [] then QUIET else answers[0])
      else r == sys.links[i]
  {
    assert SlotOk(sys, ss, budgets, i);
    TimerMeets(sys.links[i], ss[i], budgets[i], if answers == [] then QUIET else answers[0]);
  }

  lemma NotTwice(fired: seq<nat>, rest: seq<nat>, i: nat)
    requires fired == [i] + rest && forall j, k :: 0 <= j < k < |fired| ==> fired[j] != fired[k]
    ensures i !in rest
  {
    forall j | 0 <= j < |rest| ensures rest[j] != i {
      assert fired[0] != fired[j + 1];
    }
  }

  // In an expiry pass the k-th connection fired hears of its timer, with the k-th of the kernel's answers; the others
  // are left alone.
  lemma {:induction false} PassWakes(sys: Sys, ss: seq<Settings>, budgets: seq<nat>, answers: seq<Answers>, i: nat,
                                     k: nat)
    requires SysInv(sys, ss, budgets) && i < |ss|
    ensures var (t, fired) := PassLoop(sys, ss, answers);
      && i < |sys.links| && i < |t.links|
      && (i !in fired ==> t.links[i] == sys.links[i])
      && (k < |fired| && fired[k] == i ==>
            Woken(sys.links[i], t.links[i], ss[i], if k < |answers| then answers[k] else QUIET))
    decreases |sys.timers.entries|
  {
    InvIsWellFormed(sys, ss, budgets);
    var q := sys.timers.entries;
    var fired := PassLoop(sys, ss, answers).1;
    if i !in fired {
      PassTouches(sys, ss, answers, i);
    } else if q != [] && q[0].due <= sys.now {
      FireInv(sys, ss, budgets, answers);
      FiredMeets(sys, ss, budgets, answers, i);
      PassSplits(sys, ss, budgets, answers);
      var next, rest := Fired(sys, ss, answers), if answers == [] then [] else answers[1..];
      assert fired == [q[0].id] + PassLoop(next, ss, rest).1;
      if q[0].id == i {
        NotTwice(fired, PassLoop(next, ss, rest).1, i);
        PassTouches(next, ss, rest, i);
      } else if k > 0 {
        PassWakes(next, ss, budgets, rest, i, k - 1);
      } else {
        PassWakes(next, ss, budgets, rest, i, 0);
      }
    }
  }
}
