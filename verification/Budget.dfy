/** How many requests a budget really allows, and when all of them can be started. */
module Budgets {
  import opened NetUtil
  import opened TimerModel
  import opened ConnModel
  import opened Reassembly
  import opened ConnInvariants
  import opened SystemModel
  import opened Properties

  function Longest(records: seq<seq<Byte>>): (n: nat)
    ensures forall i :: 0 <= i < |records| ==> |records[i]| <= n
  {
    if records == [] then 0
    else
      var n := Longest(records[1..]);
      assert forall i :: 1 <= i < |records| ==> records[i] == records[1..][i - 1];
      if n < |records[0]| then |records[0]| else n
  }

  // A kernel that takes and gives all at once, with the shortest possible response.
  function Smooth(s: Settings): Answers {
    Answers(0, Accepted(Longest(s.records)), [Chunk([0, 0, 0, 5]), Chunk([0])], true, Dialled(3), 0)
  }

  // A kernel on which every send fails and every dial works.
  const BREAKING := Answers(0, Broken, [], true, Dialled(3), 0)

  lemma SmoothSend(l: Link, s: Settings)
    requires s.Valid() && l.c.state in {Connecting, Idle} && l.c.testDataIndex < |s.records|
    requires l.net.open && l.c.active && l.net.interest != Unwatched && (l.c.readyRead ==> l.net.interest == ForRead)
    ensures var r := HandleSend(l, s, Smooth(s));
      && r.c.state == Recving && r.c.readLen == -4 && r.net.interest == ForRead && r.c.requests == l.c.requests
      && |r.net.started| == |l.net.started| + 1
  {
  }

  lemma SmoothRead(p: Progress, s: Settings)
    requires |p.head| == 4 && s.readMax > 5
    ensures ReadLoop(p, s.readMax, Smooth(s).gave, -4, 4).1 == Whole
  {
    var gave := Smooth(s).gave;
    assert gave[0].bytes[..4] == gave[0].bytes && PutHead(p.head, 0, gave[0].bytes) == [0, 0, 0, 5];
    assert ReadInt([0, 0, 0, 5]) == 5;
    var q := Progress([0, 0, 0, 5], 5, p.given + gave[0].bytes);
    assert ReadLoop(p, s.readMax, gave, -4, 4) == ReadLoop(q, s.readMax, gave[1..], 5, 1);
  }

  // The client at a point where n more requests are allowed and the one under way will be answered.
  ghost predicate Cycling(sys: Sys, s: Settings, budget: nat, n: nat) {
    && SysInv(sys, [s], [budget]) && sys.timers.entries == [] && sys.since == sys.now
    && sys.links[0].c.state == Recving && sys.links[0].c.readLen == -4 && sys.links[0].net.interest == ForRead
    && sys.links[0].c.requests == n
  }

  // Reading a whole response: the next request follows at once, or after a sleep.
  lemma AnsweredLink(l: Link, s: Settings, budget: nat)
    requires s.Valid() && s.readMax > 5 && Inv(l, s, budget) && l.c.requests > 0
    requires l.c.state == Recving && l.c.readLen == -4 && l.net.interest == ForRead
    ensures ReadReady(l.c)
    ensures var r := HandleRead(l, s, Smooth(s));
      && r.link.c.requests == l.c.requests - 1 && r.link.net.interest == ForRead && r.link.net.open && r.link.c.active
      && r.link.c.testDataIndex < |s.records|
      && if s.sleepMin == 0 then
           && r.nap.None? && r.link.c.state == Recving && r.link.c.readLen == -4
           && |r.link.net.started| == |l.net.started| + 1
         else
           && r.nap.Some? && r.nap.value < WORD32 && r.link.c.state == Idle && r.link.net.started == l.net.started
  {
    SmoothRead(ProgressOf(l), s);
    var (p, ending) := ReadLoop(ProgressOf(l), s.readMax, Smooth(s).gave, l.c.readLen, ReadSize(l.c));
    var m := Reached(l, p);
    var sock := m.net.sock.(completed := m.net.sock.completed + 1, mark := |m.net.sock.given|);
    var answered := Link(m.c.(state := Recved), m.net.(sock := sock));
    var spent := answered.(c := answered.c.(state := Idle, requests := Decremented(answered.c.requests)));
    SmoothSend(spent, s);
  }

  lemma CycleAtOnce(sys: Sys, s: Settings, budget: nat, n: nat) returns (run: seq<Event>, next: Sys)
    requires Cycling(sys, s, budget, n) && n > 0 && s.readMax > 5 && s.sleepMin == 0
    ensures Leads(sys, [s], run, next) && Cycling(next, s, budget, n - 1)
    ensures |next.links[0].net.started| == |sys.links[0].net.started| + 1
  {
    var e := Readable(0, Smooth(s));
    assert SlotOk(sys, [s], [budget], 0);
    AnsweredLink(sys.links[0], s, budget);
    StepInv(sys, [s], [budget], e);
    LeadsBy(sys, [s], [], sys, e);
    run, next := [] + [e], Step(sys, [s], e);
  }

  // One timer, alone in the queue, fires.
  lemma LonePass(sys: Sys, s: Settings)
    requires WellFormed(sys, [s]) && |sys.timers.entries| == 1 && sys.timers.entries[0].due <= sys.now
    requires sys.links[0].c.state == Idle
    ensures var t := Step(sys, [s], Pass([Smooth(s)]));
      && |t.links| == 1 && t.links[0] == HandleSend(sys.links[0], s, Smooth(s))
      && t.timers.entries == [] && t.now == t.since == sys.now
  {
    var fired := Fired(sys, [s], [Smooth(s)]);
    assert sys.timers.entries[0].id == 0 && [Smooth(s)][1..] == [];
    assert PassLoop(fired, [s], []) == (fired, []);
    assert PassLoop(sys, [s], [Smooth(s)]).0 == fired;
  }

  // The sleep, begun at sys by reading a whole response.
  lemma Naps(sys: Sys, s: Settings, budget: nat, n: nat) returns (t: Sys, ms: nat)
    requires Cycling(sys, s, budget, n) && n > 0 && s.readMax > 5 && s.sleepMin > 0
    ensures Leads(sys, [s], [Readable(0, Smooth(s))], t) && SysInv(t, [s], [budget]) && WellFormed(t, [s])
    ensures t.links[0].c.state == Idle && t.links[0].net.started == sys.links[0].net.started
    ensures t.links[0].c.requests == n - 1 && t.links[0].net.interest == ForRead
    ensures ms < WORD32 && |t.timers.entries| == 1 && t.timers.entries[0].due == sys.now + ms
    ensures t.now == t.since == sys.now
  {
    var e := Readable(0, Smooth(s));
    assert SlotOk(sys, [s], [budget], 0);
    AnsweredLink(sys.links[0], s, budget);
    StepInv(sys, [s], [budget], e);
    LeadsBy(sys, [s], [], sys, e);
    assert [] + [e] == [e];
    t := Step(sys, [s], e);
    ms := HandleRead(sys.links[0], s, Smooth(s)).nap.value;
    AddAlone(sys.timers, 0, sys.now + ms);
    StepInvWell(t, s, budget);
  }

  lemma StepInvWell(t: Sys, s: Settings, budget: nat)
    requires SysInv(t, [s], [budget])
    ensures WellFormed(t, [s])
  {
    InvIsWellFormed(t, [s], [budget]);
  }

  lemma AddAlone(t: Timers, id: nat, due: int)
    requires t.entries == []
    ensures Rearm(t, id, due).entries == [Entry(id, due, t.next)]
  {
  }

  lemma CycleAsleep(sys: Sys, s: Settings, budget: nat, n: nat) returns (run: seq<Event>, next: Sys)
    requires Cycling(sys, s, budget, n) && n > 0 && s.readMax > 5 && s.sleepMin > 0
    ensures Leads(sys, [s], run, next) && Cycling(next, s, budget, n - 1)
    ensures |next.links[0].net.started| == |sys.links[0].net.started| + 1
  {
    var t, ms := Naps(sys, s, budget, n);
    var tick, pass := Clock(sys.now + ms), Pass([Smooth(s)]);
    StepInv(t, [s], [budget], tick);
    LeadsBy(sys, [s], [Readable(0, Smooth(s))], t, tick);
    var u := Step(t, [s], tick);
    StepInv(u, [s], [budget], pass);
    LeadsBy(sys, [s], [Readable(0, Smooth(s))] + [tick], u, pass);
    assert SlotOk(u, [s], [budget], 0);
    LonePass(u, s);
    SmoothSend(u.links[0], s);
    run, next := [Readable(0, Smooth(s))] + [tick] + [pass], Step(u, [s], pass);
  }

  lemma {:induction false} CyclesOn(sys: Sys, s: Settings, budget: nat, n: nat) returns (run: seq<Event>, next: Sys)
    requires Cycling(sys, s, budget, n) && s.readMax > 5
    ensures Leads(sys, [s], run, next) && |next.links| == 1
    ensures |next.links[0].net.started| == |sys.links[0].net.started| + n
    decreases n
  {
    run, next := [], sys;
    if n > 0 {
      var one, mid;
      if s.sleepMin == 0 { one, mid := CycleAtOnce(sys, s, budget, n); }
      else { one, mid := CycleAsleep(sys, s, budget, n); }
      var more;
      more, next := CyclesOn(mid, s, budget, n - 1);
      LeadsOn(sys, [s], one, mid, more, next);
      run := one + more;
    }
  }

  // The client about to start a request, with n more allowed.
  ghost predicate Starting(sys: Sys, s: Settings, budget: nat, n: nat) {
    && SysInv(sys, [s], [budget]) && sys.timers.entries == [] && sys.since == sys.now
    && sys.links[0].c.state == Connecting && sys.links[0].c.requests == n
  }

  lemma BrokenLink(l: Link, s: Settings, budget: nat)
    requires s.Valid() && s.retry && Inv(l, s, budget) && l.c.state == Connecting
    ensures var r := HandleSend(l, s, BREAKING);
      && |r.net.started| == |l.net.started| + 1
      && (l.c.requests > 0 ==> r.c.state == Connecting && r.c.requests == l.c.requests - 1)
  {
  }

  lemma {:induction false} RetriesOn(sys: Sys, s: Settings, budget: nat, n: nat) returns (run: seq<Event>, next: Sys)
    requires Starting(sys, s, budget, n) && s.retry && sys.links[0].net.interest == ForWrite
    ensures Leads(sys, [s], run, next) && |next.links| == 1
    ensures |next.links[0].net.started| == |sys.links[0].net.started| + n + 1
    decreases n
  {
    var e := Writable(0, BREAKING);
    assert SlotOk(sys, [s], [budget], 0);
    BrokenLink(sys.links[0], s, budget);
    SendInv(sys.links[0], s, budget, BREAKING);
    StepInv(sys, [s], [budget], e);
    LeadsBy(sys, [s], [], sys, e);
    assert [] + [e] == [e];
    run, next := [e], Step(sys, [s], e);
    if n > 0 {
      assert SlotOk(next, [s], [budget], 0);
      var mid, more := next, [];
      more, next := RetriesOn(mid, s, budget, n - 1);
      LeadsOn(sys, [s], [e], mid, more, next);
      run := [e] + more;
    }
  }

  // Dialled and sent: the first response is awaited.
  lemma SmoothStart(s: Settings, budget: nat, base: nat) returns (boot: Sys, sys: Sys)
    requires s.Valid()
    ensures boot == Boot([s], [budget], base, [Smooth(s)]) && Leads(boot, [s], [Writable(0, Smooth(s))], sys)
    ensures SysInv(sys, [s], [budget]) && sys.timers.entries == [] && sys.since == sys.now
    ensures var l := sys.links[0];
      && l.c.state == Recving && l.c.readLen == -4 && l.net.interest == ForRead && l.c.requests == budget
      && l.c.readStart == base && |l.net.started| == 1
  {
    var e := Writable(0, Smooth(s));
    boot := Boot([s], [budget], base, [Smooth(s)]);
    BootInv([s], [budget], base, [Smooth(s)]);
    assert SlotOk(boot, [s], [budget], 0);
    StepInv(boot, [s], [budget], e);
    LeadsBy(boot, [s], [], boot, e);
    assert [] + [e] == [e];
    SmoothSend(boot.links[0], s);
    sys := Step(boot, [s], e);
  }

  // A budget of R requests can be overdrawn by one.
  ghost predicate FullyUsed(s: Settings, budget: nat) {
    exists sys :: Reachable(sys, [s], [budget]) && |sys.links| == 1 && |sys.links[0].net.started| == budget + 1
  }

  lemma Overdrawn(s: Settings, budget: nat, base: nat, answers: seq<Answers>, run: seq<Event>, sys: Sys)
    requires s.Valid() && 0 < base && |answers| == 1 && Leads(Boot([s], [budget], base, answers), [s], run, sys)
    requires |sys.links| == 1 && |sys.links[0].net.started| == budget + 1
    ensures FullyUsed(s, budget)
  {
    assert sys == Run(Boot([s], [budget], base, answers), [s], run);
    assert Reachable(sys, [s], [budget]);
  }

  lemma BudgetIsReached(s: Settings, budget: nat)
    requires s.Valid() && (budget == 0 || s.retry || s.readMax > 5)
    ensures FullyUsed(s, budget)
  {
    var a := Smooth(s);
    var base := 0x1000;
    var boot := Boot([s], [budget], base, [a]);
    if s.retry {
      BootInv([s], [budget], base, [a]);
      assert SlotOk(boot, [s], [budget], 0);
      var run, sys := RetriesOn(boot, s, budget, budget);
      Overdrawn(s, budget, base, [a], run, sys);
    } else {
      var start, mid := SmoothStart(s, budget, base);
      var e := Writable(0, a);
      if budget == 0 {
        Overdrawn(s, budget, base, [a], [e], mid);
      } else {
        var more, sys := CyclesOn(mid, s, budget, budget);
        LeadsOn(boot, [s], [e], mid, more, sys);
        Overdrawn(s, budget, base, [a], [e] + more, sys);
      }
    }
  }

  // Without retries, and with no response acceptable, the first request is the last.
  ghost predicate Stunted(l: Link) {
    |l.net.started| <= 1 && l.c.state != Idle && (l.c.state == Connecting ==> l.net.started == [])
  }

  ghost predicate AllStunted(sys: Sys) {
    forall i :: 0 <= i < |sys.links| ==> Stunted(sys.links[i])
  }

  lemma SendStunted(l: Link, s: Settings, a: Answers)
    requires s.Valid() && SendReady(l.c, s) && !s.retry && Stunted(l)
    ensures Stunted(HandleSend(l, s, a))
  {
  }

  lemma ReadStunted(l: Link, s: Settings, budget: nat, a: Answers)
    requires s.Valid() && Inv(l, s, budget) && !s.retry && s.readMax <= 5 && Stunted(l)
    requires l.net.interest == ForRead && !BodyCut(l.c)
    ensures ReadReady(l.c) && SendReady(l.c, s) && Stunted(HandleRead(l, s, a).link)
  {
    if l.c.state == Recving {
      ReadTakes(l, s, budget, a.gave);
      assert ReadLoop(ProgressOf(l), s.readMax, a.gave, l.c.readLen, ReadSize(l.c)).1 != Whole;
    }
  }

  lemma PassStunted(sys: Sys, ss: seq<Settings>, answers: seq<Answers>)
    requires WellFormed(sys, ss) && AllStunted(sys) && sys.timers.entries == []
    ensures PassLoop(sys, ss, answers).0 == sys
  {
  }

  lemma StepStunted(sys: Sys, s: Settings, budget: nat, e: Event)
    requires SysInv(sys, [s], [budget]) && WellFormed(sys, [s]) && Enabled(sys, e) && !s.retry && s.readMax <= 5
    requires AllStunted(sys) && sys.timers.entries == []
    ensures AllStunted(Step(sys, [s], e)) && Step(sys, [s], e).timers.entries == []
  {
    assert SlotOk(sys, [s], [budget], 0);
    match e
    case Readable(id, a) =>
      ReadInv(sys.links[0], s, budget, a);
      ReadStunted(sys.links[0], s, budget, a);
    case Writable(id, a) => SendStunted(sys.links[0], s, a);
    case HungUp(id, a) =>
    case Clock(t) =>
    case Pass(answers) => PassStunted(sys, [s], answers);
  }

  lemma {:induction false} RunStunted(sys: Sys, s: Settings, budget: nat, run: seq<Event>)
    requires SysInv(sys, [s], [budget]) && Legal(sys, [s], run) && !s.retry && s.readMax <= 5
    requires AllStunted(sys) && sys.timers.entries == []
    ensures AllStunted(Run(sys, [s], run))
    decreases |run|
  {
    if run != [] {
      StepInv(sys, [s], [budget], run[0]);
      StepStunted(sys, s, budget, run[0]);
      RunStunted(Step(sys, [s], run[0]), s, budget, run[1..]);
    }
  }

  lemma BudgetIsMissed(s: Settings, budget: nat, sys: Sys)
    requires s.Valid() && budget > 0 && !s.retry && s.readMax <= 5 && Reachable(sys, [s], [budget]) && |sys.links| == 1
    ensures |sys.links[0].net.started| < budget + 1
  {
    var base: nat, answers, run :|
      && 0 < base && |[s]| == |[budget]| == |answers|
      && Legal(Boot([s], [budget], base, answers), [s], run)
      && sys == Run(Boot([s], [budget], base, answers), [s], run);
    BootInv([s], [budget], base, answers);
    RunStunted(Boot([s], [budget], base, answers), s, budget, run);
    assert Stunted(sys.links[0]);
  }

  // All R + 1 requests of a budget of R can be started exactly if R is 0, or retries are allowed, or the shortest
  // response is acceptable.
  lemma BudgetExactly(s: Settings, budget: nat)
    requires s.Valid()
    ensures FullyUsed(s, budget) <==> budget == 0 || s.retry || s.readMax > 5
  {
    if budget == 0 || s.retry || s.readMax > 5 {
      BudgetIsReached(s, budget);
    } else {
      forall sys | Reachable(sys, [s], [budget]) && |sys.links| == 1
        ensures |sys.links[0].net.started| != budget + 1
      {
        BudgetIsMissed(s, budget, sys);
      }
    }
  }

  // A connection whose one response has been cut right after its head, which announced 5 bytes.
  ghost predicate Cut(sys: Sys, base: nat) {
    && |sys.links| == 1 && sys.links[0].c.readStart == base && BodyCut(sys.links[0].c)
    && sys.links[0].c.readLen == 5 && sys.links[0].c.head == [0, 0, 0, 5]
  }

  lemma CutLink(l: Link, s: Settings, a: Answers)
    requires s.Valid() && s.readMax > 5 && SendReady(l.c, s) && ReadReady(l.c) && l.c.state == Recving
    requires l.c.readLen == -4 && a.gave == [Chunk([0, 0, 0, 5]), Again]
    ensures var c := HandleRead(l, s, a).link.c;
      c.state == Recving && c.readLen == 5 && c.head == [0, 0, 0, 5] && c.readStart == l.c.readStart
  {
    CutRead(ProgressOf(l), s);
  }

  // With any settings that accept some response, a body can be cut short; and then the byte missing is never taken up.
  lemma CutIsReachable(s: Settings, budget: nat, base: nat)
    requires s.Valid() && s.readMax > 5 && 0 < base < SIZE_T / 2
    ensures exists sys :: Reachable(sys, [s], [budget]) && Cut(sys, base)
    ensures forall sys :: Cut(sys, base) ==> !ResumesRight(5, ReadSize(sys.links[0].c), 1)
  {
    var boot, sent := SmoothStart(s, budget, base);
    var e := Readable(0, Smooth(s).(gave := [Chunk([0, 0, 0, 5]), Again]));
    assert SlotOk(sent, [s], [budget], 0);
    StepInv(sent, [s], [budget], e);
    CutLink(sent.links[0], s, e.a);
    LeadsBy(boot, [s], [Writable(0, Smooth(s))], sent, e);
    var sys := Step(sent, [s], e);
    assert sys == Run(Boot([s], [budget], base, [Smooth(s)]), [s], [Writable(0, Smooth(s))] + [e]);
    assert Reachable(sys, [s], [budget]) && Cut(sys, base);
    forall sys | Cut(sys, base) ensures !ResumesRight(5, ReadSize(sys.links[0].c), 1) {
      NeverResumes(sys.links[0].c);
    }
  }

  lemma CutRead(p: Progress, s: Settings)
    requires |p.head| == 4 && s.readMax > 5
    ensures var r := ReadLoop(p, s.readMax, [Chunk([0, 0, 0, 5]), Again], -4, 4);
      r.1 == Starved && r.0.stored == 5 && r.0.head == [0, 0, 0, 5]
  {
    var gave: seq<Gave> := [Chunk([0, 0, 0, 5]), Again];
    assert gave[0].bytes[..4] == gave[0].bytes && PutHead(p.head, 0, gave[0].bytes) == [0, 0, 0, 5];
    assert ReadInt([0, 0, 0, 5]) == 5;
    var q := Progress([0, 0, 0, 5], 5, p.given + gave[0].bytes);
    assert ReadLoop(p, s.readMax, gave, -4, 4) == ReadLoop(q, s.readMax, gave[1..], 5, 1);
  }
}
