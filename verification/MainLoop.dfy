/** The main loop of test.c. */
module MainLoop {
  import opened Words
  import opened NetUtil
  import opened TimerModel
  import opened ConnModel
  import opened ConnInvariants
  import opened SystemModel
  import opened Properties
  import opened TimerQueues
  import opened Clients
  import opened Startup

  // What epoll reports of a connection.
  datatype Report = In | Out | RdHup | Other

  // One return of epoll_wait: the time it returns at, its reports, and the answers to any expiry pass.
  datatype Notice = Notice(id: nat, what: Report, a: Answers)
  datatype Round = Round(t: int, notices: seq<Notice>, answers: seq<Answers>)

  // The handler call a report stands for.
  function EventFor(n: Notice): Event {
    match n.what
    case RdHup => HungUp(n.id, n.a)
    case In => Readable(n.id, n.a)
    case Out => Writable(n.id, n.a)
    case Other => HungUp(n.id, n.a)
  }

  // The kernel watches the connection for what is reported.
  predicate Fits(links: seq<Link>, n: Notice) {
    && n.id < |links| && links[n.id].net.open && links[n.id].net.interest != Unwatched
    && (n.what.In? ==> links[n.id].net.interest == ForRead) && (n.what.Out? ==> links[n.id].net.interest == ForWrite)
  }

  // The handler call a report leads to; none if the kernel does not watch the connection for it.
  function EventOf(links: seq<Link>, n: Notice): (e: Option<Event>)
    ensures e.Some? ==> (e.value.Readable? || e.value.Writable? || e.value.HungUp?) && e.value.id == n.id < |links|
  {
    if Fits(links, n) then Some(EventFor(n)) else None
  }

  // The clock's half range outlasts any wait between two rounds, any sleep added.
  ghost predicate Timely(now: int, rounds: seq<Round>)
    decreases |rounds|
  {
    rounds == [] || (now <= rounds[0].t && rounds[0].t - now + WORD32 < HALF && Timely(rounds[0].t, rounds[1..]))
  }

  // The report asks to read on in a body that was cut short.
  predicate Resumes(links: seq<Link>, n: Notice) {
    n.what.In? && Fits(links, n) && BodyCut(links[n.id].c)
  }

  // What one report makes of the client.
  ghost function Reacted(sys: Sys, ss: seq<Settings>, n: Notice): Sys
    requires WellFormed(sys, ss) && !Resumes(sys.links, n)
  {
    var e := EventOf(sys.links, n);
    if e.None? then sys else Step(sys, ss, e.value)
  }

  // The events that reports lead to, one after the other.
  ghost function DispatchRun(sys: Sys, ss: seq<Settings>, notices: seq<Notice>): seq<Event>
    decreases |notices|
  {
    if notices == [] || !WellFormed(sys, ss) || Resumes(sys.links, notices[0]) then []
    else
      var e := EventOf(sys.links, notices[0]);
      (if e.None? then [] else [e.value]) + DispatchRun(Reacted(sys, ss, notices[0]), ss, notices[1..])
  }

  // None of the reports asks to read on in a body that was cut short.
  ghost predicate NoneResumes(sys: Sys, ss: seq<Settings>, notices: seq<Notice>)
    decreases |notices|
  {
    notices == [] || !WellFormed(sys, ss) ||
    (!Resumes(sys.links, notices[0]) && NoneResumes(Reacted(sys, ss, notices[0]), ss, notices[1..]))
  }

  ghost predicate RoundModelled(sys: Sys, ss: seq<Settings>, r: Round) {
    WellFormed(sys, ss) ==> NoneResumes(Step(sys, ss, Clock(r.t)), ss, r.notices)
  }

  // The events of one round: the clock; the reports; a pass if the clock has moved, or, with no reports, if a timer
  // was due already.
  ghost function RoundRun(sys: Sys, ss: seq<Settings>, r: Round): seq<Event> {
    if !WellFormed(sys, ss) then []
    else
      var pass := if r.t != sys.now then [Pass(r.answers)] else [];
      [Clock(r.t)] +
      if r.notices == [] then
        if sys.timers.entries == [] then []
        else if Waiting(sys.timers, sys.now) == For(0) then [Pass(r.answers)]
        else pass
      else DispatchRun(Step(sys, ss, Clock(r.t)), ss, r.notices) + pass
  }

  // Nothing reported and nothing to wait for: the loop is left.
  predicate Stops(sys: Sys, r: Round) {
    r.notices == [] && sys.timers.entries == []
  }

  // The events of all rounds.
  ghost function RoundsRun(sys: Sys, ss: seq<Settings>, rounds: seq<Round>): seq<Event>
    decreases |rounds|
  {
    if rounds == [] || !Legal(sys, ss, RoundRun(sys, ss, rounds[0])) then []
    else
      var one := RoundRun(sys, ss, rounds[0]);
      one + if Stops(sys, rounds[0]) then [] else RoundsRun(Run(sys, ss, one), ss, rounds[1..])
  }

  // In no round does a report ask to read on in a body that was cut short.
  ghost predicate Modelled(sys: Sys, ss: seq<Settings>, rounds: seq<Round>)
    decreases |rounds|
  {
    rounds == [] ||
    (RoundModelled(sys, ss, rounds[0]) &&
     (Legal(sys, ss, RoundRun(sys, ss, rounds[0])) ==>
        Modelled(Run(sys, ss, RoundRun(sys, ss, rounds[0])), ss, rounds[1..])))
  }

  // t is what sys becomes by the handler that a report reaches: readable and writable reports those for reading and
  // writing, if the connection is watched for that; any other report the one for hang-ups.
  ghost predicate Handled(sys: Sys, ss: seq<Settings>, n: Notice, t: Sys)
    requires WellFormed(sys, ss)
  {
    if n.id >= |sys.links| || !sys.links[n.id].net.open || sys.links[n.id].net.interest == Unwatched then t == sys
    else
      match n.what
      case In =>
        if sys.links[n.id].net.interest != ForRead then t == sys
        else !BodyCut(sys.links[n.id].c) && t == Step(sys, ss, Readable(n.id, n.a))
      case Out =>
        if sys.links[n.id].net.interest != ForWrite then t == sys else t == Step(sys, ss, Writable(n.id, n.a))
      case RdHup => t == Step(sys, ss, HungUp(n.id, n.a))
      case Other => t == Step(sys, ss, HungUp(n.id, n.a))
  }

  // Each report, when its turn comes, is of a connection watched for it, and none reads on in a body cut short.
  ghost predicate AllFit(sys: Sys, ss: seq<Settings>, notices: seq<Notice>)
    decreases |notices|
  {
    notices == [] ||
    (WellFormed(sys, ss) && Fits(sys.links, notices[0]) && Enabled(sys, EventFor(notices[0]))
     && AllFit(Step(sys, ss, EventFor(notices[0])), ss, notices[1..]))
  }

  // One handler call for each report, in order.
  function Events(notices: seq<Notice>): (run: seq<Event>)
    ensures |run| == |notices| && forall k :: 0 <= k < |run| ==> run[k] == EventFor(notices[k])
  {
    seq(|notices|, k requires 0 <= k < |notices| => EventFor(notices[k]))
  }

  lemma {:induction false} FitRun(sys: Sys, ss: seq<Settings>, notices: seq<Notice>)
    requires AllFit(sys, ss, notices)
    ensures DispatchRun(sys, ss, notices) == Events(notices) && NoneResumes(sys, ss, notices)
    decreases |notices|
  {
    if notices != [] {
      FitRun(Step(sys, ss, EventFor(notices[0])), ss, notices[1..]);
      assert Events(notices) == [EventFor(notices[0])] + Events(notices[1..]);
    }
  }

  // One report of epoll_wait, handed to its handler.
  method Dispatch(client: Client, n: Notice)
    requires client.Valid() && !Resumes(client.Links(), n)
    modifies client`naps, client.pool, client.queue`timers, client.queue.tree, client.queue.tree.sentinel,
             client.Embeds()
    ensures client.Valid() && WellFormed(old(client.State()), client.settings)
    ensures client.State() == Reacted(old(client.State()), client.settings, n)
    ensures Handled(old(client.State()), client.settings, n, client.State())
  {
    InvIsWellFormed(client.State(), client.settings, client.budgets);
    if n.id >= |client.pool| {
      return;
    }
    assert client.Links()[n.id] == client.pool[n.id].Link();
    var net := client.pool[n.id].net;
    if !net.open || net.interest == Unwatched {
      return;
    }
    client.NodesAreEmbedded();
    if n.what.RdHup? {
      client.OnHungUp(n.id, n.a);
    } else if n.what.In? {
      if net.interest == ForRead {
        assert EventOf(client.Links(), n) == Some(Readable(n.id, n.a));
        client.OnReadable(n.id, n.a);
      }
    } else if n.what.Out? {
      if net.interest == ForWrite {
        client.OnWritable(n.id, n.a);
      }
    } else {
      client.OnHungUp(n.id, n.a);
    }
  }

  // Having reacted to some reports, the events so far and those still to come make up goal.
  ghost predicate ToDispatch(sys: Sys, ss: seq<Settings>, rest: seq<Notice>, done: seq<Event>, goal: seq<Event>) {
    goal == done + DispatchRun(sys, ss, rest)
  }

  lemma DispatchOnce(start: Sys, sys: Sys, ss: seq<Settings>, rest: seq<Notice>, done: seq<Event>, goal: seq<Event>)
    returns (done': seq<Event>)
    requires WellFormed(sys, ss) && rest != [] && ToDispatch(sys, ss, rest, done, goal) && Leads(start, ss, done, sys)
    requires !Resumes(sys.links, rest[0])
    ensures ToDispatch(Reacted(sys, ss, rest[0]), ss, rest[1..], done', goal)
    ensures Leads(start, ss, done', Reacted(sys, ss, rest[0]))
  {
    var e := EventOf(sys.links, rest[0]);
    var next := DispatchRun(Reacted(sys, ss, rest[0]), ss, rest[1..]);
    done' := done;
    if e.Some? {
      done' := done + [e.value];
      LeadsBy(start, ss, done, sys, e.value);
      assert done + ([e.value] + next) == done' + next;
    } else {
      assert [] + next == next;
    }
  }

  // The first of the reports still to come.
  method DispatchNext(client: Client, n: Notice, ghost start: Sys, ghost rest: seq<Notice>, ghost done: seq<Event>,
                      ghost goal: seq<Event>) returns (ghost done': seq<Event>)
    requires client.Valid() && rest != [] && n == rest[0] && Leads(start, client.settings, done, client.State())
    requires ToDispatch(client.State(), client.settings, rest, done, goal)
    requires NoneResumes(client.State(), client.settings, rest)
    modifies client`naps, client.pool, client.queue`timers, client.queue.tree, client.queue.tree.sentinel,
             client.Embeds()
    ensures client.Valid() && client.since == old(client.since)
    ensures Leads(start, client.settings, done', client.State())
    ensures ToDispatch(client.State(), client.settings, rest[1..], done', goal)
    ensures NoneResumes(client.State(), client.settings, rest[1..])
  {
    ghost var before := client.State();
    InvIsWellFormed(before, client.settings, client.budgets);
    Dispatch(client, n);
    done' := DispatchOnce(start, before, client.settings, rest, done, goal);
  }

  lemma AllDispatched(sys: Sys, ss: seq<Settings>, done: seq<Event>, goal: seq<Event>)
    requires ToDispatch(sys, ss, [], done, goal)
    ensures done == goal
  {
    assert done + [] == done;
  }

  // All reports of one epoll_wait, in order.
  method DispatchAll(client: Client, notices: seq<Notice>)
    requires client.Valid() && NoneResumes(client.State(), client.settings, notices)
    modifies client`naps, client.pool, client.queue`timers, client.queue.tree, client.queue.tree.sentinel,
             client.Embeds()
    ensures client.Valid() && client.since == old(client.since)
    ensures Leads(old(client.State()), client.settings,
                  DispatchRun(old(client.State()), client.settings, notices), client.State())
    ensures AllFit(old(client.State()), client.settings, notices) ==>
              Leads(old(client.State()), client.settings, Events(notices), client.State())
  {
    ghost var start := client.State();
    ghost var goal := DispatchRun(start, client.settings, notices);
    ghost var done: seq<Event> := [];
    assert notices[0..] == notices;
    for i := 0 to |notices|
      invariant client.Valid() && client.since == old(client.since)
      invariant Leads(start, client.settings, done, client.State())
      invariant ToDispatch(client.State(), client.settings, notices[i..], done, goal)
      invariant NoneResumes(client.State(), client.settings, notices[i..])
    {
      assert notices[i..][0] == notices[i] && notices[i..][1..] == notices[i + 1..];
      done := DispatchNext(client, notices[i], start, notices[i..], done, goal);
    }
    assert notices[|notices|..] == [];
    AllDispatched(client.State(), client.settings, done, goal);
    if AllFit(start, client.settings, notices) { FitRun(start, client.settings, notices); }
  }

  // ngx_time_update, and by how much the clock has moved.
  method Tick(client: Client, t: int) returns (delta: Word)
    requires client.Valid() && Enabled(client.State(), Clock(t)) && t - client.queue.now < HALF
    modifies client`since, client.queue`now, client.queue`currentMsec
    ensures client.Valid() && WellFormed(old(client.State()), client.settings)
    ensures client.State() == Step(old(client.State()), client.settings, Clock(t))
    ensures delta == 0 <==> t == old(client.queue.now)
  {
    SignedDifference(t, client.queue.now);
    delta := client.queue.currentMsec;
    client.UpdateTime(t, Wrap(t));
    delta := Wrap(client.queue.currentMsec - delta);
  }

  // An expiry pass.
  method Expire(client: Client, answers: seq<Answers>)
    requires client.Valid()
    modifies client`since, client.pool, client.queue`timers, client.queue.tree, client.queue.tree.sentinel,
             client.Embeds()
    ensures client.Valid() && WellFormed(old(client.State()), client.settings)
    ensures client.State() == Step(old(client.State()), client.settings, Pass(answers))
    ensures client.queue.now == old(client.queue.now) && client.since == client.queue.now
  {
    PassInv(client.State(), client.settings, client.budgets, answers);
    client.NodesAreEmbedded();
    ghost var fired := client.ExpireTimers(answers);
  }

  // An expiry pass if it is called for.
  method ExpireIf(client: Client, due: bool, answers: seq<Answers>)
    requires client.Valid()
    modifies client`since, client.pool, client.queue`timers, client.queue.tree, client.queue.tree.sentinel,
             client.Embeds()
    ensures client.Valid() && client.queue.now == old(client.queue.now)
    ensures Leads(old(client.State()), client.settings, if due then [Pass(answers)] else [], client.State())
    ensures client.since == if due then client.queue.now else old(client.since)
  {
    if due {
      LeadsBy(client.State(), client.settings, [], client.State(), Pass(answers)) by {
        InvIsWellFormed(client.State(), client.settings, client.budgets);
      }
      assert [] + [Pass(answers)] == [Pass(answers)];
      Expire(client, answers);
    }
  }

  // What a round with every report fit for its connection comes to: the clock, each report in turn, and a pass exactly
  // if the clock has moved.
  function RoundScript(now: int, r: Round): seq<Event> {
    [Clock(r.t)] + Events(r.notices) + if r.t != now then [Pass(r.answers)] else []
  }

  // At the head of a round no timer is overdue, so that a round without reports has nothing to do unless the clock
  // moves.
  lemma RoundPlays(sys: Sys, ss: seq<Settings>, budgets: seq<nat>, r: Round)
    requires SysInv(sys, ss, budgets) && WellFormed(sys, ss) && sys.since == sys.now
    ensures AllFit(Step(sys, ss, Clock(r.t)), ss, r.notices) && !(r.notices == [] && sys.timers.entries == []) ==>
              RoundRun(sys, ss, r) == RoundScript(sys.now, r)
  {
    var ticked := Step(sys, ss, Clock(r.t));
    if AllFit(ticked, ss, r.notices) {
      FitRun(ticked, ss, r.notices);
      if sys.timers.entries != [] { assert EntryOk(sys, sys.timers.entries[0]); }
      var pass := if r.t != sys.now then [Pass(r.answers)] else [];
      assert [Clock(r.t)] + (Events(r.notices) + pass) == [Clock(r.t)] + Events(r.notices) + pass;
      if r.notices == [] { assert Events(r.notices) + pass == pass; }
    }
  }

  // One round of the loop; stop tells that nothing was watched and no timer armed.
  method RunRound(client: Client, r: Round) returns (stop: bool)
    requires client.Valid() && client.since == client.queue.now <= r.t && r.t - client.queue.now + WORD32 < HALF
    requires RoundModelled(client.State(), client.settings, r)
    modifies client`naps, client`since, client.pool, client.queue`timers, client.queue`now, client.queue`currentMsec,
             client.queue.tree, client.queue.tree.sentinel, client.Embeds()
    ensures client.Valid() && client.queue.now == r.t && client.since == r.t
    ensures Leads(old(client.State()), client.settings,
                  RoundRun(old(client.State()), client.settings, r), client.State())
    ensures stop <==> r.notices == [] && old(client.queue.timers.entries) == []
    ensures WellFormed(old(client.State()), client.settings)
    ensures !stop && AllFit(Step(old(client.State()), client.settings, Clock(r.t)), client.settings, r.notices) ==>
              Leads(old(client.State()), client.settings, RoundScript(old(client.queue.now), r), client.State())
  {
    NowIsNear(client);
    InvIsWellFormed(client.State(), client.settings, client.budgets);
    ghost var start := client.State();
    ghost var ss := client.settings;
    RoundPlays(start, ss, client.budgets, r);
    var waitTime := client.queue.FindTimer();
    var delta := Tick(client, r.t);
    ghost var ticked := client.State();
    LeadsBy(start, ss, [], start, Clock(r.t));
    assert [] + [Clock(r.t)] == [Clock(r.t)];
    if |r.notices| == 0 {
      if waitTime == NGX_TIMER_INFINITE {
        return true;
      }
      ExpireIf(client, waitTime == 0 || delta != 0, r.answers);
      LeadsOn(start, ss, [Clock(r.t)], ticked,
              if waitTime == 0 || delta != 0 then [Pass(r.answers)] else [], client.State());
      return false;
    }
    DispatchAll(client, r.notices);
    ghost var reacted := client.State();
    ExpireIf(client, delta != 0, r.answers);
    RoundIs(start, ss, r, ticked, reacted, client.State());
    stop := false;
  }

  lemma RoundIs(start: Sys, ss: seq<Settings>, r: Round, ticked: Sys, reacted: Sys, end: Sys)
    requires WellFormed(start, ss) && r.notices != [] && ticked == Step(start, ss, Clock(r.t))
    requires Leads(start, ss, [Clock(r.t)], ticked)
    requires Leads(ticked, ss, DispatchRun(ticked, ss, r.notices), reacted)
    requires Leads(reacted, ss, if r.t != start.now then [Pass(r.answers)] else [], end)
    ensures Leads(start, ss, RoundRun(start, ss, r), end)
  {
    var pass := if r.t != start.now then [Pass(r.answers)] else [];
    LeadsOn(ticked, ss, DispatchRun(ticked, ss, r.notices), reacted, pass, end);
    LeadsOn(start, ss, [Clock(r.t)], ticked, DispatchRun(ticked, ss, r.notices) + pass, end);
  }

  // Every deadline is within half the clock's range of the present.
  lemma NowIsNear(client: Client)
    requires client.Valid()
    ensures Near(client.queue.timers, client.queue.now)
  {
    forall k | 0 <= k < |client.queue.timers.entries|
      ensures -HALF < client.queue.timers.entries[k].due - client.queue.now < HALF
    {
      assert EntryOk(client.State(), client.queue.timers.entries[k]);
    }
  }

  // Right after an expiry pass, or with nothing armed, no timer is overdue.
  lemma NothingOverdue(client: Client)
    requires client.Valid() && client.since == client.queue.now
    ensures forall e: Entry :: e in client.queue.timers.entries ==> client.queue.now < e.due
  {
    forall e: Entry | e in client.queue.timers.entries ensures client.queue.now < e.due {
      assert EntryOk(client.State(), e);
    }
  }

  // Having been through some rounds, the events so far and those still to come make up goal.
  ghost predicate ToRun(sys: Sys, ss: seq<Settings>, rest: seq<Round>, done: seq<Event>, goal: seq<Event>) {
    goal == done + RoundsRun(sys, ss, rest)
  }

  lemma RoundOnce(start: Sys, sys: Sys, ss: seq<Settings>, rest: seq<Round>, done: seq<Event>, goal: seq<Event>,
                  next: Sys)
    requires rest != [] && ToRun(sys, ss, rest, done, goal) && Leads(start, ss, done, sys)
    requires Leads(sys, ss, RoundRun(sys, ss, rest[0]), next)
    ensures var done' := done + RoundRun(sys, ss, rest[0]);
      && Leads(start, ss, done', next)
      && if Stops(sys, rest[0]) then done' == goal else ToRun(next, ss, rest[1..], done', goal)
  {
    var one := RoundRun(sys, ss, rest[0]);
    var more := if Stops(sys, rest[0]) then [] else RoundsRun(next, ss, rest[1..]);
    assert RoundsRun(sys, ss, rest) == one + more;
    InTwoSteps(done, one, more);
    LeadsOn(start, ss, done, sys, one, next);
  }

  lemma InTwoSteps(a: seq<Event>, b: seq<Event>, c: seq<Event>)
    ensures a + (b + c) == (a + b) + c && (a + b) + [] == a + b
  {
  }

  // Every report of every round fits its connection when its turn comes, and no round ends the loop.
  ghost predicate Plays(sys: Sys, ss: seq<Settings>, rounds: seq<Round>)
    decreases |rounds|
  {
    rounds == [] ||
    (&& WellFormed(sys, ss) && AllFit(Step(sys, ss, Clock(rounds[0].t)), ss, rounds[0].notices)
     && !(rounds[0].notices == [] && sys.timers.entries == [])
     && Legal(sys, ss, RoundScript(sys.now, rounds[0]))
     && Plays(Run(sys, ss, RoundScript(sys.now, rounds[0])), ss, rounds[1..]))
  }

  // What such rounds come to.
  function Script(now: int, rounds: seq<Round>): seq<Event>
    decreases |rounds|
  {
    if rounds == [] then [] else RoundScript(now, rounds[0]) + Script(rounds[0].t, rounds[1..])
  }

  // Having played some rounds, what was done and what is still to come make up the whole script.
  ghost predicate ToPlay(sys: Sys, ss: seq<Settings>, rest: seq<Round>, done: seq<Event>, script: seq<Event>) {
    Plays(sys, ss, rest) && script == done + Script(sys.now, rest)
  }

  lemma PlayOnce(sys: Sys, ss: seq<Settings>, budgets: seq<nat>, rest: seq<Round>, done: seq<Event>, script: seq<Event>,
                 next: Sys)
    requires SysInv(sys, ss, budgets) && sys.since == sys.now && rest != [] && ToPlay(sys, ss, rest, done, script)
    requires Leads(sys, ss, RoundScript(sys.now, rest[0]), next) && next.now == rest[0].t
    ensures WellFormed(sys, ss) && RoundRun(sys, ss, rest[0]) == RoundScript(sys.now, rest[0])
    ensures ToPlay(next, ss, rest[1..], done + RoundRun(sys, ss, rest[0]), script)
  {
    RoundPlays(sys, ss, budgets, rest[0]);
    InTwoSteps(done, RoundScript(sys.now, rest[0]), Script(rest[0].t, rest[1..]));
  }

  // The first of the rounds still to come.
  method NextRound(client: Client, r: Round, ghost start: Sys, ghost rest: seq<Round>, ghost done: seq<Event>,
                   ghost goal: seq<Event>, ghost plays: bool, ghost script: seq<Event>)
    returns (stop: bool, ghost done': seq<Event>)
    requires client.Valid() && rest != [] && r == rest[0] && client.since == client.queue.now <= r.t
    requires r.t - client.queue.now + WORD32 < HALF && Modelled(client.State(), client.settings, rest)
    requires Leads(start, client.settings, done, client.State())
    requires ToRun(client.State(), client.settings, rest, done, goal)
    requires plays ==> ToPlay(client.State(), client.settings, rest, done, script)
    modifies client`naps, client`since, client.pool, client.queue`timers, client.queue`now, client.queue`currentMsec,
             client.queue.tree, client.queue.tree.sentinel, client.Embeds()
    ensures client.Valid() && client.since == client.queue.now == r.t
    ensures Leads(start, client.settings, done', client.State())
    ensures if stop then done' == goal && !plays
            else ToRun(client.State(), client.settings, rest[1..], done', goal)
                 && Modelled(client.State(), client.settings, rest[1..])
    ensures plays ==> ToPlay(client.State(), client.settings, rest[1..], done', script)
  {
    ghost var before := client.State();
    stop := RunRound(client, r);
    RoundOnce(start, before, client.settings, rest, done, goal, client.State());
    if plays { PlayOnce(before, client.settings, client.budgets, rest, done, script, client.State()); }
    done' := done + RoundRun(before, client.settings, r);
  }

  // The loop, over any rounds: the run of SystemModel they call for, after which no armed timer is overdue.
  method Loop(client: Client, rounds: seq<Round>)
    requires client.Valid() && client.since == client.queue.now && Timely(client.queue.now, rounds)
    requires Modelled(client.State(), client.settings, rounds)
    modifies client`naps, client`since, client.pool, client.queue`timers, client.queue`now, client.queue`currentMsec,
             client.queue.tree, client.queue.tree.sentinel, client.Embeds()
    ensures client.Valid()
    ensures Leads(old(client.State()), client.settings,
                  RoundsRun(old(client.State()), client.settings, rounds), client.State())
    ensures Plays(old(client.State()), client.settings, rounds) ==>
              Leads(old(client.State()), client.settings, Script(old(client.queue.now), rounds), client.State())
    ensures forall e: Entry :: e in client.queue.timers.entries ==> client.queue.now < e.due
  {
    ghost var start, ss := client.State(), client.settings;
    ghost var goal := RoundsRun(start, ss, rounds);
    ghost var done: seq<Event> := [];
    ghost var plays, script := Plays(start, ss, rounds), Script(client.queue.now, rounds);
    var i := 0;
    assert rounds[0..] == rounds;
    while i < |rounds|
      invariant i <= |rounds| && Timely(client.queue.now, rounds[i..])
      invariant client.Valid() && Leads(start, ss, done, client.State())
      invariant ToRun(client.State(), ss, rounds[i..], done, goal)
      invariant client.since == client.queue.now && Modelled(client.State(), ss, rounds[i..])
      invariant plays ==> ToPlay(client.State(), ss, rounds[i..], done, script)
    {
      assert rounds[i..][0] == rounds[i] && rounds[i..][1..] == rounds[i + 1..];
      var stop;
      stop, done := NextRound(client, rounds[i], start, rounds[i..], done, goal, plays, script);
      if stop {
        break;
      }
      i := i + 1;
    }
    assert done == goal;
    assert plays ==> done == script;
    NothingOverdue(client);
  }

  // Without readable reports, whatever else is reported, no body cut short is read on.
  lemma {:induction false} NoneRead(sys: Sys, ss: seq<Settings>, notices: seq<Notice>)
    requires forall k :: 0 <= k < |notices| ==> !notices[k].what.In?
    ensures NoneResumes(sys, ss, notices)
    decreases |notices|
  {
    if notices != [] && WellFormed(sys, ss) { NoneRead(Reacted(sys, ss, notices[0]), ss, notices[1..]); }
  }

  lemma {:induction false} NoReadsModelled(sys: Sys, ss: seq<Settings>, rounds: seq<Round>)
    requires forall j, k :: 0 <= j < |rounds| && 0 <= k < |rounds[j].notices| ==> !rounds[j].notices[k].what.In?
    ensures Modelled(sys, ss, rounds)
    decreases |rounds|
  {
    if rounds != [] {
      if WellFormed(sys, ss) { NoneRead(Step(sys, ss, Clock(rounds[0].t)), ss, rounds[0].notices); }
      if Legal(sys, ss, RoundRun(sys, ss, rounds[0])) {
        NoReadsModelled(Run(sys, ss, RoundRun(sys, ss, rounds[0])), ss, rounds[1..]);
      }
    }
  }

  // main: build the pool, dial every connection, and loop; whatever the kernel does, as long as it never has a body cut
  // short taken up again, the state left is a reachable one.
  method RunClient(settings: seq<Settings>, budgets: seq<nat>, base: nat, answers: seq<Answers>,
                   rounds: seq<Round>)
    returns (client: Client)
    requires |settings| == |budgets| == |answers| && forall i :: 0 <= i < |settings| ==> settings[i].Valid()
    requires 0 < base && Timely(0, rounds) && Modelled(Boot(settings, budgets, base, answers), settings, rounds)
    ensures client.Valid() && Reachable(client.State(), settings, budgets)
    ensures (exists i :: 0 <= i < |answers| && answers[i].dial.Dialled? && answers[i].ctl)
            && Plays(Boot(settings, budgets, base, answers), settings, rounds) ==>
              Leads(Boot(settings, budgets, base, answers), settings, Script(0, rounds), client.State())
  {
    client := CreateConnectionPool(settings, budgets, base);
    var ret := StartAllConnections(client, base, answers);
    ghost var boot := client.State();
    if ret != 0 {
      ReachedAt(boot, settings, budgets, base, answers, [], boot);
      return;
    }
    Loop(client, rounds);
    ReachedAt(boot, settings, budgets, base, answers, RoundsRun(boot, settings, rounds), client.State());
  }

  lemma ReachedAt(boot: Sys, ss: seq<Settings>, budgets: seq<nat>, base: nat, answers: seq<Answers>,
                  run: seq<Event>, sys: Sys)
    requires 0 < base && |ss| == |budgets| == |answers| && forall i :: 0 <= i < |ss| ==> ss[i].Valid()
    requires boot == Boot(ss, budgets, base, answers) && Leads(boot, ss, run, sys)
    ensures Reachable(sys, ss, budgets)
  {
    assert sys == Run(Boot(ss, budgets, base, answers), ss, run);
  }
}
