/** The whole client as a value: every connection, the timer queue and the clock, over any run of the main loop. */
module SystemModel {
  import opened Words
  import opened NetUtil
  import opened TimerModel
  import opened ConnModel
  import opened ConnInvariants

  // When a connection last went idle, and for how long.
  datatype Nap = Nap(at: int, ms: nat)

  // since is the time of the last expiry pass, or a later one at which no timer was armed.
  datatype Sys = Sys(links: seq<Link>, naps: seq<Nap>, timers: Timers, now: int, since: int)

  // What the main loop does next.
  datatype Event =
    | Readable(id: nat, a: Answers)
    | Writable(id: nat, a: Answers)
    | HungUp(id: nat, a: Answers)
    | Clock(t: int)
    | Pass(answers: seq<Answers>)

  const QUIET := Answers(0, Busy, [], true, NoSocket, 0)

  // A handler's outcome written back: the connection, and its timer if it went to sleep.
  function Settle(sys: Sys, id: nat, r: Outcome): Sys
    requires id < |sys.links| == |sys.naps|
  {
    var sys := sys.(links := sys.links[id := r.link]);
    if r.nap.None? then sys
    else sys.(naps := sys.naps[id := Nap(sys.now, r.nap.value)],
              timers := Rearm(sys.timers, id, sys.now + r.nap.value))
  }

  // The read cursor is inside the head, or in a body.
  predicate HeadReady(c: Conn) {
    |c.head| == 4 && (c.state == Recving ==> -4 <= c.readLen)
  }

  // Enough for every handler to be called.
  ghost predicate WellFormed(sys: Sys, ss: seq<Settings>) {
    && |sys.links| == |sys.naps| == |ss|
    && (forall i :: 0 <= i < |ss| ==> ss[i].Valid() && SendReady(sys.links[i].c, ss[i]) && HeadReady(sys.links[i].c))
    && (forall i :: 0 <= i < |sys.timers.entries| ==> sys.timers.entries[i].id < |sys.links|)
  }

  // The state after the first timer has fired.
  ghost function Fired(sys: Sys, ss: seq<Settings>, answers: seq<Answers>): Sys
    requires WellFormed(sys, ss) && sys.timers.entries != []
  {
    var id := sys.timers.entries[0].id;
    var a := if answers == [] then QUIET else answers[0];
    sys.(timers := sys.timers.(entries := sys.timers.entries[1..]),
         links := sys.links[id := HandleTimer(sys.links[id], ss[id], a)])
  }

  lemma FiredIs(sys: Sys, ss: seq<Settings>, a: Answers, t: Sys)
    requires WellFormed(sys, ss) && sys.timers.entries != []
    requires var id := sys.timers.entries[0].id;
      t == sys.(links := sys.links[id := HandleTimer(sys.links[id], ss[id], a)], timers := Remove(sys.timers, id))
    ensures t == Fired(sys, ss, [a])
  {
    var q := sys.timers.entries;
    assert Find(q, q[0].id) == 0;
    assert q[..0] + q[1..] == q[1..];
  }

  // One expiry pass; the second result lists the connections fired, in order.
  ghost function PassLoop(sys: Sys, ss: seq<Settings>, answers: seq<Answers>): (Sys, seq<nat>)
    decreases |sys.timers.entries|
  {
    var q := sys.timers.entries;
    if q == [] || q[0].due > sys.now || !WellFormed(sys, ss) then (sys, [])
    else
      var (r, rest) := PassLoop(Fired(sys, ss, answers), ss, if answers == [] then [] else answers[1..]);
      (r, [q[0].id] + rest)
  }

  // The effect of one event.
  ghost function Step(sys: Sys, ss: seq<Settings>, e: Event): Sys
    requires WellFormed(sys, ss) && (e.Readable? || e.Writable? || e.HungUp? ==> e.id < |ss|)
    requires e.Readable? ==> ReadReady(sys.links[e.id].c)
  {
    match e
    case Readable(id, a) => Settle(sys, id, HandleRead(sys.links[id], ss[id], a))
    case Writable(id, a) => Settle(sys, id, Outcome(HandleSend(sys.links[id], ss[id], a), None))
    case HungUp(id, a) => Settle(sys, id, Outcome(HandleClose(sys.links[id], ss[id], a), None))
    case Clock(t) => sys.(now := t, since := if sys.timers.entries == [] then t else sys.since)
    case Pass(answers) => PassLoop(sys, ss, answers).0.(since := sys.now)
  }

  // A response has been cut short inside its body. Taking it up again asks recv for a number of bytes that has wrapped
  // around, more than any buffer holds; what memory is like after that is not modelled.
  predicate BodyCut(c: Conn) {
    c.state == Recving && c.readLen >= 0
  }

  // The main loop's discipline: epoll reports only watched sockets and only what is watched for (hang-ups always),
  // the clock never goes back, expiry passes are not starved for half the range of the clock, and nothing more is read
  // from a connection whose response was cut short inside its body.
  predicate Enabled(sys: Sys, e: Event) {
    match e
    case Readable(id, _) =>
      && id < |sys.links| && sys.links[id].net.open && sys.links[id].net.interest == ForRead
      && !BodyCut(sys.links[id].c)
    case Writable(id, _) => id < |sys.links| && sys.links[id].net.open && sys.links[id].net.interest == ForWrite
    case HungUp(id, _) => id < |sys.links| && sys.links[id].net.open && sys.links[id].net.interest != Unwatched
    case Clock(t) => sys.now <= t && (sys.timers.entries == [] || t - sys.since + WORD32 < HALF)
    case Pass(_) => true
  }

  // A connection asleep has a timer, near enough to the end of its nap.
  ghost predicate Asleep(sys: Sys, i: nat)
    requires i < |sys.naps|
  {
    && Has(sys.timers, i)
    && -LAZY_DELAY < DueOf(sys.timers, i) - (sys.naps[i].at + sys.naps[i].ms) < LAZY_DELAY
  }

  // Connection i keeps its invariant, and has a timer while asleep.
  ghost predicate SlotOk(sys: Sys, ss: seq<Settings>, budgets: seq<nat>, i: nat)
    requires i < |sys.links| == |sys.naps| == |ss| == |budgets|
  {
    && ss[i].Valid() && Inv(sys.links[i], ss[i], budgets[i])
    && (sys.links[i].c.state == Idle ==> Asleep(sys, i))
  }

  // A live deadline: later than the last pass, and no further off than the longest sleep.
  ghost predicate EntryOk(sys: Sys, e: Entry) {
    e.id < |sys.links| && sys.since < e.due < sys.now + WORD32
  }

  // What every step keeps.
  ghost predicate SysInv(sys: Sys, ss: seq<Settings>, budgets: seq<nat>) {
    && |sys.links| == |sys.naps| == |ss| == |budgets|
    && (forall i: nat {:trigger SlotOk(sys, ss, budgets, i)} :: i < |ss| ==> SlotOk(sys, ss, budgets, i))
    && Sorted(sys.timers)
    && (forall e: Entry {:trigger EntryOk(sys, e)} :: e in sys.timers.entries ==> EntryOk(sys, e))
    && sys.since <= sys.now && sys.now - sys.since + WORD32 < HALF
  }

  // All live deadlines lie within half the range of the clock, where the wrapped comparison is the real one.
  lemma LiveKeysComparable(sys: Sys, ss: seq<Settings>, budgets: seq<nat>, a: Entry, b: Entry)
    requires SysInv(sys, ss, budgets) && a in sys.timers.entries && b in sys.timers.entries
    ensures -HALF < a.due - b.due < HALF
    ensures Before(Wrap(a.due), Wrap(b.due)) <==> a.due < b.due
    ensures Signed(Wrap(Wrap(a.due) - Wrap(sys.now))) <= 0 <==> a.due <= sys.now
  {
    assert EntryOk(sys, a) && EntryOk(sys, b);
    SignedDifference(a.due, b.due);
    SignedDifference(a.due, sys.now);
  }

  lemma InvIsWellFormed(sys: Sys, ss: seq<Settings>, budgets: seq<nat>)
    requires SysInv(sys, ss, budgets)
    ensures WellFormed(sys, ss)
  {
    forall i: nat | i < |ss| ensures ss[i].Valid() && SendReady(sys.links[i].c, ss[i]) && HeadReady(sys.links[i].c) {
      assert SlotOk(sys, ss, budgets, i);
    }
    forall i | 0 <= i < |sys.timers.entries| ensures sys.timers.entries[i].id < |sys.links| {
      assert EntryOk(sys, sys.timers.entries[i]);
    }
  }

  lemma SettleInv(sys: Sys, ss: seq<Settings>, budgets: seq<nat>, id: nat, r: Outcome)
    requires SysInv(sys, ss, budgets) && id < |ss| && Inv(r.link, ss[id], budgets[id])
    requires r.nap.Some? ==> 0 < r.nap.value < WORD32
    requires r.link.c.state == Idle && r.nap.None? ==> r.link == sys.links[id]
    ensures SysInv(Settle(sys, id, r), ss, budgets)
  {
    if r.nap.Some? {
      SettleNap(sys, id, r);
      RearmMeetsAs(sys.timers, id, sys.now + r.nap.value, Settle(sys, id, r).timers);
      NapInv(sys, ss, budgets, id, r.link, r.nap.value, Settle(sys, id, r));
    } else {
      StayInv(sys, ss, budgets, id, r.link, Settle(sys, id, r));
    }
  }

  lemma StayInv(sys: Sys, ss: seq<Settings>, budgets: seq<nat>, id: nat, link: Link, t: Sys)
    requires SysInv(sys, ss, budgets) && id < |ss| && Inv(link, ss[id], budgets[id])
    requires link.c.state == Idle ==> link == sys.links[id]
    requires t == sys.(links := sys.links[id := link])
    ensures SysInv(t, ss, budgets)
  {
    forall i: nat | i < |ss| ensures SlotOk(t, ss, budgets, i) {
      assert SlotOk(sys, ss, budgets, i);
    }
    forall e: Entry | e in t.timers.entries ensures EntryOk(t, e) {
      assert EntryOk(sys, e);
    }
  }

  lemma NapInv(sys: Sys, ss: seq<Settings>, budgets: seq<nat>, id: nat, link: Link, ms: nat, t: Sys)
    requires SysInv(sys, ss, budgets) && id < |ss| && Inv(link, ss[id], budgets[id]) && 0 < ms < WORD32
    requires Rearmed(sys.timers, t.timers, id, sys.now + ms)
    requires t == sys.(links := sys.links[id := link], naps := sys.naps[id := Nap(sys.now, ms)], timers := t.timers)
    ensures SysInv(t, ss, budgets)
  {
    forall i: nat | i < |ss| ensures SlotOk(t, ss, budgets, i) {
      assert SlotOk(sys, ss, budgets, i);
    }
    forall e: Entry | e in t.timers.entries ensures EntryOk(t, e) {
      assert e in sys.timers.entries ==> EntryOk(sys, e);
    }
  }

  lemma SettleNap(sys: Sys, id: nat, r: Outcome)
    requires id < |sys.links| == |sys.naps| && r.nap.Some?
    ensures var t, ms := Settle(sys, id, r), r.nap.value;
      && t == sys.(links := sys.links[id := r.link], naps := sys.naps[id := Nap(sys.now, ms)], timers := t.timers)
      && t.timers == Rearm(sys.timers, id, sys.now + ms)
  {
  }

  // The first timer fires: gone from the queue, its connection resumed if it was asleep.
  lemma FireInv(sys: Sys, ss: seq<Settings>, budgets: seq<nat>, answers: seq<Answers>)
    requires SysInv(sys, ss, budgets) && WellFormed(sys, ss) && sys.timers.entries != []
    ensures SysInv(Fired(sys, ss, answers), ss, budgets)
  {
    var q := sys.timers.entries;
    var id := q[0].id;
    var t := Fired(sys, ss, answers);
    assert SlotOk(sys, ss, budgets, id);
    TimerInv(sys.links[id], ss[id], budgets[id], if answers == [] then QUIET else answers[0]);
    TailSorted(sys.timers);
    forall i: nat | i < |ss| ensures SlotOk(t, ss, budgets, i) {
      assert SlotOk(sys, ss, budgets, i);
      if i != id && sys.links[i].c.state == Idle { StillAsleep(sys, t, i); }
    }
    forall e: Entry | e in t.timers.entries ensures EntryOk(t, e) {
      TailMembers(sys.timers, e);
      assert EntryOk(sys, e);
    }
  }

  lemma TimerInv(l: Link, s: Settings, budget: nat, a: Answers)
    requires s.Valid() && Inv(l, s, budget)
    ensures Inv(HandleTimer(l, s, a), s, budget) && HandleTimer(l, s, a).c.state != Idle
  {
    if l.c.state == Idle { SendInv(l, s, budget, a); }
  }

  lemma StillAsleep(sys: Sys, t: Sys, i: nat)
    requires Sorted(sys.timers) && sys.timers.entries != [] && sys.timers.entries[0].id != i
    requires t.timers == sys.timers.(entries := sys.timers.entries[1..]) && t.naps == sys.naps
    requires i < |sys.naps| && Asleep(sys, i)
    ensures Asleep(t, i)
  {
    TailSorted(sys.timers);
    var e := sys.timers.entries[Find(sys.timers.entries, i)];
    TailMembers(sys.timers, e);
    HasEntry(t.timers, e);
  }

  lemma {:induction false} PassInv(sys: Sys, ss: seq<Settings>, budgets: seq<nat>, answers: seq<Answers>)
    requires SysInv(sys, ss, budgets)
    ensures SysInv(PassLoop(sys, ss, answers).0, ss, budgets)
    ensures PassLoop(sys, ss, answers).0.now == sys.now
    decreases |sys.timers.entries|
  {
    InvIsWellFormed(sys, ss, budgets);
    var q := sys.timers.entries;
    if q != [] && q[0].due <= sys.now {
      FireInv(sys, ss, budgets, answers);
      PassInv(Fired(sys, ss, answers), ss, budgets, if answers == [] then [] else answers[1..]);
    }
  }

  function Ids(q: seq<Entry>): (r: seq<nat>)
    ensures |r| == |q| && forall i :: 0 <= i < |q| ==> r[i] == q[i].id
  {
    seq(|q|, i requires 0 <= i < |q| => q[i].id)
  }

  lemma {:induction false} PlaceShift(q: seq<Entry>, due: int, k: nat)
    requires k < |q|
    ensures PlaceFrom(q[1..], due, k) + 1 == PlaceFrom(q, due, k + 1)
    decreases |q| - k
  {
    if k + 1 < |q| && q[1..][k].due <= due { PlaceShift(q, due, k + 1); }
  }

  lemma PlaceStep(q: seq<Entry>, now: int)
    requires q != [] && q[0].due <= now
    ensures var k := Place(q[1..], now);
      Place(q, now) == k + 1 && Ids(q[..k + 1]) == [q[0].id] + Ids(q[1..][..k]) && q[k + 1..] == q[1..][k..]
  {
    PlaceShift(q, now, 0);
    var k := Place(q[1..], now);
    assert q[..k + 1] == [q[0]] + q[1..][..k];
  }

  // One pass fires exactly the timers due by now, each once, in the queue's order, and leaves the later ones armed.
  lemma {:induction false} PassMeets(sys: Sys, ss: seq<Settings>, budgets: seq<nat>, answers: seq<Answers>)
    requires SysInv(sys, ss, budgets)
    ensures PassLoop(sys, ss, answers).1 == Ids(sys.timers.entries[..Place(sys.timers.entries, sys.now)])
    ensures PassLoop(sys, ss, answers).0.timers ==
            sys.timers.(entries := sys.timers.entries[Place(sys.timers.entries, sys.now)..])
    decreases |sys.timers.entries|
  {
    InvIsWellFormed(sys, ss, budgets);
    var q := sys.timers.entries;
    if q != [] && q[0].due <= sys.now {
      FireInv(sys, ss, budgets, answers);
      PassMeets(Fired(sys, ss, answers), ss, budgets, if answers == [] then [] else answers[1..]);
      PlaceStep(q, sys.now);
    }
  }

  lemma PlaceSplits(t: Timers, now: int)
    requires Sorted(t)
    ensures forall e: Entry :: e in t.entries[Place(t.entries, now)..] <==> e in t.entries && e.due > now
    ensures forall e: Entry :: e in t.entries[..Place(t.entries, now)] <==> e in t.entries && e.due <= now
  {
    var q, k := t.entries, Place(t.entries, now);
    forall i | 0 <= i < |q| ensures i < k <==> q[i].due <= now {
      if i < k { PlaceIsFirst(q, now, 0, i); } else { LaterThan(t, now, i); }
    }
    assert q == q[..k] + q[k..];
  }

  lemma IdsOf(q: seq<Entry>)
    ensures forall id :: id in Ids(q) <==> exists e: Entry :: e in q && e.id == id
  {
    forall id | id in Ids(q) ensures exists e: Entry :: e in q && e.id == id {
      var i :| 0 <= i < |q| && Ids(q)[i] == id;
      assert q[i] in q;
    }
    forall e: Entry | e in q ensures e.id in Ids(q) {
      var i :| 0 <= i < |q| && q[i] == e;
      assert Ids(q)[i] == e.id;
    }
  }

  // What is left after a pass is exactly what lies strictly in the future, and nobody fires twice.
  lemma PassSplits(sys: Sys, ss: seq<Settings>, budgets: seq<nat>, answers: seq<Answers>)
    requires SysInv(sys, ss, budgets)
    ensures forall e: Entry ::
              e in PassLoop(sys, ss, answers).0.timers.entries <==> e in sys.timers.entries && e.due > sys.now
    ensures forall id :: id in PassLoop(sys, ss, answers).1 <==>
              exists e: Entry :: e in sys.timers.entries && e.id == id && e.due <= sys.now
    ensures forall i, j :: 0 <= i < j < |PassLoop(sys, ss, answers).1| ==>
              PassLoop(sys, ss, answers).1[i] != PassLoop(sys, ss, answers).1[j]
  {
    PassMeets(sys, ss, budgets, answers);
    SplitAt(sys.timers, sys.now);
  }

  lemma SplitAt(t: Timers, now: int)
    requires Sorted(t)
    ensures forall e: Entry :: e in t.entries[Place(t.entries, now)..] <==> e in t.entries && e.due > now
    ensures forall id :: id in Ids(t.entries[..Place(t.entries, now)]) <==>
              exists e: Entry :: e in t.entries && e.id == id && e.due <= now
    ensures var fired := Ids(t.entries[..Place(t.entries, now)]);
      forall i, j :: 0 <= i < j < |fired| ==> fired[i] != fired[j]
  {
    PlaceSplits(t, now);
    var early := t.entries[..Place(t.entries, now)];
    IdsOf(early);
    forall i, j | 0 <= i < j < |early| ensures Ids(early)[i] != Ids(early)[j] {
      assert Precedes(t.entries[i], t.entries[j]);
    }
  }

  lemma ReadableInv(sys: Sys, ss: seq<Settings>, budgets: seq<nat>, id: nat, a: Answers)
    requires SysInv(sys, ss, budgets) && Enabled(sys, Readable(id, a)) && WellFormed(sys, ss)
    ensures SysInv(Step(sys, ss, Readable(id, a)), ss, budgets)
  {
    assert SlotOk(sys, ss, budgets, id);
    ReadInv(sys.links[id], ss[id], budgets[id], a);
    SettleInv(sys, ss, budgets, id, HandleRead(sys.links[id], ss[id], a));
  }

  lemma WritableInv(sys: Sys, ss: seq<Settings>, budgets: seq<nat>, id: nat, a: Answers)
    requires SysInv(sys, ss, budgets) && Enabled(sys, Writable(id, a)) && WellFormed(sys, ss)
    ensures SysInv(Step(sys, ss, Writable(id, a)), ss, budgets)
  {
    assert SlotOk(sys, ss, budgets, id);
    SendInv(sys.links[id], ss[id], budgets[id], a);
    SettleInv(sys, ss, budgets, id, Outcome(HandleSend(sys.links[id], ss[id], a), None));
  }

  lemma HungUpInv(sys: Sys, ss: seq<Settings>, budgets: seq<nat>, id: nat, a: Answers)
    requires SysInv(sys, ss, budgets) && Enabled(sys, HungUp(id, a)) && WellFormed(sys, ss)
    ensures SysInv(Step(sys, ss, HungUp(id, a)), ss, budgets)
  {
    assert SlotOk(sys, ss, budgets, id);
    CoreClosable(sys.links[id], ss[id]);
    FailInv(sys.links[id], ss[id], budgets[id], a);
    SettleInv(sys, ss, budgets, id, Outcome(HandleClose(sys.links[id], ss[id], a), None));
  }

  lemma ClockInv(sys: Sys, ss: seq<Settings>, budgets: seq<nat>, t: int)
    requires SysInv(sys, ss, budgets) && Enabled(sys, Clock(t)) && WellFormed(sys, ss)
    ensures SysInv(Step(sys, ss, Clock(t)), ss, budgets)
  {
    var u := Step(sys, ss, Clock(t));
    forall i: nat | i < |ss| ensures SlotOk(u, ss, budgets, i) {
      assert SlotOk(sys, ss, budgets, i);
    }
    forall e: Entry | e in u.timers.entries ensures EntryOk(u, e) {
      assert EntryOk(sys, e);
    }
  }

  // With everything due gone, the window of live deadlines may start at the present.
  lemma CaughtUp(sys: Sys, ss: seq<Settings>, budgets: seq<nat>)
    requires SysInv(sys, ss, budgets) && forall e: Entry :: e in sys.timers.entries ==> sys.now < e.due
    ensures SysInv(sys.(since := sys.now), ss, budgets)
  {
    var t := sys.(since := sys.now);
    forall i: nat | i < |ss| ensures SlotOk(t, ss, budgets, i) {
      assert SlotOk(sys, ss, budgets, i);
    }
    forall e: Entry | e in t.timers.entries ensures EntryOk(t, e) {
      assert EntryOk(sys, e);
    }
  }

  lemma WholePassInv(sys: Sys, ss: seq<Settings>, budgets: seq<nat>, answers: seq<Answers>)
    requires SysInv(sys, ss, budgets) && WellFormed(sys, ss)
    ensures SysInv(Step(sys, ss, Pass(answers)), ss, budgets)
  {
    PassInv(sys, ss, budgets, answers);
    PassSplits(sys, ss, budgets, answers);
    CaughtUp(PassLoop(sys, ss, answers).0, ss, budgets);
  }

  // Every enabled step keeps the invariant.
  lemma StepInv(sys: Sys, ss: seq<Settings>, budgets: seq<nat>, e: Event)
    requires SysInv(sys, ss, budgets) && Enabled(sys, e)
    ensures WellFormed(sys, ss) && SysInv(Step(sys, ss, e), ss, budgets)
  {
    InvIsWellFormed(sys, ss, budgets);
    match e
    case Readable(id, a) => ReadableInv(sys, ss, budgets, id, a);
    case Writable(id, a) => WritableInv(sys, ss, budgets, id, a);
    case HungUp(id, a) => HungUpInv(sys, ss, budgets, id, a);
    case Clock(t) => ClockInv(sys, ss, budgets, t);
    case Pass(answers) => WholePassInv(sys, ss, budgets, answers);
  }

  // Each event of the run is enabled where it happens.
  ghost predicate Legal(sys: Sys, ss: seq<Settings>, run: seq<Event>)
    decreases |run|
  {
    run == [] || (WellFormed(sys, ss) && Enabled(sys, run[0]) && Legal(Step(sys, ss, run[0]), ss, run[1..]))
  }

  ghost function Run(sys: Sys, ss: seq<Settings>, run: seq<Event>): Sys
    requires Legal(sys, ss, run)
    decreases |run|
  {
    if run == [] then sys else Run(Step(sys, ss, run[0]), ss, run[1..])
  }

  const BUFFER_STEP := 1024

  // Connection i as create_connection_pool leaves it.
  function FreshAt(budgets: seq<nat>, base: nat, i: nat): Link
    requires i < |budgets|
  {
    Fresh(budgets[i], base + i * BUFFER_STEP)
  }

  // The state after start_all_connection: every connection dialled once, no timer armed.
  // The receive buffers lie at base, BUFFER_STEP bytes apart.
  ghost function Boot(ss: seq<Settings>, budgets: seq<nat>, base: nat, answers: seq<Answers>): Sys
    requires |ss| == |budgets| == |answers|
  {
    Sys(seq(|ss|, i requires 0 <= i < |ss| => StartConnect(FreshAt(budgets, base, i), answers[i])),
        seq(|ss|, i => Nap(0, 0)), Timers([], 0), 0, 0)
  }

  lemma BootInv(ss: seq<Settings>, budgets: seq<nat>, base: nat, answers: seq<Answers>)
    requires |ss| == |budgets| == |answers| && forall i :: 0 <= i < |ss| ==> ss[i].Valid()
    ensures SysInv(Boot(ss, budgets, base, answers), ss, budgets)
  {
    var boot := Boot(ss, budgets, base, answers);
    forall i: nat | i < |ss| ensures SlotOk(boot, ss, budgets, i) {
      FreshInv(ss[i], budgets[i], base + i * BUFFER_STEP);
      StartConnectInv(FreshAt(budgets, base, i), ss[i], budgets[i], answers[i]);
    }
  }

  // Every state of every run keeps the invariant.
  lemma {:induction false} RunInv(sys: Sys, ss: seq<Settings>, budgets: seq<nat>, run: seq<Event>)
    requires SysInv(sys, ss, budgets) && Legal(sys, ss, run)
    ensures SysInv(Run(sys, ss, run), ss, budgets)
    decreases |run|
  {
    if run != [] {
      StepInv(sys, ss, budgets, run[0]);
      RunInv(Step(sys, ss, run[0]), ss, budgets, run[1..]);
    }
  }

  // A run can go on with any event enabled where it ended.
  lemma {:induction false} RunOn(sys: Sys, ss: seq<Settings>, run: seq<Event>, e: Event)
    requires Legal(sys, ss, run) && WellFormed(Run(sys, ss, run), ss) && Enabled(Run(sys, ss, run), e)
    ensures Legal(sys, ss, run + [e])
    ensures Run(sys, ss, run + [e]) == Step(Run(sys, ss, run), ss, e)
    decreases |run|
  {
    if run == [] {
      assert (run + [e])[1..] == [] && (run + [e])[0] == e;
    } else {
      assert (run + [e])[0] == run[0] && (run + [e])[1..] == run[1..] + [e];
      RunOn(Step(sys, ss, run[0]), ss, run[1..], e);
    }
  }

  // run leads from start to sys.
  ghost predicate Leads(start: Sys, ss: seq<Settings>, run: seq<Event>, sys: Sys) {
    Legal(start, ss, run) && Run(start, ss, run) == sys
  }

  lemma LeadsBy(start: Sys, ss: seq<Settings>, run: seq<Event>, sys: Sys, e: Event)
    requires Leads(start, ss, run, sys) && WellFormed(sys, ss) && Enabled(sys, e)
    ensures Leads(start, ss, run + [e], Step(sys, ss, e))
  {
    RunOn(start, ss, run, e);
  }

  lemma {:induction false} LeadsOn(start: Sys, ss: seq<Settings>, run: seq<Event>, mid: Sys, more: seq<Event>, sys: Sys)
    requires Leads(start, ss, run, mid) && Leads(mid, ss, more, sys)
    ensures Leads(start, ss, run + more, sys)
    decreases |run|
  {
    if run == [] {
      assert run + more == more;
    } else {
      assert (run + more)[0] == run[0] && (run + more)[1..] == run[1..] + more;
      LeadsOn(Step(start, ss, run[0]), ss, run[1..], mid, more, sys);
    }
  }
}
