/** The running client: the pool, the timer queue and the main loop, kept equal to SystemModel. */
module Clients {
  import opened Words
  import opened NetUtil
  import opened RbTrees
  import opened TimerModel
  import opened ConnModel
  import opened ConnInvariants
  import opened SystemModel
  import opened Connections
  import opened Handlers
  import opened TimerQueues

  // The pool of connections and the timer queue, refining SystemModel step by step; settings, budgets, naps and since
  // exist for that comparison only.
  class Client {
    const pool: seq<Connection>
    const queue: TimerQueue
    ghost const settings: seq<Settings>
    ghost const budgets: seq<nat>
    ghost var naps: seq<Nap>
    ghost var since: int

    constructor (pool: seq<Connection>, queue: TimerQueue, ghost settings: seq<Settings>, ghost budgets: seq<nat>)
      ensures this.pool == pool && this.queue == queue && this.settings == settings && this.budgets == budgets
      ensures naps == seq(|pool|, i => Nap(0, 0)) && since == 0
    {
      this.pool, this.queue, this.settings, this.budgets := pool, queue, settings, budgets;
      naps, since := seq(|pool|, i => Nap(0, 0)), 0;
    }

    // Slot i carries node i, and its timer_set flag says whether that node is in the tree.
    ghost predicate Slot(i: nat)
      requires i < |pool| == |settings|
      reads pool, queue.tree
    {
      && pool[i].settings == settings[i] && pool[i].timer.owner == i && pool[i].timer != queue.tree.sentinel
      && (pool[i].timerSet <==> pool[i].timer in queue.tree.Nodes)
    }

    // A node in the tree is the one embedded in its owner's record.
    ghost predicate Embedded(n: RbNode)
    {
      n.owner < |pool| && n == pool[n.owner].timer
    }

    // Every slot and every node in the tree belong together.
    ghost predicate Consistent()
      reads pool, queue.tree
    {
      && |pool| == |settings|
      && (forall i: nat {:trigger Slot(i)} :: i < |pool| ==> Slot(i))
      && (forall i, j :: 0 <= i < j < |pool| ==> pool[i] != pool[j])
      && (forall n {:trigger Embedded(n)} :: n in queue.tree.Nodes ==> Embedded(n))
    }

    // Every node embedded in the pool.
    ghost function Embeds(): set<RbNode> {
      set i | 0 <= i < |pool| :: pool[i].timer
    }

    lemma NodesAreEmbedded()
      requires Consistent()
      ensures queue.tree.Nodes <= Embeds()
    {
      forall n | n in queue.tree.Nodes ensures n in Embeds() {
        assert Embedded(n);
      }
    }

    ghost function Links(): seq<Link>
      reads pool
    {
      seq(|pool|, i requires 0 <= i < |pool| reads pool => pool[i].Link())
    }

    // The client as a value of SystemModel.
    ghost function State(): Sys
      reads `naps, `since, pool, queue
    {
      Sys(Links(), naps, queue.timers, queue.now, since)
    }

    // The heap is in order, and the state it stands for keeps the system's invariant.
    ghost predicate Valid()
      reads `naps, `since, pool, queue, queue.tree, queue.tree.sentinel, queue.tree.Nodes
    {
      Consistent() && queue.Valid() && SysInv(State(), settings, budgets)
    }

    // timer_set holds exactly for the connections that have a timer.
    lemma TimerSetIsArmed(i: nat)
      requires Consistent() && queue.Valid() && i < |pool|
      ensures Slot(i) && (pool[i].timerSet <==> Has(queue.timers, i))
    {
      var entries, order := queue.timers.entries, queue.tree.order;
      assert Slot(i);
      if pool[i].timerSet {
        queue.NodeIsFound(pool[i].timer);
      }
      if Has(queue.timers, i) {
        var k := Find(entries, i);
        assert order[k] in queue.tree.Nodes && order[k].owner == i;
        assert Embedded(order[k]);
      }
    }

    // Only the record of connection i has changed, and not its timer_set flag.
    twostate lemma OnlyOneMoved(i: nat)
      requires i < |pool| && old(Consistent()) && pool[i].timerSet == old(pool[i].timerSet)
      requires unchanged(this) && unchanged(queue) && unchanged(queue.tree)
      requires forall j :: 0 <= j < |pool| && j != i ==> unchanged(pool[j])
      ensures Consistent()
      ensures State() == old(State()).(links := old(Links())[i := pool[i].Link()])
    {
      assert Links() == old(Links())[i := pool[i].Link()];
      forall j: nat | j < |pool| ensures Slot(j) {
        assert old(Slot(j));
      }
      forall n | n in queue.tree.Nodes ensures Embedded(n) {
        assert old(Slot(i));
      }
    }

    lemma SlotReady(i: nat)
      requires Valid() && i < |pool|
      ensures Slot(i) && pool[i].CanSend() && WellFormed(State(), settings) && State().links[i] == pool[i].Link()
      ensures HeadReady(pool[i].Link().c)
    {
      InvIsWellFormed(State(), settings, budgets);
      assert Slot(i);
      assert State().links[i] == pool[i].Link();
    }

    // The kernel reports connection i writable.
    method OnWritable(i: nat, a: Answers)
      requires Valid() && i < |pool| && Enabled(State(), Writable(i, a))
      modifies pool[i]
      ensures Valid() && WellFormed(old(State()), settings)
      ensures State() == Step(old(State()), settings, Writable(i, a))
    {
      SlotReady(i);
      StepInv(State(), settings, budgets, Writable(i, a));
      HandleSendEvent(pool[i], a);
      OnlyOneMoved(i);
    }

    // The kernel reports connection i hung up.
    method OnHungUp(i: nat, a: Answers)
      requires Valid() && i < |pool| && Enabled(State(), HungUp(i, a))
      modifies pool[i]
      ensures Valid() && WellFormed(old(State()), settings)
      ensures State() == Step(old(State()), settings, HungUp(i, a))
    {
      SlotReady(i);
      StepInv(State(), settings, budgets, HungUp(i, a));
      HandleCloseEvent(pool[i], a);
      OnlyOneMoved(i);
    }

    // Any sleep connection i may ask for fits the clock.
    lemma CanSleepAt(i: nat)
      requires Valid() && i < |pool|
      ensures CanSleep(pool[i], queue)
    {
      TimerSetIsArmed(i);
      SlotReady(i);
      assert SlotOk(State(), settings, budgets, i);
      var entries := queue.timers.entries;
      forall k | 0 <= k < |entries|
        ensures -HALF < entries[k].due - (queue.now + pool[i].settings.sleepMax)
        ensures entries[k].due - (queue.now + pool[i].settings.sleepMin) < HALF
      {
        assert entries[k] in entries;
        assert EntryOk(State(), entries[k]);
      }
    }

    // Connection i may have gone to sleep: its timer is armed then, and nothing else has moved.
    twostate lemma OnlyOneSettled(i: nat, new r: Outcome)
      requires i < |pool| && old(Consistent()) && Settled(pool[i], queue, r)
      requires unchanged(this) && queue.now == old(queue.now)
      requires forall j :: 0 <= j < |pool| && j != i ==> unchanged(pool[j])
      ensures Consistent()
      ensures State() == old(State()).(links := old(Links())[i := r.link], timers := queue.timers)
      ensures ToSettle(old(State()), i, r)
    {
      assert old(Slot(i)) && pool[i].timer.owner == i;
      assert Links() == old(Links())[i := pool[i].Link()];
      forall j: nat | j < |pool| ensures Slot(j) {
        assert old(Slot(j));
      }
      forall n | n in queue.tree.Nodes ensures Embedded(n) {
        assert old(Slot(i));
      }
    }

    // Of the step that settles r on connection i, only the nap is still to be recorded.
    ghost predicate ToSettle(before: Sys, i: nat, r: Outcome)
      reads `naps, `since, pool, queue
    {
      && i < |before.links|
      && State() == before.(links := before.links[i := r.link], timers := queue.timers)
      && queue.timers == if r.nap.Some? then Rearm(before.timers, i, queue.now + r.nap.value) else before.timers
    }

    // Notes the nap of connection i, completing the abstract step that before started.
    ghost method RecordNap(i: nat, r: Outcome, before: Sys)
      requires i < |before.links| == |before.naps| && ToSettle(before, i, r)
      modifies `naps
      ensures State() == Settle(before, i, r)
    {
      if r.nap.Some? {
        naps := naps[i := Nap(queue.now, r.nap.value)];
      }
    }

    // handle_read_event on connection i, with the timer it may set.
    method ReadOn(i: nat, a: Answers) returns (ghost r: Outcome)
      requires Consistent() && i < |pool| == |naps| && pool[i].Ready() && CanSleep(pool[i], queue)
      modifies `naps, pool[i], queue`timers, queue.tree, queue.tree.sentinel, pool[i].timer,
               queue.tree.Nodes`left, queue.tree.Nodes`right, queue.tree.Nodes`parent, queue.tree.Nodes`red,
               queue.tree.Nodes`at, queue.tree.Nodes`lo, queue.tree.Nodes`hi, queue.tree.Nodes`bh
      ensures r == HandleRead(old(pool[i].Link()), pool[i].settings, a)
      ensures Consistent() && queue.Valid()
      ensures State() == Settle(old(State()), i, r)
    {
      ghost var before := State();
      r := HandleReadEvent(pool[i], a, queue);
      OnlyOneSettled(i, r);
      RecordNap(i, r, before);
    }

    // The kernel reports connection i readable.
    method OnReadable(i: nat, a: Answers)
      requires Valid() && i < |pool| && Enabled(State(), Readable(i, a))
      modifies `naps, pool[i], queue`timers, queue.tree, queue.tree.sentinel, pool[i].timer,
               queue.tree.Nodes`left, queue.tree.Nodes`right, queue.tree.Nodes`parent, queue.tree.Nodes`red,
               queue.tree.Nodes`at, queue.tree.Nodes`lo, queue.tree.Nodes`hi, queue.tree.Nodes`bh
      ensures Valid() && WellFormed(old(State()), settings)
      ensures State() == Step(old(State()), settings, Readable(i, a))
    {
      SlotReady(i);
      StepInv(State(), settings, budgets, Readable(i, a));
      CanSleepAt(i);
      ghost var r := ReadOn(i, a);
    }

    // The clock moves on; with nothing armed, so does the start of the window of live deadlines.
    method UpdateTime(ghost t: int, msec: Word)
      requires Valid() && Enabled(State(), Clock(t)) && msec == Wrap(t)
      modifies `since, queue`currentMsec, queue`now
      ensures Valid() && WellFormed(old(State()), settings)
      ensures State() == Step(old(State()), settings, Clock(t))
    {
      InvIsWellFormed(State(), settings, budgets);
      ClockInv(State(), settings, budgets, t);
      queue.currentMsec := msec;
      queue.now := t;
      since := if queue.timers.entries == [] then t else since;
    }

    // The node at the head of the tree, whose timer is the first of the list.
    method FirstTimer() returns (node: RbNode, due: bool)
      requires Valid() && queue.tree.root != queue.tree.sentinel
      ensures node in queue.tree.Nodes && Embedded(node) && Slot(node.owner)
      ensures queue.timers.entries != [] && queue.timers.entries[0].id == node.owner
      ensures due <==> queue.timers.entries[0].due <= queue.now
    {
      ghost var path;
      node, path := queue.tree.Min(queue.tree.root);
      assert queue.tree.order[0] == node && Embedded(node) && Slot(node.owner);
      due := Signed(Wrap(node.key - queue.currentMsec)) <= 0;
      ghost var first := queue.timers.entries[0];
      assert first in queue.timers.entries;
      LiveKeysComparable(State(), settings, budgets, first, first);
    }

    // The timer of connection i leaves the queue, and nothing else changes.
    method Drop(i: nat)
      requires Consistent() && queue.Valid() && i < |pool| && pool[i].timer in queue.tree.Nodes
      modifies pool[i], queue`timers, queue.tree, queue.tree.sentinel, pool[i].timer,
               queue.tree.Nodes`left, queue.tree.Nodes`right, queue.tree.Nodes`parent, queue.tree.Nodes`red,
               queue.tree.Nodes`at, queue.tree.Nodes`lo, queue.tree.Nodes`hi, queue.tree.Nodes`bh
      ensures Consistent() && queue.Valid() && queue.tree.Nodes == old(queue.tree.Nodes) - {pool[i].timer}
      ensures State() == old(State()).(timers := Remove(old(queue.timers), i))
    {
      assert Slot(i);
      queue.DelTimer(pool[i]);
      OnlyOneDropped(i);
    }

    twostate lemma OnlyOneDropped(i: nat)
      requires i < |pool| && old(Consistent())
      requires pool[i].timer.owner == i && !pool[i].timerSet
      requires queue.tree.Nodes == old(queue.tree.Nodes) - {pool[i].timer}
      requires unchanged(this) && queue.now == old(queue.now)
      requires pool[i].Link() == old(pool[i].Link()) && forall j: nat :: j < |pool| && j != i ==> unchanged(pool[j])
      ensures Consistent() && State() == old(State()).(timers := queue.timers)
    {
      assert Links() == old(Links());
      assert old(Slot(i));
      forall j: nat | j < |pool| ensures Slot(j) {
        assert old(Slot(j));
      }
    }

    // One round of the expiry loop: the first timer leaves the tree and its connection hears of it.
    method FireFirst(i: nat, a: Answers)
      requires Consistent() && queue.Valid() && WellFormed(State(), settings) && i < |pool|
      requires pool[i].timer in queue.tree.Nodes && pool[i].CanSend()
      requires queue.timers.entries != [] && queue.timers.entries[0].id == i
      modifies pool[i], queue`timers, queue.tree, queue.tree.sentinel, pool[i].timer,
               queue.tree.Nodes`left, queue.tree.Nodes`right, queue.tree.Nodes`parent, queue.tree.Nodes`red,
               queue.tree.Nodes`at, queue.tree.Nodes`lo, queue.tree.Nodes`hi, queue.tree.Nodes`bh
      ensures Consistent() && queue.Valid() && queue.tree.Nodes == old(queue.tree.Nodes) - {pool[i].timer}
      ensures State() == Fired(old(State()), settings, [a])
    {
      ghost var before := State();
      Drop(i);
      assert Slot(i) && State().links[i] == pool[i].Link() == before.links[i];
      Resume(i, a);
      FiredIs(before, settings, a, State());
    }

    // Connection i hears of its timer.
    method Resume(i: nat, a: Answers)
      requires Consistent() && queue.Valid() && i < |pool| && pool[i].CanSend() && pool[i].settings == settings[i]
      modifies pool[i]
      ensures Consistent() && queue.Valid()
      ensures State() == old(State()).(links := old(Links())[i := HandleTimer(old(Links())[i], settings[i], a)])
    {
      HandleTimerEvent(pool[i], a);
      OnlyOneMoved(i);
    }

    // A pass of the expiry loop body, or the end of the loop.
    method ExpireOne(rest: seq<Answers>) returns (more: bool)
      requires Valid()
      modifies pool, queue`timers, queue.tree, queue.tree.sentinel, queue.tree.Nodes
      ensures Valid() && WellFormed(old(State()), settings) && queue.tree.Nodes <= old(queue.tree.Nodes)
      ensures more <==> old(queue.timers.entries) != [] && old(queue.timers.entries)[0].due <= queue.now
      ensures if more then State() == Fired(old(State()), settings, rest) else State() == old(State())
    {
      InvIsWellFormed(State(), settings, budgets);
      if queue.tree.root == queue.tree.sentinel {
        return false;
      }
      var node, due := FirstTimer();
      if !due {
        return false;
      }
      SlotReady(node.owner);
      FireInv(State(), settings, budgets, rest);
      ghost var before := State();
      var a := if rest == [] then QUIET else rest[0];
      FireFirst(node.owner, a);
      assert Fired(before, settings, [a]) == Fired(before, settings, rest);
      return true;
    }

    // The expiry loop; the pass ends when nothing due is left. goal is what the whole pass amounts to.
    method ExpireLoop(answers: seq<Answers>, ghost goal: (Sys, seq<nat>)) returns (ghost fired: seq<nat>)
      requires Valid() && goal == PassLoop(State(), settings, answers)
      modifies pool, queue`timers, queue.tree, queue.tree.sentinel, queue.tree.Nodes
      ensures Valid() && State() == goal.0 && fired == goal.1
    {
      fired := [];
      var rest := answers;
      ghost var sys := State();
      while true
        invariant Valid() && sys == State() && queue.tree.Nodes <= old(queue.tree.Nodes)
        invariant ToGo(sys, rest, fired, goal)
        decreases |sys.timers.entries|
      {
        ghost var before := sys;
        var more := ExpireOne(rest);
        sys := State();
        PassOnce(before, rest, fired, goal);
        if !more {
          break;
        }
        fired := fired + [before.timers.entries[0].id];
        rest := if rest == [] then [] else rest[1..];
      }
    }

    // Having fired some, the rest of the pass leads to goal.
    ghost predicate ToGo(sys: Sys, rest: seq<Answers>, fired: seq<nat>, goal: (Sys, seq<nat>)) {
      goal.0 == PassLoop(sys, settings, rest).0 && goal.1 == fired + PassLoop(sys, settings, rest).1
    }

    lemma PassOnce(sys: Sys, rest: seq<Answers>, fired: seq<nat>, goal: (Sys, seq<nat>))
      requires WellFormed(sys, settings) && ToGo(sys, rest, fired, goal)
      ensures var q := sys.timers.entries;
        if q != [] && q[0].due <= sys.now then
          ToGo(Fired(sys, settings, rest), if rest == [] then [] else rest[1..], fired + [q[0].id], goal)
        else goal.0 == sys && goal.1 == fired
    {
    }

    // ngx_event_expire_timers.
    method ExpireTimers(answers: seq<Answers>) returns (ghost fired: seq<nat>)
      requires Valid()
      modifies `since, pool, queue`timers, queue.tree, queue.tree.sentinel, queue.tree.Nodes
      ensures Valid() && WellFormed(old(State()), settings)
      ensures State() == Step(old(State()), settings, Pass(answers))
      ensures fired == PassLoop(old(State()), settings, answers).1
    {
      InvIsWellFormed(State(), settings, budgets);
      WholePassInv(State(), settings, budgets, answers);
      ghost var stepped := Step(State(), settings, Pass(answers));
      fired := ExpireLoop(answers, PassLoop(State(), settings, answers));
      since := queue.now;
      assert State() == stepped;
    }
  }
}
