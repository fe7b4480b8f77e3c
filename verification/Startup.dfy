/** Building the pool and dialling every connection once. */
module Startup {
  import opened RbTrees
  import opened TimerModel
  import opened ConnModel
  import opened ConnInvariants
  import opened SystemModel
  import opened Connections
  import opened Handlers
  import opened TimerQueues
  import opened Clients

  // Slot i as create_connection_pool leaves it.
  ghost predicate Made(c: Connection, s: Settings, link: Link, i: nat, sentinel: RbNode)
    reads c
  {
    c.settings == s && c.Link() == link && !c.timerSet && c.timer.owner == i && c.timer != sentinel
  }

  // create_connection_pool, with the empty timer queue: every slot closed, no timer armed. base is where zmalloc puts
  // the receive buffers.
  method CreateConnectionPool(settings: seq<Settings>, budgets: seq<nat>, base: nat) returns (client: Client)
    requires |settings| == |budgets|
    ensures fresh(client) && fresh(client.pool) && fresh(client.queue)
    ensures fresh(client.queue.tree) && fresh(client.queue.tree.sentinel) && fresh(client.Embeds())
    ensures client.Consistent() && client.queue.Valid() && client.settings == settings && client.budgets == budgets
    ensures client.State() == Undialled(budgets, base)
    ensures forall i :: 0 <= i < |settings| ==> Blank(client.Links()[i], budgets[i], base + 1024 * i)
  {
    var sentinel := new RbNode(0);
    var queue := new TimerQueue(sentinel);
    var pool: seq<Connection> := [];
    for i := 0 to |settings|
      invariant |pool| == i && queue.Valid() && queue.tree.Nodes == {} && queue.tree.sentinel == sentinel
      invariant queue.timers == Timers([], 0) && queue.now == 0
      invariant forall j :: 0 <= j < i ==> fresh(pool[j]) && fresh(pool[j].timer)
      invariant forall j :: 0 <= j < i ==> Made(pool[j], settings[j], FreshAt(budgets, base, j), j, sentinel)
      invariant forall j, k :: 0 <= j < k < i ==> pool[j] != pool[k]
    {
      var timer := new RbNode(i);
      var c := new Connection(settings[i], timer, budgets[i], base + i * BUFFER_STEP);
      pool := pool + [c];
    }
    client := new Client(pool, queue, settings, budgets);
  }

  // A slot nothing has happened to, its receive buffer at start.
  ghost predicate Blank(l: Link, budget: nat, start: nat) {
    && l.c.fd == -1 && l.c.requests == budget && l.c.testDataIndex == 0 && l.c.readStart == start
    && l.c.state == Closed && !l.c.active && !l.c.readyRead && !l.c.readyWrite
    && !l.net.open && l.net.past == [] && l.net.started == []
  }

  // The pool before anything is dialled.
  ghost function Undialled(budgets: seq<nat>, base: nat): Sys {
    Sys(seq(|budgets|, i requires 0 <= i < |budgets| => FreshAt(budgets, base, i)),
        seq(|budgets|, i => Nap(0, 0)), Timers([], 0), 0, 0)
  }

  // One connection after start-up: being set up on the socket the kernel gave, exactly if all went well, and closed
  // otherwise; its budget is whole.
  ghost predicate SetUp(l: Link, budget: nat, a: Answers) {
    && l.c.requests == budget && l.net.started == []
    && if a.dial.Dialled? && a.ctl then
         && l.c.state == Connecting && l.c.fd == a.dial.fd
         && l.net.open && l.net.interest == ForWrite && l.c.readyWrite && l.net.sock == FRESH
       else l.c.state == Closed && !l.net.open
  }

  lemma BootDials(ss: seq<Settings>, budgets: seq<nat>, base: nat, answers: seq<Answers>, i: nat)
    requires |ss| == |budgets| == |answers| && i < |ss|
    ensures i < |Boot(ss, budgets, base, answers).links|
    ensures SetUp(Boot(ss, budgets, base, answers).links[i], budgets[i], answers[i])
  {
  }

  // start_all_connection: succeeds if any connection could be dialled.
  method StartAllConnections(client: Client, ghost base: nat, answers: seq<Answers>) returns (ret: int)
    requires client.Consistent() && client.queue.Valid()
    requires |client.settings| == |client.budgets| == |answers|
    requires forall i :: 0 <= i < |client.settings| ==> client.settings[i].Valid()
    requires client.State() == Undialled(client.budgets, base)
    modifies client.pool
    ensures client.Valid() && client.State() == Boot(client.settings, client.budgets, base, answers)
    ensures forall i :: 0 <= i < |answers| ==> SetUp(client.Links()[i], client.budgets[i], answers[i])
    ensures ret == if exists i :: 0 <= i < |answers| && client.State().links[i].c.state == Connecting then 0 else -1
  {
    BootInv(client.settings, client.budgets, base, answers);
    forall i: nat | i < |answers|
      ensures SetUp(Boot(client.settings, client.budgets, base, answers).links[i], client.budgets[i], answers[i])
    {
      BootDials(client.settings, client.budgets, base, answers, i);
    }
    var ok := StartEach(client, base, answers);
    ret := if ok then 0 else -1;
  }

  method StartEach(client: Client, ghost base: nat, answers: seq<Answers>) returns (ok: bool)
    requires client.Consistent() && |client.settings| == |client.budgets| == |answers|
    requires client.Links() == Undialled(client.budgets, base).links
    modifies client.pool
    ensures client.Consistent() && client.Links() == Boot(client.settings, client.budgets, base, answers).links
    ensures ok <==> exists j :: 0 <= j < |answers| && client.Links()[j].c.state == Connecting
  {
    ok := false;
    ghost var links := client.Links();
    for i := 0 to |client.pool|
      invariant client.Consistent() && links == client.Links()
      invariant forall j :: 0 <= j < i ==> links[j] == StartConnect(FreshAt(client.budgets, base, j), answers[j])
      invariant forall j :: i <= j < |links| ==> links[j] == FreshAt(client.budgets, base, j)
      invariant ok <==> exists j :: 0 <= j < i && links[j].c.state == Connecting
    {
      var ret := StartOne(client, i, answers[i]);
      links := links[i := StartConnect(links[i], answers[i])];
      if ret == 0 {
        ok := true;
      }
    }
  }

  method StartOne(client: Client, i: nat, a: Answers) returns (ret: int)
    requires client.Consistent() && i < |client.pool|
    modifies client.pool[i]
    ensures client.Consistent()
    ensures client.Links() == old(client.Links())[i := StartConnect(old(client.Links())[i], a)]
    ensures ret == 0 ==> client.Links()[i].c.state == Connecting
    ensures ret != 0 ==> client.Links()[i].c.state == old(client.Links())[i].c.state
  {
    assert client.Links()[i] == client.pool[i].Link();
    ret := Connect(client.pool[i], a);
    client.OnlyOneMoved(i);
  }
}
