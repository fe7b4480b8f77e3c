/** The event handlers, updating a connection in place. */
module Handlers {
  import opened NetUtil
  import opened ConnModel
  import opened Connections
  import opened TimerModel
  import opened TimerQueues

  // add_read_event.
  method AddReadEventTo(c: Connection, ok: bool) returns (ret: int)
    modifies c`active, c`readyRead, c`readyWrite, c`net
    ensures c.Link() == AddReadEvent(old(c.Link()), ok)
    ensures ret == if c.readyRead then 0 else -1
  {
    if c.readyRead {
      return 0;
    }
    var ctl := EpollCtl(c, c.active, ForRead, ok);
    if ctl == -1 {
      return -1;
    }
    c.active := true;
    c.readyRead := true;
    c.readyWrite := false;
    return 0;
  }

  // add_write_event.
  method AddWriteEventTo(c: Connection, ok: bool) returns (ret: int)
    modifies c`active, c`readyRead, c`readyWrite, c`net
    ensures c.Link() == AddWriteEvent(old(c.Link()), ok)
    ensures ret == if c.readyWrite then 0 else -1
  {
    if c.readyWrite {
      return 0;
    }
    var ctl := EpollCtl(c, c.active, ForWrite, ok);
    if ctl == -1 {
      return -1;
    }
    c.active := true;
    c.readyWrite := true;
    c.readyRead := false;
    return 0;
  }

  // start_connect.
  method Connect(c: Connection, a: Answers) returns (ret: int)
    modifies c`fd, c`state, c`active, c`readyRead, c`readyWrite, c`net
    ensures c.Link() == StartConnect(old(c.Link()), a)
    ensures ret == 0 || ret == -1
    ensures if ret == 0 then c.state == Connecting else c.state == old(c.state)
  {
    c.net := c.net.(refused := false);
    match a.dial
    case NoSocket => return -1;
    case OptionRefused => return -1;
    case ConnectRefused => return -1;
    case Dialled(fd) =>
      c.fd := fd;
      c.net := c.net.(open := true, interest := Unwatched, sock := FRESH);
      var added := AddWriteEventTo(c, a.ctl);
      if added == -1 {
        Close(c);
        c.net := c.net.(refused := true);
        return -1;
      }
      c.state := Connecting;
      return 0;
  }

  // close_connection.
  method Disconnect(c: Connection)
    modifies c`fd, c`state, c`active, c`readyRead, c`readyWrite, c`net
    ensures c.Link() == CloseConnection(old(c.Link()))
  {
    if c.fd != -1 {
      Close(c);
      c.fd := -1;
    }
    c.active := false;
    c.readyRead := false;
    c.readyWrite := false;
    c.state := Closed;
  }

  // Lines shared by the three error paths: close, and dial again if a retry is left.
  method CloseAndRetry(c: Connection, a: Answers)
    modifies c`fd, c`requests, c`state, c`active, c`readyRead, c`readyWrite, c`net
    ensures c.Link() == Fail(old(c.Link()), c.settings, a)
  {
    Disconnect(c);
    if c.settings.retry {
      var had := c.requests;
      c.requests := Decremented(c.requests);
      if had > 0 {
        var ret := Connect(c, a);
      }
    }
  }

  // make_request.
  method PickRecord(c: Connection, a: Answers)
    requires c.settings.Valid() && c.testDataIndex < |c.settings.records|
    modifies c`record, c`pos, c`testDataIndex, c`net
    ensures c.Link() == MakeRequest(old(c.Link()), c.settings, a)
  {
    var index;
    if c.settings.random {
      index := a.pick % |c.settings.records|;
    } else {
      index := c.testDataIndex;
      c.testDataIndex := c.testDataIndex + 1;
      if c.testDataIndex == |c.settings.records| {
        c.testDataIndex := 0;
      }
    }
    c.record := index;
    c.pos := 0;
    c.net := c.net.(started := c.net.started + [index], sock := c.net.sock.(begun := c.net.sock.begun + [index]));
  }

  // From the send call of handle_send_event on.
  method PushRequest(c: Connection, a: Answers)
    requires c.CanSend() && c.state == Sending
    modifies c`fd, c`requests, c`pos, c`readLen, c`active, c`readyRead, c`readyWrite, c`state, c`net
    ensures c.Link() == SendOn(old(c.Link()), c.settings, a)
  {
    var sendLen := |c.settings.records[c.record]| - c.pos;
    var n := SendBytes(c, sendLen, a.took);
    if n > 0 {
      c.pos := c.pos + n;
      if n < sendLen {
        WaitToWrite(c, a);
        return;
      }
      AwaitResponse(c, a);
      return;
    }
    if n == 0 {
      WaitToWrite(c, a);
      return;
    }
    if a.took.Busy? {
      WaitToWrite(c, a);
      return;
    }
    CloseAndRetry(c, a);
  }

  // Lines shared by the three ways of having to send more later.
  method WaitToWrite(c: Connection, a: Answers)
    modifies c`active, c`readyRead, c`readyWrite, c`net
    ensures c.Link() == AddWriteEvent(old(c.Link()).(c := old(c.Link()).c.(readyWrite := false)), a.ctl)
  {
    c.readyWrite := false;
    var ret := AddWriteEventTo(c, a.ctl);
  }

  // The whole record is out: wait for the response.
  method AwaitResponse(c: Connection, a: Answers)
    modifies c`readLen, c`active, c`readyRead, c`readyWrite, c`state, c`net
    ensures var l := AddReadEvent(old(c.Link()).(c := old(c.Link()).c.(state := Sent)), a.ctl);
      c.Link() == l.(c := l.c.(state := Recving, readLen := -4))
  {
    c.state := Sent;
    var ret := AddReadEventTo(c, a.ctl);
    c.state := Recving;
    c.readLen := -4;
  }

  // handle_send_event.
  method HandleSendEvent(c: Connection, a: Answers)
    requires c.CanSend()
    modifies c`fd, c`requests, c`testDataIndex, c`record, c`pos, c`readLen,
             c`active, c`readyRead, c`readyWrite, c`state, c`net
    ensures c.Link() == HandleSend(old(c.Link()), c.settings, a)
  {
    if c.state == Connecting || c.state == Idle {
      c.state := Sending;
      PickRecord(c, a);
    }
    if c.state != Sending {
      return;
    }
    PushRequest(c, a);
  }

  // handle_timer_event.
  method HandleTimerEvent(c: Connection, a: Answers)
    requires c.CanSend()
    modifies c`fd, c`requests, c`testDataIndex, c`record, c`pos, c`readLen,
             c`active, c`readyRead, c`readyWrite, c`state, c`net
    ensures c.Link() == HandleTimer(old(c.Link()), c.settings, a)
  {
    if c.state == Idle {
      HandleSendEvent(c, a);
    }
  }

  // handle_close_event.
  method HandleCloseEvent(c: Connection, a: Answers)
    modifies c`fd, c`requests, c`state, c`active, c`readyRead, c`readyWrite, c`net
    ensures c.Link() == HandleClose(old(c.Link()), c.settings, a)
  {
    CloseAndRetry(c, a);
  }

  // What is left to read leads from p to goal.
  ghost predicate ToRead(p: Progress, readMax: nat, gave: seq<Gave>, readLen: int, size: nat,
                         goal: (Progress, Ending))
  {
    |p.head| == 4 && OnCourse(readLen, size) && ReadLoop(p, readMax, gave, readLen, size) == goal
  }

  // One round of the recv loop: the loop is over, or goes on with new values of its two local variables.
  datatype Round = Over(p: Progress, ending: Ending) | Next(p: Progress, readLen: int, size: nat)

  function OneRead(p: Progress, readMax: nat, answer: Gave, readLen: int, size: nat): (r: Round)
    requires |p.head| == 4 && OnCourse(readLen, size)
    ensures |r.p.head| == 4 && (r.Next? ==> answer.Chunk? && OnCourse(r.readLen, r.size))
  {
    if answer.Again? then Over(p, Starved)
    else
      var n := if answer.Chunk? then Min(|answer.bytes|, size) else -1;
      if n <= 0 then Over(p, Failed)
      else
        var bytes := answer.bytes[..n];
        var head := if readLen < 0 then PutHead(p.head, 4 + readLen, bytes) else p.head;
        if n < size then
          var rest := if readLen < 0 then readLen + n else readLen - n;
          Next(Progress(head, rest, p.given + bytes), rest, size - n)
        else if readLen < 0 then
          var length := ReadInt(head);
          if length <= 4 || length >= readMax then Over(Progress(head, p.stored, p.given + bytes), Failed)
          else Next(Progress(head, length, p.given + bytes), length, length - 4)
        else Over(Progress(head, p.stored, p.given + bytes), Whole)
  }

  lemma ReadLoopOnce(p: Progress, readMax: nat, gave: seq<Gave>, readLen: int, size: nat)
    requires |p.head| == 4 && OnCourse(readLen, size)
    ensures var r := OneRead(p, readMax, if gave == [] then Again else gave[0], readLen, size);
      ReadLoop(p, readMax, gave, readLen, size) ==
      if r.Over? then (r.p, r.ending) else ReadLoop(r.p, readMax, gave[1..], r.readLen, r.size)
  {
    if gave != [] && gave[0].Chunk? {
      var n := Min(|gave[0].bytes|, size);
      if n > 0 {
        var head := if readLen < 0 then PutHead(p.head, 4 + readLen, gave[0].bytes[..n]) else p.head;
        if n == size && readLen < 0 {
          assert 4 < ReadInt(head) < readMax ==> OnCourse(ReadInt(head), ReadInt(head) - 4);
        }
      }
    }
  }

  method ReadOnce(c: Connection, answer: Gave, readLen0: int, size0: nat)
    returns (over: bool, ending: Ending, readLen: int, size: nat)
    requires |c.head| == 4 && OnCourse(readLen0, size0)
    modifies c`head, c`readLen, c`net
    ensures var r := OneRead(ProgressOf(old(c.Link())), c.settings.readMax, answer, readLen0, size0);
      && c.Link() == Reached(old(c.Link()), r.p)
      && r == if over then Over(r.p, ending) else Next(r.p, readLen, size)
  {
    over, ending, readLen, size := true, Failed, readLen0, size0;
    var n, bytes := RecvBytes(c, size, answer);
    if n > 0 {
      if readLen < 0 {
        c.head := PutHead(c.head, 4 + readLen, bytes);
      }
      if n < size {
        readLen := if readLen < 0 then readLen + n else readLen - n;
        c.readLen := readLen;
        size := size - n;
        over := false;
        return;
      }
      if readLen < 0 {
        readLen := ReadInt(c.head);
        if readLen <= 4 || readLen >= c.settings.readMax {
          return;
        }
        c.readLen := readLen;
        size := readLen - 4;
        over := false;
        return;
      }
      ending := Whole;
      return;
    }
    if n == 0 {
      return;
    }
    if answer.Again? {
      ending := Starved;
    }
  }

  // The recv loop of handle_read_event; what follows it is the caller's. goal is what the loop amounts to.
  method ReadAll(c: Connection, gave: seq<Gave>, readLen0: int, size0: nat, ghost goal: (Progress, Ending))
    returns (ending: Ending)
    requires ToRead(ProgressOf(c.Link()), c.settings.readMax, gave, readLen0, size0, goal)
    modifies c`head, c`readLen, c`net
    ensures ending == goal.1 && c.Link() == Reached(old(c.Link()), goal.0)
  {
    var readLen: int, size: nat, k: nat := readLen0, size0, 0;
    while true
      invariant k <= |gave|
      invariant ToRead(ProgressOf(c.Link()), c.settings.readMax, gave[k..], readLen, size, goal)
      invariant c.Link() == Reached(old(c.Link()), ProgressOf(c.Link()))
      decreases |gave| - k
    {
      ReadLoopOnce(ProgressOf(c.Link()), c.settings.readMax, gave[k..], readLen, size);
      var answer := if k < |gave| then gave[k] else Again;
      var over;
      over, ending, readLen, size := ReadOnce(c, answer, readLen, size);
      if over {
        return;
      }
      k := k + 1;
    }
  }

  // The timers once connection id has gone to sleep for nap, if at all.
  function Timed(t: Timers, id: nat, now: int, nap: Option<nat>): Timers {
    if nap.Some? then Rearm(t, id, now + nap.value) else t
  }

  // What a handler left behind: the connection, and its timer re-armed if it went to sleep.
  twostate predicate Settled(c: Connection, q: TimerQueue, r: Outcome)
    reads c, q, q.tree
  {
    && c.Link() == r.link
    && q.timers == Timed(old(q.timers), c.timer.owner, q.now, r.nap)
    && q.tree.Nodes == (if r.nap.Some? then old(q.tree.Nodes) + {c.timer} else old(q.tree.Nodes))
    && c.timerSet == (r.nap.Some? || old(c.timerSet))
  }

  // The queue can take a timer of c for any sleep its settings allow.
  ghost predicate CanSleep(c: Connection, q: TimerQueue)
    reads c, q, q.tree, q.tree.sentinel, q.tree.Nodes
  {
    && q.Valid() && c.timer != q.tree.sentinel
    && (c.timerSet <==> c.timer in q.tree.Nodes) && (c.timerSet <==> Has(q.timers, c.timer.owner))
    && Room(q.timers, q.now, c.settings.sleepMin, c.settings.sleepMax)
  }

  // handle_after_request up to its last action, ngx_add_timer: the sleep to set, if any, goes back to the caller.
  method AfterRequest(c: Connection, a: Answers) returns (nap: Option<nat>)
    requires c.settings.Valid() && SendReady(c.Link().c.(state := Idle), c.settings)
    modifies c`fd, c`requests, c`testDataIndex, c`record, c`pos, c`readLen,
             c`active, c`readyRead, c`readyWrite, c`state, c`net
    ensures Outcome(c.Link(), nap) == HandleAfterRequest(old(c.Link()), c.settings, a)
  {
    c.state := Idle;
    var had := c.requests;
    c.requests := Decremented(c.requests);
    if had == 0 {
      Disconnect(c);
      return None;
    }
    var sleepMin := c.settings.sleepMin;
    if sleepMin > 0 {
      var sleepMax := c.settings.sleepMax;
      if sleepMin == sleepMax {
        return Some(sleepMin);
      }
      return Some(a.nap % (sleepMax - sleepMin + 1) + sleepMin);
    }
    HandleSendEvent(c, a);
    return None;
  }

  // What follows the recv loop of handle_read_event.
  method AfterReading(c: Connection, ending: Ending, a: Answers) returns (nap: Option<nat>)
    requires c.settings.Valid() && SendReady(c.Link().c.(state := Idle), c.settings)
    modifies c`fd, c`requests, c`testDataIndex, c`record, c`pos, c`readLen,
             c`active, c`readyRead, c`readyWrite, c`state, c`net
    ensures Outcome(c.Link(), nap) == FinishRead(old(c.Link()), ending, c.settings, a)
  {
    nap := None;
    match ending
    case Whole =>
      c.state := Recved;
      c.net := c.net.(sock := c.net.sock.(completed := c.net.sock.completed + 1, mark := |c.net.sock.given|));
      nap := AfterRequest(c, a);
    case Starved =>
      c.readyRead := false;
      var ret := AddReadEventTo(c, a.ctl);
    case Failed =>
      CloseAndRetry(c, a);
  }

  // What the first recv asks for.
  method FirstSize(c: Connection) returns (size: nat)
    ensures size == ReadSize(c.Link().c)
  {
    size := if c.readLen < 0 then -c.readLen else (NULL - c.readStart - c.readLen) % SIZE_T;
  }

  // handle_read_event up to the setting of a timer.
  method ReadSome(c: Connection, a: Answers) returns (nap: Option<nat>)
    requires c.Ready()
    modifies c`fd, c`requests, c`testDataIndex, c`record, c`pos, c`readLen, c`head,
             c`active, c`readyRead, c`readyWrite, c`state, c`net
    ensures Outcome(c.Link(), nap) == HandleRead(old(c.Link()), c.settings, a)
  {
    if c.state != Recving {
      return None;
    }
    var readLen := c.readLen;
    var size := FirstSize(c);
    ghost var goal := ReadLoop(ProgressOf(c.Link()), c.settings.readMax, a.gave, readLen, size);
    var ending := ReadAll(c, a.gave, readLen, size, goal);
    nap := AfterReading(c, ending, a);
  }

  method AddTimerFor(c: Connection, ms: nat, q: TimerQueue)
    requires CanSleep(c, q) && Near(q.timers, q.now + ms)
    modifies c`timerSet, q`timers, q.tree, q.tree.sentinel, c.timer, q.tree.Nodes`left, q.tree.Nodes`right,
             q.tree.Nodes`parent, q.tree.Nodes`red, q.tree.Nodes`at, q.tree.Nodes`lo, q.tree.Nodes`hi, q.tree.Nodes`bh
    ensures q.Valid() && q.timers == Timed(old(q.timers), c.timer.owner, q.now, Some(ms))
    ensures c.timerSet && q.tree.Nodes == old(q.tree.Nodes) + {c.timer}
  {
    ghost var timed := Timed(q.timers, c.timer.owner, q.now, Some(ms));
    assert timed == Rearm(q.timers, c.timer.owner, q.now + ms);
    q.AddTimer(c, ms);
  }

  // The last action of handle_after_request.
  method SetTimer(c: Connection, ms: nat, q: TimerQueue)
    requires CanSleep(c, q) && c.settings.sleepMin <= ms <= c.settings.sleepMax
    modifies c`timerSet, q`timers, q.tree, q.tree.sentinel, c.timer, q.tree.Nodes`left, q.tree.Nodes`right,
             q.tree.Nodes`parent, q.tree.Nodes`red, q.tree.Nodes`at, q.tree.Nodes`lo, q.tree.Nodes`hi, q.tree.Nodes`bh
    ensures q.Valid() && Settled(c, q, Outcome(old(c.Link()), Some(ms)))
  {
    RoomIsNear(q.timers, q.now, c.settings.sleepMin, c.settings.sleepMax, ms);
    AddTimerFor(c, ms, q);
  }

  method SetTimerIfAny(c: Connection, nap: Option<nat>, q: TimerQueue)
    requires CanSleep(c, q) && (nap.Some? ==> c.settings.sleepMin <= nap.value <= c.settings.sleepMax)
    modifies c`timerSet, q`timers, q.tree, q.tree.sentinel, c.timer, q.tree.Nodes`left, q.tree.Nodes`right,
             q.tree.Nodes`parent, q.tree.Nodes`red, q.tree.Nodes`at, q.tree.Nodes`lo, q.tree.Nodes`hi, q.tree.Nodes`bh
    ensures q.Valid() && Settled(c, q, Outcome(old(c.Link()), nap))
  {
    if nap.Some? {
      SetTimer(c, nap.value, q);
    }
  }

  // handle_read_event, with the timer that handle_after_request may set at its end.
  method HandleReadEvent(c: Connection, a: Answers, q: TimerQueue) returns (ghost r: Outcome)
    requires c.Ready() && CanSleep(c, q)
    modifies c, q`timers, q.tree, q.tree.sentinel, c.timer, q.tree.Nodes`left, q.tree.Nodes`right, q.tree.Nodes`parent,
             q.tree.Nodes`red, q.tree.Nodes`at, q.tree.Nodes`lo, q.tree.Nodes`hi, q.tree.Nodes`bh
    ensures r == HandleRead(old(c.Link()), c.settings, a)
    ensures q.Valid() && Settled(c, q, r)
  {
    NapInRange(c.Link(), c.settings, a);
    var nap := ReadSome(c, a);
    r := Outcome(c.Link(), nap);
    SetTimerIfAny(c, nap, q);
  }

  lemma NapInRange(l: Link, s: Settings, a: Answers)
    requires s.Valid() && SendReady(l.c, s) && ReadReady(l.c)
    ensures var nap := HandleRead(l, s, a).nap;
      nap.Some? ==> s.sleepMin <= nap.value <= s.sleepMax
  {
  }
}
