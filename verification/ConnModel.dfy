/** One connection as a value: what each handler makes of it, given the kernel's answers. */
module ConnModel {

  import opened NetUtil

  datatype Option<+T> = None | Some(value: T)

  datatype State = Closed | Connecting | Idle | Sending | Sent | Recving | Recved

  // The shared test data and one connection's fixed settings.
  datatype Settings = Settings(records: seq<seq<Byte>>, readMax: nat,
                               sleepMin: nat, sleepMax: nat, retry: bool, random: bool)
  {
    ghost predicate Valid() {
      && 0 < |records| < WORD32
      && (forall i :: 0 <= i < |records| ==> records[i] != [])
      && sleepMin <= sleepMax < WORD32
    }
  }

  // record and pos stand for the send buffer's three pointers. readStart is the address in read_buf.start; read_buf.end
  // is NULL in a pool fresh from zcalloc, and nothing assigns it later.
  datatype Conn = Conn(fd: int, requests: nat, testDataIndex: nat, record: nat, pos: nat,
                       readLen: int, head: seq<Byte>, readStart: nat,
                       active: bool, readyRead: bool, readyWrite: bool, state: State)

  datatype Interest = Unwatched | ForRead | ForWrite

  // One socket: the bytes it took and gave, the records begun on it, the responses completed on it, and how many bytes
  // it had given when the last of them was complete.
  datatype Socket = Socket(taken: seq<Byte>, given: seq<Byte>, begun: seq<nat>, completed: nat, mark: nat)

  const FRESH := Socket([], [], [], 0, 0)

  // The kernel's side of a connection, and the history of its earlier sockets and of all requests started. refused
  // tells that the last attempt to dial got a socket which epoll_ctl then refused to watch.
  datatype Net = Net(open: bool, interest: Interest, sock: Socket, past: seq<Socket>, started: seq<nat>, refused: bool)

  datatype Link = Link(c: Conn, net: Net)

  // What the kernel and rand() answer during one handler call.
  datatype Took = Accepted(n: nat) | Busy | Broken
  datatype Gave = Chunk(bytes: seq<Byte>) | Again | Fault
  datatype Dial = NoSocket | OptionRefused | ConnectRefused | Dialled(fd: nat)
  datatype Answers = Answers(pick: nat, took: Took, gave: seq<Gave>, ctl: bool, dial: Dial, nap: nat)

  function Min(a: int, b: int): int {
    if a < b then a else b
  }

  function Decremented(requests: nat): nat {
    if requests == 0 then WORD32 - 1 else requests - 1
  }

  // epoll_ctl succeeds only when the operation fits: add when unwatched, modify when watched.
  predicate CtlFits(l: Link, ok: bool) {
    ok && l.net.open && (l.c.active <==> l.net.interest != Unwatched)
  }

  function AddReadEvent(l: Link, ok: bool): Link {
    if l.c.readyRead || !CtlFits(l, ok) then l
    else Link(l.c.(active := true, readyRead := true, readyWrite := false), l.net.(interest := ForRead))
  }

  function AddWriteEvent(l: Link, ok: bool): Link {
    if l.c.readyWrite || !CtlFits(l, ok) then l
    else Link(l.c.(active := true, readyWrite := true, readyRead := false), l.net.(interest := ForWrite))
  }

  // close on the kernel's side: the socket goes into history.
  function Hangup(net: Net): Net {
    if net.open then net.(open := false, interest := Unwatched, sock := FRESH, past := net.past + [net.sock]) else net
  }

  function CloseConnection(l: Link): Link {
    Link(l.c.(fd := -1, active := false, readyRead := false, readyWrite := false, state := Closed),
         if l.c.fd != -1 then Hangup(l.net) else l.net)
  }

  // start_connect: a socket watched for writing, or none.
  function StartConnect(l: Link, a: Answers): Link {
    var l := l.(net := l.net.(refused := false));
    match a.dial
    case NoSocket => l
    case OptionRefused => l
    case ConnectRefused => l
    case Dialled(fd) =>
      var dialled := Link(l.c.(fd := fd), l.net.(open := true, interest := Unwatched, sock := FRESH));
      var r := AddWriteEvent(dialled, a.ctl);
      if r.c.readyWrite then r.(c := r.c.(state := Connecting)) else r.(net := Hangup(r.net).(refused := true))
  }

  // An error or a hang-up: close, and dial again while retries are allowed and the budget is not used up.
  function Fail(l: Link, s: Settings, a: Answers): Link {
    var closed := CloseConnection(l);
    if !s.retry then closed
    else
      var spent := closed.(c := closed.c.(requests := Decremented(l.c.requests)));
      if l.c.requests > 0 then StartConnect(spent, a) else spent
  }

  // make_request: the next record, from its beginning.
  function MakeRequest(l: Link, s: Settings, a: Answers): Link
    requires s.Valid()
  {
    var n := |s.records|;
    var index := if s.random then a.pick % n else l.c.testDataIndex;
    var next := if s.random then l.c.testDataIndex else if l.c.testDataIndex + 1 == n then 0 else l.c.testDataIndex + 1;
    Link(l.c.(record := index, pos := 0, testDataIndex := next),
         l.net.(started := l.net.started + [index], sock := l.net.sock.(begun := l.net.sock.begun + [index])))
  }

  // What a send relies on: a record to send from, and more of it to send.
  predicate SendReady(c: Conn, s: Settings) {
    && c.testDataIndex < |s.records|
    && (c.state == Sending ==> c.record < |s.records| && c.pos < |s.records[c.record]|)
  }

  // From the send call on, if a request is being sent at all.
  function SendOn(l: Link, s: Settings, a: Answers): Link
    requires s.Valid() && SendReady(l.c, s)
  {
    if l.c.state != Sending then l
    else
      var record := s.records[l.c.record];
      var sendLen := |record| - l.c.pos;
      var n := if a.took.Accepted? then Min(a.took.n, sendLen) else -1;
      if n > 0 then
        var sock := l.net.sock.(taken := l.net.sock.taken + record[l.c.pos..l.c.pos + n]);
        var l := Link(l.c.(pos := l.c.pos + n), l.net.(sock := sock));
        if n < sendLen then AddWriteEvent(l.(c := l.c.(readyWrite := false)), a.ctl)
        else
          var l := AddReadEvent(l.(c := l.c.(state := Sent)), a.ctl);
          l.(c := l.c.(state := Recving, readLen := -4))
      else if n == 0 || a.took.Busy? then AddWriteEvent(l.(c := l.c.(readyWrite := false)), a.ctl)
      else Fail(l, s, a)
  }

  // handle_send_event.
  function HandleSend(l: Link, s: Settings, a: Answers): Link
    requires s.Valid() && SendReady(l.c, s)
  {
    SendOn(if l.c.state in {Connecting, Idle} then MakeRequest(l.(c := l.c.(state := Sending)), s, a) else l, s, a)
  }

  // A handler's effect: the connection, and the sleep it asks the timer queue for.
  datatype Outcome = Outcome(link: Link, nap: Option<nat>)

  function SleepMs(s: Settings, nap: nat): nat
    requires s.Valid()
  {
    if s.sleepMin == s.sleepMax then s.sleepMin else nap % (s.sleepMax - s.sleepMin + 1) + s.sleepMin
  }

  // handle_after_request.
  function HandleAfterRequest(l: Link, s: Settings, a: Answers): Outcome
    requires s.Valid() && SendReady(l.c.(state := Idle), s)
  {
    var spent := l.(c := l.c.(state := Idle, requests := Decremented(l.c.requests)));
    if l.c.requests == 0 then Outcome(CloseConnection(spent), None)
    else if s.sleepMin > 0 then Outcome(spent, Some(SleepMs(s, a.nap)))
    else Outcome(HandleSend(spent, s, a), None)
  }

  // Bytes landing at offset at of the 4-byte head.
  function PutHead(head: seq<Byte>, at: nat, bytes: seq<Byte>): (r: seq<Byte>)
    requires |head| == 4 && at + |bytes| <= 4
    ensures |r| == 4 && r[..at + |bytes|] == head[..at] + bytes
  {
    head[..at] + bytes + head[at + |bytes|..]
  }

  // How the recv loop ends: a whole response, an error or end of stream, or nothing more to read for now.
  datatype Ending = Whole | Failed | Starved

  // All the recv loop changes: the head, the stored read length and the bytes read from the socket.
  datatype Progress = Progress(head: seq<Byte>, stored: int, given: seq<Byte>)

  // Where the recv loop is with its two local variables: short of the head by size bytes, or of the body, with readLen
  // 4 above what is still wanted. Every write to the head then falls inside it.
  predicate OnCourse(readLen: int, size: nat) {
    if readLen < 0 then -4 <= readLen && size == -readLen else size > 0 && readLen == size + 4
  }

  // The recv loop, with its two local variables; the kernel has nothing more to give when its answers run out.
  function ReadLoop(p: Progress, readMax: nat, gave: seq<Gave>, readLen: int, size: nat): (r: (Progress, Ending))
    requires |p.head| == 4 && OnCourse(readLen, size)
    ensures |r.0.head| == 4
    decreases |gave|
  {
    if gave == [] || gave[0].Again? then (p, Starved)
    else
      var n := if gave[0].Chunk? then Min(|gave[0].bytes|, size) else -1;
      if n <= 0 then (p, Failed)
      else
        var bytes := gave[0].bytes[..n];
        var head := if readLen < 0 then PutHead(p.head, 4 + readLen, bytes) else p.head;
        var given := p.given + bytes;
        if n < size then
          var rest := if readLen < 0 then readLen + n else readLen - n;
          ReadLoop(Progress(head, rest, given), readMax, gave[1..], rest, size - n)
        else if readLen < 0 then
          var length := ReadInt(head);
          if length <= 4 || length >= readMax then (Progress(head, p.stored, given), Failed)
          else ReadLoop(Progress(head, length, given), readMax, gave[1..], length, length - 4)
        else (Progress(head, p.stored, given), Whole)
  }

  const NULL: int := 0
  const SIZE_T: nat := 0x1_0000_0000_0000_0000

  // What recv is asked for first: the rest of the head, or what the pointers say is left of the body.
  function ReadSize(c: Conn): nat {
    if c.readLen < 0 then -c.readLen else (NULL - c.readStart - c.readLen) % SIZE_T
  }

  // What the read handler counts on: it is not asked to take up a body that was cut short before.
  predicate ReadReady(c: Conn) {
    |c.head| == 4 && (c.state == Recving ==> -4 <= c.readLen < 0)
  }

  function ProgressOf(l: Link): Progress {
    Progress(l.c.head, l.c.readLen, l.net.sock.given)
  }

  function Reached(l: Link, p: Progress): Link {
    Link(l.c.(head := p.head, readLen := p.stored), l.net.(sock := l.net.sock.(given := p.given)))
  }

  // What follows the recv loop.
  function FinishRead(m: Link, ending: Ending, s: Settings, a: Answers): Outcome
    requires s.Valid() && SendReady(m.c.(state := Idle), s)
  {
    match ending
    case Whole =>
      var sock := m.net.sock.(completed := m.net.sock.completed + 1, mark := |m.net.sock.given|);
      HandleAfterRequest(Link(m.c.(state := Recved), m.net.(sock := sock)), s, a)
    case Failed => Outcome(Fail(m, s, a), None)
    case Starved => Outcome(AddReadEvent(m.(c := m.c.(readyRead := false)), a.ctl), None)
  }

  // handle_read_event.
  function HandleRead(l: Link, s: Settings, a: Answers): Outcome
    requires s.Valid() && SendReady(l.c, s) && ReadReady(l.c)
  {
    if l.c.state != Recving then Outcome(l, None)
    else
      var (p, ending) := ReadLoop(ProgressOf(l), s.readMax, a.gave, l.c.readLen, ReadSize(l.c));
      FinishRead(Reached(l, p), ending, s, a)
  }

  function HandleClose(l: Link, s: Settings, a: Answers): Link {
    Fail(l, s, a)
  }

  function HandleTimer(l: Link, s: Settings, a: Answers): Link
    requires s.Valid() && SendReady(l.c, s)
  {
    if l.c.state == Idle then HandleSend(l, s, a) else l
  }

  const UNUSED := Conn(-1, 0, 0, 0, 0, 0, [0, 0, 0, 0], 0, false, false, false, Closed)

  // A connection as create_connection_pool leaves it, with a budget of requests.
  function Fresh(requests: nat, readStart: nat): Link {
    Link(UNUSED.(requests := requests, readStart := readStart), Net(false, Unwatched, FRESH, [], [], false))
  }
}
