/** A connection's record in the pool, and the system calls made on its socket. */
module Connections {
  import opened NetUtil
  import opened ConnModel
  import opened RbTrees

  // settings gathers what never changes: the test data and conf's constant fields; requests is conf->requests.
  class Connection {
    const settings: Settings
    const timer: RbNode
    var fd: int
    var requests: nat
    var testDataIndex: nat
    var record: nat
    var pos: nat
    var readLen: int
    var head: seq<Byte>
    var readStart: nat
    var active: bool
    var readyRead: bool
    var readyWrite: bool
    var timerSet: bool
    var state: State
    var net: Net

    // A slot as create_connection_pool fills it in.
    constructor (settings: Settings, timer: RbNode, requests: nat, readStart: nat)
      ensures this.settings == settings && this.timer == timer && !timerSet
      ensures Link() == Fresh(requests, readStart)
    {
      this.settings, this.timer := settings, timer;
      this.requests, this.readStart := requests, readStart;
      fd, testDataIndex, record, pos, readLen, head := -1, 0, 0, 0, 0, [0, 0, 0, 0];
      active, readyRead, readyWrite, timerSet, state := false, false, false, false, Closed;
      net := Net(false, Unwatched, FRESH, [], [], false);
    }

    function Link(): Link
      reads this
    {
      ConnModel.Link(Conn(fd, requests, testDataIndex, record, pos, readLen, head, readStart,
                          active, readyRead, readyWrite, state), net)
    }

    ghost predicate CanSend()
      reads this
    {
      settings.Valid() && SendReady(Link().c, settings)
    }

    ghost predicate Ready()
      reads this
    {
      CanSend() && ReadReady(Link().c)
    }
  }

  // epoll_ctl: adding fits an unwatched socket, modifying a watched one.
  method EpollCtl(c: Connection, modify_: bool, want: Interest, ok: bool) returns (ret: int)
    modifies c`net
    ensures ret == 0 || ret == -1
    ensures ret == 0 <==> ok && old(c.net.open) && (modify_ <==> old(c.net.interest) != Unwatched)
    ensures c.net == if ret == 0 then old(c.net).(interest := want) else old(c.net)
  {
    if ok && c.net.open && (modify_ <==> c.net.interest != Unwatched) {
      c.net := c.net.(interest := want);
      return 0;
    }
    return -1;
  }

  method Close(c: Connection)
    modifies c`net
    ensures c.net == Hangup(old(c.net))
  {
    c.net := Hangup(c.net);
  }

  // send: some of the bytes at the cursor, or -1 with EAGAIN, EINTR or an error.
  method SendBytes(c: Connection, len: nat, took: Took) returns (n: int)
    requires c.record < |c.settings.records| && c.pos + len <= |c.settings.records[c.record]|
    modifies c`net
    ensures n == if took.Accepted? then Min(took.n, len) else -1
    ensures c.net == (if n > 0 then old(c.net).(sock := old(c.net.sock).(taken :=
              old(c.net.sock.taken) + c.settings.records[c.record][c.pos..c.pos + n])) else old(c.net))
  {
    n := if took.Accepted? then Min(took.n, len) else -1;
    if n > 0 {
      c.net := c.net.(sock := c.net.sock.(taken :=
        c.net.sock.taken + c.settings.records[c.record][c.pos..c.pos + n]));
    }
  }

  // recv: at most size bytes; 0 at the end of the stream; -1 with EAGAIN, EINTR or an error.
  method RecvBytes(c: Connection, size: nat, gave: Gave) returns (n: int, bytes: seq<Byte>)
    modifies c`net
    ensures n == if gave.Chunk? then Min(|gave.bytes|, size) else -1
    ensures n > 0 ==> gave.Chunk? && bytes == gave.bytes[..n]
    ensures c.net == if n > 0 then old(c.net).(sock := old(c.net.sock).(given := old(c.net.sock.given) + bytes))
                     else old(c.net)
  {
    n, bytes := if gave.Chunk? then Min(|gave.bytes|, size) else -1, [];
    if n > 0 {
      bytes := gave.bytes[..n];
      c.net := c.net.(sock := c.net.sock.(given := c.net.sock.given + bytes));
    }
  }
}
