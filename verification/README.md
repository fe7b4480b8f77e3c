# A verified model of the epoll load client

The program opens a pool of TCP connections, sends length-prefixed requests from a file of test data, waits for one
length-prefixed response to each, sleeps, and goes on until each connection has used up its budget of requests. A
single thread drives everything from `epoll_wait` and from a timer queue built on an intrusive red-black tree.

The model follows the source file by file, and keeps its form: the tree, the timer queue, the connection records, the
pool, the configuration and the allocator's counter are classes whose methods update fields in place; loops are loops.

| file | models |
|---|---|
| `RbTree.dfy`, `RedBlackTheory.dfy` | `ngx_rbtree.c`, `ngx_rbtree.h`: insertion, deletion, rotations, repairs, minimum, height |
| `Words.dfy`, `TimerModel.dfy`, `TimerQueue.dfy` | `ngx_event_timer.h`, `ngx_event_timer.c`: wrapped deadlines; the queue as a sorted list; the tree refining it |
| `ConnModel.dfy`, `Connections.dfy`, `Handlers.dfy` | `common.c`: every handler, as a function on values and as a method in place |
| `ConnInvariants.dfy`, `Effects.dfy`, `Reassembly.dfy` | what the handlers keep true; what each does to a connection, told from outside; how a response is put together |
| `SystemModel.dfy`, `Properties.dfy`, `Budget.dfy` | every connection, the queue and the clock together, over all runs |
| `Client.dfy`, `Startup.dfy`, `MainLoop.dfy` | the expiry loop, the dispatch of events, start-up and the loop of `test.c`, on the heap |
| `NetUtil.dfy`, `TestData.dfy` | `test_data/netutil.lua`, `test_data/make_test_data.lua`, `load_test_data` of `config.c` |
| `HexDump.dfy` | `FLog_log_hex` of `flog.c` |
| `Zmalloc.dfy` | `zmalloc.c`, the build with a size prefix |

The chain of results runs as follows. The heap tree is proved red-black and its in-order sequence is proved to change
by exactly one node at each operation. The timer queue is proved to equal a sorted list of unwrapped deadlines as long
as all of them are within half the clock's range. The client is proved to take exactly the steps of `SystemModel`, and
every step is proved to keep an invariant that, among other things, provides that range. `MainLoop.RunClient` puts the
pieces together: whatever the kernel answers, within the assumptions below, the state of the heap is a reachable state,
so every theorem of `Properties` holds of it.

## Assumptions

- The kernel is a parameter: `send` takes any part of what it is given, would block or fails; `recv` gives any part of
  what is asked for, nothing, would block or fails; `epoll_ctl` fails at will, and always when it is asked to add a
  watched socket or to modify an unwatched one; `socket`, `setsockopt` and `connect` fail at will.
- A response that ran dry inside its body (EAGAIN or EINTR after the head) is not read further: no later report makes
  the program call `handle_read_event` for it, though it may be hung up. On a further read the C asks `recv` for a size
  that has wrapped around, and as `read_len` sinks below -4 its cursor leaves the head buffer; none of that is
  modelled. The assumption is a condition of `SystemModel.Enabled` (`BodyCut`) and of `MainLoop.RunClient` (`Modelled`).
  `ConnInvariants.CutExactly` says which answers of the kernel bring a connection there, and no others do.
- Where body bytes land is not modelled. After a short read of a body the cursor stands at `start + (L - n)` instead of
  behind the n bytes read, so later bytes of a long body can pass the connection's share of the receive buffers; runs on
  which that overwrites other memory are outside the model.
- `epoll_wait` reports only sockets that are watched, reads and writes only to those watched for them, hang-ups at any
  time (`SystemModel.Enabled`, `MainLoop.EventOf`).
- The clock does not go back, and the time since the last expiry pass, plus 2^32 ms for the longest sleep, stays below
  2^63 ms. Machine words have 64 bits.
- A connection's `sleep_max` is not below its `sleep_min`, as `config.c:18` asks of the configuration. Test data is not
  empty, which `TestData.LoadedRecordsUsable` proves of everything the loader accepts.

## Where the code does less than it seems to

- A budget of R requests lets R + 1 be started. `Properties.RequestsBounded` proves the bound R + 1, and
  `Budgets.BudgetExactly` proves that all R + 1 can be started if and only if R is 0, or retries are allowed, or the
  shortest response, of 5 bytes, is below `read_max_buf_len`; sleeps make no difference.
- A response interrupted inside its body is never taken up again correctly. `Reassembly.BodyResumes` proves that the
  bytes are then counted rightly if and only if the size asked for is what is left; that size comes from
  `read_buf.end`, which stays NULL, and `Reassembly.NeverResumes` proves it wrong for every buffer in the lower half of
  the address space. `Budgets.CutIsReachable` gives a run that ends in such a state.
- A closed connection can keep the number of a closed socket: `Properties.StaleFd` and `Properties.NoStaleFd`.
- `load_test_data` warns about a range of 1 to 1000 records and accepts 1 to 10000; the model accepts 1 to 10000.

## Model

| member | source | states |
|---|---|---|
| RbTrees.RbTree.LeftRotate | ngx_rbtree.c:323-350 | the complete link map after the rotation; the stale parent of the root is never followed |
| RbTrees.RbTree.RightRotate | ngx_rbtree.c:353-380 | the mirror image |
| RbTrees.RbTree.LeftRotatedShape | ngx_rbtree.c:323-350 | after that link map the structure is again one search tree over the same in-order sequence |
| RbTrees.RbTree.FindSlot | ngx_rbtree.c:126-145 | the descent ends at a free place that separates the keys not later from the later ones; its steps form one downward walk |
| RbTrees.RbTree.InsertTimerValue | ngx_rbtree.c:120-152 | the new red leaf enters the in-order sequence after every key that is not later; only it may break a colour rule |
| RbTrees.RbTree.InsertFixLeft | ngx_rbtree.c:47-67 | each round keeps the repair invariant and makes progress, in all three cases |
| RbTrees.RbTree.InsertFixRight | ngx_rbtree.c:69-88 | the mirror image |
| RbTrees.RbTree.Insert | ngx_rbtree.c:22-92 | terminates with a valid red-black tree whose in-order sequence has exactly the new node added, behind all keys not later |
| RbTrees.RbTree.Min | ngx_rbtree.h:76-84 | returns the first node in order below the start, by one downward walk |
| RbTrees.RbTree.UnlinkRoot | ngx_rbtree.c:185-196 | deleting a root with at most one child leaves a valid tree although the child's parent link is stale |
| RbTrees.RbTree.UnlinkLower | ngx_rbtree.c:198-253 | node and nobody else leaves the sequence, through the successor if need be; the tree is valid or short of one black node at one place |
| RbTrees.RbTree.DeleteFixLeft | ngx_rbtree.c:259-286 | each round keeps the one-place shortage invariant and makes progress, in all four cases |
| RbTrees.RbTree.DeleteFixRight | ngx_rbtree.c:288-316 | the mirror image |
| RbTrees.RbTree.DeleteFixup | ngx_rbtree.c:255-319 | the repair terminates in a valid tree |
| RbTrees.RbTree.Delete | ngx_rbtree.c:155-320 | for any node: a valid tree whose in-order sequence is the old one without exactly that node, whose links and key are cleared |
| RbTrees.RbTree.ValidIsRedBlack | ngx_rbtree.c:11-14 | the links of a valid tree spell out a value tree with a black root, no red below red, equal black heights, and this in-order sequence |
| RedBlackTheory.HeightBound | ngx_rbtree.c:11-14 | a red-black tree of n nodes has height at most 2 log2(n + 1) |
| RbTrees.RbTree.WalkBound | ngx_rbtree.c:126-145 | so has every walk from the root, hence the insertion descent and the minimum search |
| Words.SignedDifference | ngx_rbtree.c:137-138 | within half the range the sign test on wrapped times is the real comparison |
| TimerModel.AddKeepsSorted | ngx_event_timer.h:91-103 | the list model stays sorted by deadline and arrival and gains exactly one entry |
| TimerModel.RemoveKeepsSorted | ngx_event_timer.h:40-60 | it stays sorted and loses exactly the entry of that connection |
| TimerModel.RearmMeets | ngx_event_timer.h:63-104 | afterwards one timer within 300 ms of the new deadline, exactly at it if none was set, nobody else's changed |
| TimerModel.RearmExactly | ngx_event_timer.h:63-104 | a timer less than 300 ms from the new deadline keeps its deadline, place and arrival; otherwise it is at exactly the new deadline, newly arrived, and every other entry is as before |
| TimerModel.SortedUnique | ngx_rbtree.c:135-149 | a sorted list is determined by its set of entries: arrival order among equal deadlines leaves no freedom |
| TimerModel.WaitingIsLeast | ngx_event_timer.c:50-72 | the wait is the minimum over all armed timers, nothing is due sooner, and something is due then |
| TimerQueues.TimerQueue.constructor | ngx_event_timer.c:26-47 | an empty queue |
| TimerQueues.TimerQueue.NearIsMonotone | ngx_rbtree.c:126-138 | with all deadlines in half the range, the wrapped comparison is monotone along the tree |
| TimerQueues.TimerQueue.PlaceIsCut | ngx_rbtree.c:126-145 | the tree's place for a key is the list's place for its deadline |
| TimerQueues.TimerQueue.CloseEnough | ngx_event_timer.h:79-86 | the wrapped lazy test is the real one on unwrapped deadlines |
| TimerQueues.TimerQueue.AddTimer | ngx_event_timer.h:63-104 | the tree after the call stands for the re-armed list, and timer_set for membership; a timer less than 300 ms from the new deadline leaves the tree and every key as they were, any other gets exactly the new deadline |
| TimerQueues.TimerQueue.DelTimer | ngx_event_timer.h:40-60 | the tree after the call stands for the list without that connection's timer |
| TimerQueues.TimerQueue.FindTimer | ngx_event_timer.c:50-72 | returns the list's wait, and the infinite value only for an empty tree |
| ConnInvariants.StartConnectInv | common.c:65-107 | dialling keeps the connection invariant and ends closed or connecting, never waiting for an event nobody will send |
| ConnInvariants.MakeRequestInv | common.c:249-267 | starting a request keeps rotation, cursor and budget invariants |
| ConnInvariants.TakeInStep | common.c:285-303 | n more accepted bytes leave the stream cut at the cursor, or whole at the end of the record |
| ConnInvariants.FailInv | common.c:414-425 | closing and retrying keeps the invariant, the budget included |
| ConnInvariants.SendInv | common.c:269-331 | the send handler keeps the invariant under every answer of the kernel, and never leaves the connection idle |
| ConnInvariants.AfterRequestInv | common.c:217-247 | a completed request ends in sleep, in the next request or closed, with requests and responses in step |
| ConnInvariants.ReadInv | common.c:334-426 | the read handler, begun inside the head, keeps the invariant under every sequence of answers, the read cursor and the framing of the bytes received included; a sleep is asked for only when going idle, within the configured range |
| Effects.SendMeets | common.c:269-331 | from connecting, idle or sending, the socket is lost exactly if send fails for good; if it would block or takes nothing, the connection keeps descriptor, record, cursor and stream and waits to write; taken bytes advance cursor and stream alike, and the last of them leads to awaiting the response |
| Effects.AnyRecord | common.c:253-255 | in random mode every record can be the next request |
| Effects.HangUpMeets | common.c:428-441 | after a hang-up the connection is being dialled again, on the number the dial returned, if and only if retries are allowed, budget is left and the dial works; it costs one request exactly if retries are allowed and budget is left |
| Effects.ReadMeets | common.c:334-426 | what reading does to connection, socket and budget: waiting keeps everything but the bytes read; failing is a loss as after a hang-up; a whole response closes a spent budget, goes to sleep, or sends the next request |
| Effects.AnySleep | common.c:233-238 | every length of sleep from sleep_min to sleep_max can come up |
| Effects.TimerMeets | common.c:443-457 | an idle connection begins its next request; any other is left as it is |
| ConnInvariants.CutExactly | common.c:346-407 | one call leaves a body cut short if and only if the answers complete an acceptable head and then run dry before the end of its body |
| Reassembly.LoopGathers | common.c:355-412 | one call of the handler, begun anywhere inside the head, reads exactly the rest of the head and then what there is of the body it announces; it ends whole, failed or waiting as an independent account of the answers says |
| Reassembly.PiecesRead | common.c:355-412 | for a head and a body arriving in any pieces: the call ends whole exactly with the last byte announced, fails on an unacceptable length, and otherwise waits or fails as the next answer is EAGAIN or not |
| Reassembly.WindowLeft | common.c:376-407 | the loop ends waiting with a body begun exactly for the answers named |
| Reassembly.FramedOnce | common.c:376-389 | bytes can be cut into whole responses in only one way |
| Reassembly.BodyResumes | common.c:350-374 | as for the number of bytes, and for every sequence of answers, a body with m bytes missing is taken up correctly if and only if recv is asked for exactly m |
| Reassembly.ResumeIsRead | common.c:355-412 | asked for what is missing, the resumed loop is the same loop |
| Reassembly.NeverResumes | common.c:350-353 | with read_buf.end NULL and the buffer in the lower half of the address space, the size asked for is never what is missing |
| SystemModel.LiveKeysComparable | ngx_event_timer.c:95-97 | in every invariant state all live deadlines are within half the range, so wrapped order is real order and the expiry test is exact, across counter wrap-around |
| SystemModel.FireInv | ngx_event_timer.c:97-152 | firing the first timer keeps the system invariant |
| SystemModel.PassMeets | ngx_event_timer.c:75-158 | one pass fires exactly the leading timers due by now, in deadline and arrival order, and leaves the rest of the list as it was |
| SystemModel.PassSplits | ngx_event_timer.c:75-158 | a connection fires in the pass if and only if its deadline has come, none twice, and exactly the future deadlines stay armed |
| SystemModel.StepInv | common.c:17-457 | every enabled event, handler call, clock step or expiry pass, keeps the system invariant |
| SystemModel.RunInv | common.c:17-457 | so does every run of any length |
| Properties.StepMeets | common.c:269-457 | every event does to its connection what the handler must, nothing to any other, and touches timers only for a connection going to sleep |
| Properties.PassWakes | ngx_event_timer.c:97-152 | in a pass each connection fired, and no other, hears of its timer once, and begins a request if it was idle |
| SystemModel.BootInv | common.c:109-127 | start-up establishes it |
| Properties.RequestsBounded | common.c:217-226 | in every reachable state a connection with a budget of R has started at most R + 1 requests, whatever errors and retries |
| Budgets.BudgetExactly | common.c:217-226 | for all valid settings, sleeping or not, and every R, some run starts R + 1 requests if and only if R is 0, retries are allowed, or a response of 5 bytes is acceptable |
| Budgets.CutIsReachable | common.c:376-407 | with any settings that accept some response, a run ends with a body cut short, whose missing byte no further read would take up rightly |
| Properties.StreamsWellCut | common.c:249-310 | every socket took whole records and at most one proper prefix; without random mode the k-th request uses record k modulo their number, across reconnects |
| Properties.ResponsesFramed | common.c:334-395 | over all runs, with EAGAIN anywhere inside the head: what a socket gave is whole responses, as many as were completed and each exactly as long as its head says, and part of at most one more, whose head bytes are held in order; none of it is read before the request has been sent |
| Properties.CutNeverResumes | common.c:350-369 | in every reachable state with a body cut short, readLen - 4 bytes are missing, and the handler would not ask for that many |
| Properties.Lockstep | common.c:285-303 | while a response is awaited, the cursor is at the end of the record and exactly one more record than responses has gone out |
| Properties.NoLostWakeup | common.c:17-63 | if epoll_ctl never fails, every live connection is watched for what it waits for or has a timer, and its two ready flags are never both set |
| Properties.BootArmed | common.c:109-127 | that also holds right after start-up |
| Properties.ClosedForGood | common.c:129-143 | a connection found closed by the main loop never changes again |
| Properties.SleepIsSet | common.c:228-243 | going idle at T for s in the configured range sets a deadline within 300 ms of T + s, exactly T + s if no timer was armed |
| Properties.NotWokenEarly | common.c:443-452 | in one step, an idle connection stays as it is but for a hang-up or a pass at T + s - 299 or later, whatever stale timer it carried |
| Properties.SleepIsKept | common.c:228-243 | from going idle at T for s in the configured range, every run without a hang-up of the connection and without a pass at T + s - 299 or later leaves it exactly as it was |
| Properties.StaleFd | common.c:94-106 | in every reachable state a closed connection has a descriptor other than -1 exactly if its last attempt to dial got a socket that epoll_ctl refused |
| Properties.NoStaleFd | common.c:94-106 | if epoll_ctl works from start-up on, every closed connection has descriptor -1 |
| Connections.Connection.constructor | common.c:158-170 | a slot as the pool starts with it |
| Handlers.AddReadEventTo | common.c:17-39 | flags and kernel interest change together or not at all |
| Handlers.AddWriteEventTo | common.c:41-63 | the same for writing |
| Handlers.Connect | common.c:65-107 | in place, the connection becomes what StartConnect makes of it, which StartConnectInv is about |
| Handlers.Disconnect | common.c:129-143 | in place, the connection becomes what CloseConnection makes of it, its timer untouched |
| Handlers.HandleSendEvent | common.c:269-331 | refines the send handler that SendMeets and SendInv are about |
| Handlers.ReadLoopOnce | common.c:355-412 | the reading that LoopGathers is about is the recv loop taken round by round |
| Handlers.ReadAll | common.c:355-412 | the recv loop with its two local counters refines the reading that LoopGathers is about, every write to the head staying inside it |
| Handlers.AfterRequest | common.c:217-247 | refines the step that AfterRequestInv is about |
| Handlers.HandleReadEvent | common.c:334-426 | refines the read handler that ReadMeets and ReadInv are about, for a connection not cut short in a body, and re-arms the timer exactly when it goes to sleep |
| Handlers.HandleCloseEvent | common.c:428-441 | refines the hang-up handler that HangUpMeets and FailInv are about |
| Handlers.HandleTimerEvent | common.c:443-457 | resumes only an idle connection and sets no timer |
| Clients.Client.TimerSetIsArmed | ngx_event_timer.h:71-104 | timer_set holds exactly for the connections that have a timer, stale timers included |
| Clients.Client.OnReadable | common.c:334-426 | the heap takes the abstract read step, keeping every invariant, unless a body was cut short |
| Clients.Client.OnWritable | common.c:269-331 | the heap takes the abstract write step |
| Clients.Client.OnHungUp | common.c:428-441 | the heap takes the abstract hang-up step |
| Clients.Client.UpdateTime | ngx_event_timer.c:161-174 | the heap takes the abstract clock step |
| Clients.Client.ExpireOne | ngx_event_timer.c:83-155 | one round fires the list's first timer if it is due, and otherwise changes nothing |
| Clients.Client.ExpireTimers | ngx_event_timer.c:75-158 | the loop terminates, takes the abstract pass, and fires its connections in its order |
| Startup.CreateConnectionPool | common.c:145-179 | a pool of distinct, closed connections, each with its own node, its whole budget and its own receive buffer 1024 bytes after the one before, and an empty queue |
| Startup.StartAllConnections | common.c:109-127 | every connection, and not just the first, is being set up on the socket the kernel gave if socket, connect and epoll_ctl all worked, and closed with its budget whole otherwise; success exactly if one is being set up |
| MainLoop.Dispatch | common.h:122-125 | a readable report of a connection watched for reading reaches the read handler, a writable one watched for writing the send handler, any other report of a watched connection the hang-up handler, and nothing else happens (lines 92 to 119 of test.c) |
| MainLoop.DispatchAll | common.h:122-125 | all reports of one wait are handled, in order, each in the state the earlier ones left; if each fits its connection there is exactly one handler call for each |
| MainLoop.RunRound | ngx_event_timer.c:50-174 | one round (lines 57 to 124 of test.c) is the run of the clock, every report in order, and a pass exactly when the clock has moved; it stops exactly without reports and timers, and ends with the expiry window moved up to now |
| MainLoop.Loop | ngx_event_timer.c:50-174 | any number of rounds (lines 57 to 124 of test.c) is exactly the run of SystemModel they call for, clock, reports and passes of every round in order, after which no armed timer is overdue |
| MainLoop.RunClient | common.c:109-179 | from an empty heap on, through start-up and the main loop (lines 36 to 124 of test.c), and as long as no body cut short is read on, every state left is reachable in the sense Properties speaks of, and reports fit for their connections are all played out |
| NetUtil.PackUnpack | test_data/netutil.lua:63-69 | unpacking a packed 32-bit number gives it back |
| NetUtil.UnpackPack | test_data/netutil.lua:63-69 | packing an unpacked 4-byte string gives it back |
| NetUtil.BigEndian | test_data/netutil.lua:40-65 | packed numbers stand most significant byte first |
| TestData.MakeTestData | test_data/make_test_data.lua:22-32 | the file is the big-endian count and the framed strings, in order |
| TestData.Config.LoadTestData | config.c:131-193 | succeeds exactly when the file is acceptable, and then holds exactly its frames |
| TestData.LoadExactly | config.c:130-193 | a file loads as given frames if and only if it begins with their count and their concatenation, all within the limits |
| TestData.RoundTrip | test_data/make_test_data.lua:22-32 | loading what the script writes gives every string back, framed, for 1 to 10000 strings of 1 to 102396 bytes |
| TestData.LoadedRecordsUsable | config.c:151-176 | whatever is loaded satisfies what the connections assume of test data |
| HexDump.LogHex | flog.c:311-396 | prints one full row for each 16 bytes and a last one for the rest, each of the exact layout, although the buffer is reused |
| HexDump.DumpDecodes | flog.c:341-393 | every row is 78 characters without a NUL, and reading the hex columns back in order gives the data |
| HexDump.DumpShows | flog.c:348-358 | byte k stands in row k / 16 at its column, in upper-case hex and as it prints, with a dot for what does not |
| HexDump.DumpEnds | flog.c:383-391 | after the last byte the last row is blank |
| HexDump.RowNumbered | flog.c:341-345 | each row begins with its number in hex |
| HexDump.RowUnique | flog.c:364-392 | row number and bytes determine every character, so nothing of an earlier row can show through |
| Zmalloc.TotalWithout | zmalloc.c:191-203 | the sum of zmalloc_size over live blocks does not depend on the order in which they are counted |
| Zmalloc.Zmalloc.Alloc | zmalloc.c:134-146 | adds a live block and keeps the counter equal to that sum |
| Zmalloc.Zmalloc.Realloc | zmalloc.c:162-189 | replaces a live block and keeps the equality, although both updates leave out the prefix |
| Zmalloc.Zmalloc.Free | zmalloc.c:205-221 | removes a live block and keeps the equality |
| Zmalloc.Use | zmalloc.c:134-221 | after any sequence of calls the live blocks are those the calls leave, and the counter is the sum of zmalloc_size over them |
| Zmalloc.CallsUndone | zmalloc.c:134-221 | freeing undoes allocating, moving is allocating anew, and calls with dead pointers or taken places leave the blocks alone |

## Left out

- ConnInvariants.ReadInv: requires that a body cut short earlier is not read on; where body bytes are placed in memory is not modelled (see Assumptions).
- Reassembly.BodyResumes: counts bytes only; even with the right size the C would put the rest of a body at `start + (L - n)`.
- HexDump.LogHex: only for data below 2^20 bytes, since the row number is printed with a table of 16 digits; the level and file tests are one flag, and isgraph is the one of the C locale.
- TestData.Config.LoadTestData: what a failed load leaves behind is not stated; buffers are sequences of bytes.
- Handlers.AfterRequest: its last action, setting the timer, is done by the caller from the sleep it returns, because the timer queue is another class.
- Handlers.ReadAll: requires a read cursor on course, inside the head or 4 above what is missing of the body, which the invariant provides.
- Zmalloc.Zmalloc.Alloc: addresses come from the caller as any fresh non-null number; zcalloc keeps the same account and is the same method.
- Finding a connection from its timer node by pointer arithmetic is a field of the node naming the connection's place in the pool.
- Edge-triggered notification: only the interest armed in the kernel is modelled, not whether data that arrived earlier is reported again.
- `ngx_rbtree_insert_value`, which the timer tree does not use and whose order is simpler.
- `make_test_config`, `make_tmp_test_data`, `config.h`, which only copy fields.
- `FLog_vlog`, log files and dates, `clean_all_resource`, signal handling, file descriptor leaks: input and output only.
- The jemalloc build of `zmalloc.c`, its out-of-memory handler and `zstrdup`.
- `clock` and `rand` are parameters of the steps that use them.
