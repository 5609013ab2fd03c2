# Verified models of the network programs

Dafny models of the programs of this repository that are real state machines, with proofs
of what they promise over every run. `dafny verify dfyconfig.toml` checks everything.

| file | models |
|---|---|
| `Pump.dfy` | `str_cli` of C/nonblock_stream_client.c: the two-buffer non-blocking copy loop with half-close |
| `Echo.dfy` | `str_echo` of C/basic_tcp_server.c |
| `EchoLoop.dfy` | those two processes joined by bounded channels, one system call at a time |
| `Epoll.dfy`, `EpollServer.dfy` | the edge-triggered event loop of C/epoll_server.c, as a transition system and as its nested loops |
| `Watchdog.dfy`, `Heartbeat.dfy`, `TimedHeartbeat.dfy` | C/heartbeat_srv.c and C/heartbeat_cli.c: the handlers, the protocol without time, and the protocol against a clock |
| `Slots.dfy`, `SlotTable.dfy`, `CountedTable.dfy` | the client tables of C/select_srv_better.c and C/select_server.c |
| `QueueServer.dfy` | Python/select_server.py |
| `HttpRequest.dfy`, `HttpClient.dfy` | C/http_client.c: size computation, message, reader in the form of RFC 1945, and the build, send and receive loops |

## How the models are built

The kernel is a free choice. It decides which descriptors are ready, how many bytes a call
moves, when a call would block or fails, and when something arrives. Every program state is
a datatype; one system call, signal handler or loop round is a step. A step that is not
enabled leaves the state alone, so every sequence of steps is a run and a statement about
`Exec(start, acts)` for all `acts` is a statement about all reachable states.

Beside each specification stands a class or method in the shape of the source, with its
arrays, cursors and loops. Its `ensures` clauses equate the new state with the step
function applied to the old one, so that what is proved of the runs holds of the loops.

Assumptions, all of them about the world outside the programs:

- signal handlers run to completion; an urgent byte raises SIGURG on its own connection;
- channels are first-in first-out and lose nothing; end of stream comes after the data;
- `accept` returns a descriptor that is not open (in Python, a socket object never seen);
- a blocking write takes all it is given, as do the writes of the epoll server to
  standard output;
- `select` returns parts of the sets it was given, and its count is their size;
- an edge is queued when something arrives on a monitored descriptor, and when a descriptor
  with something to read is added; `epoll_wait` names a descriptor at most once;
- in the timed model alarms fire exactly on time and handlers take none.

Integers are unbounded.

## Where the code does not do what one might expect

Each of these is proved, and the positive result beside it says exactly when the code is right.

- `str_cli` may return with echoed bytes still in `fr` (`EchoLoop.OutputCanBeCutShort`):
  the return at end of file on the socket does not look at the window. Output is complete
  exactly when the window is empty there (`EchoLoop.OrderedClose`), which it always is if
  writes to standard output take all they are offered (`EchoLoop.FullWritesDeliver`). The
  `main` of that file calls `fork_str_cli` instead; `str_cli` is the one modelled.
- The accept loop of the epoll server also breaks on errors other than EAGAIN, and can then
  sleep for ever beside a waiting connection (`Epoll.ServerCanStall`, `Epoll.StallLasts`).
  `Epoll.AcceptFailureExact` says in which runs the listener keeps its wakeup.
- The heartbeat client's "maybe not start up" report can be switched off for good
  (`Heartbeat.NotUpCanGoDeaf`, `Heartbeat.DeafClientIsReachable`): the counter is only ever
  set back by the report, and it is compared for equality. From a reachable state the report
  can still be made exactly when the counter is not past the threshold
  (`Heartbeat.NotUpReportedExactly`).
- A full table in select_srv_better.c starves its clients while connections keep arriving
  (`SlotTable.FullTableStarves`, `SlotTable.StarvationIsReachable`); a round serves exactly
  the ready clients if and only if it refuses nobody or no client is ready
  (`SlotTable.ServesExactlyTheReady`).
- The scan of select_server.c is bounded by the connection count and can miss a client for
  ever (`CountedTable.BlindSpot`, `CountedTable.ServedExactly`).
- The Python server raises when a connection is closed in one loop of a round and listed in
  a later one (`QueueServer.RoundRaisesExactly`, `QueueServer.RaiseIsReachable`).
- The HTTP client's size computation is too small for an empty method without data, and a
  response of exactly 4095 bytes is rejected although it was stored whole
  (`HttpRequest.SizeSuffices`, `HttpClient.Receive`). The source's own question why 10 is
  added for Content-Length is answered by `HttpRequest.DataAlwaysFits`.
- The HTTP client adds its Content-Length beside one the caller passes as a header; the body
  can be found by its length exactly when the two agree (`HttpRequest.FramedExactly`).

## Model

| member | source | states |
|---|---|---|
| Pump.CursorsAndInterest | C/nonblock_stream_client.c:97-122 | in every reachable state both windows lie inside their 1024 bytes, an empty one is back at the start, and `select` waits for an input exactly while it has not ended and its buffer has room at the end and for an output exactly while its window is not empty, so never for nothing |
| Pump.NoReadWithoutRoom | C/nonblock_stream_client.c:106-112 | no read is made with an empty buffer, so a return of 0 is always end of file |
| Pump.StepKeepsInv | C/nonblock_stream_client.c:124-195 | every call keeps: read equals written plus window on both sides, and shutdown count 1 exactly when standard input has ended and `to` is empty |
| Pump.HalfClose | C/nonblock_stream_client.c:130-135 | against any peer, shutdown has been called once exactly when standard input has ended and all of it is written; after it no run reads standard input, writes to the socket or shuts down again |
| Pump.EndsExactly | C/nonblock_stream_client.c:124-195 | against any peer and kernel, the loop returns exactly when end of file is read on the socket after end of file on standard input, exits with "server terminated prematurely" exactly when it is read before, and exits on an error exactly when a call it makes fails |
| Pump.PassDoes | C/nonblock_stream_client.c:102-196 | what one pass reads joins the windows, and each window is offered to its descriptor in the same pass if `select` listed it or something has just been read into it |
| Pump.PassesAreRuns | C/nonblock_stream_client.c:102-196 | any number of passes of the loop is a run of single calls, so the run properties hold of the loop |
| Pump.StrCli.FillSets | C/nonblock_stream_client.c:103-122 | the descriptor sets built from the cursors are the ones the specification waits for |
| Pump.StrCli.StdinPhase | C/nonblock_stream_client.c:124-141 | reading standard input into the array at the in cursor appends to the window; end of file on an empty window shuts down |
| Pump.StrCli.SockPhase | C/nonblock_stream_client.c:143-162 | the same for the socket; end of file returns or exits prematurely by `stdineof` |
| Pump.StrCli.StdoutPhase | C/nonblock_stream_client.c:164-177 | a partial write advances the out cursor, a complete one resets both cursors |
| Pump.StrCli.SendPhase | C/nonblock_stream_client.c:179-195 | the same for the socket, with the delayed shutdown when the window empties after end of file |
| Pump.StrCli.Loop | C/nonblock_stream_client.c:102-196 | the whole loop against any script of kernel answers ends in the state the specification gives, and stops exactly at a return or an exit |
| Echo.ServeEchoes | C/basic_tcp_server.c:18-33 | the peer writes exactly what was sent before the first end of file, in order, and closes exactly if there was one |
| Echo.EchoServer.StrEcho | C/basic_tcp_server.c:13-34 | the loop over its buffer, with EINTR retried, does what the specification of the peer does |
| EchoLoop.ClientRunsInside | C/nonblock_stream_client.c:102-196 | the client's part of a run of the closed system is a run of the client |
| EchoLoop.Conservation | C/nonblock_stream_client.c:102-196 | in every reachable state of client, channels and peer, the input read is output, `fr` window, return channel, peer, forward channel and `to` window, concatenated in that order |
| EchoLoop.OrderedClose | C/nonblock_stream_client.c:149-156 | the premature exit is unreachable against the echo peer; at return the peer has echoed all of standard input and only the `fr` window is undelivered, so output is complete if and only if that window is empty |
| EchoLoop.FullWritesDeliver | C/nonblock_stream_client.c:164-177 | in every run whose writes to standard output take all they are offered, all of standard input is on standard output when the client returns |
| EchoLoop.OutputCanBeCutShort | C/nonblock_stream_client.c:149-153 | a run with no spurious answers on two bytes of input that returns having written only the first |
| EchoLoop.UsefulCallsAreBounded | C/nonblock_stream_client.c:124-195 | whatever the kernel does, at most six progressing calls per byte of input and three more |
| EchoLoop.NeverStuck | C/nonblock_stream_client.c:106-122 | deadlock freedom: with channels of capacity at least 1, in every reachable state short of the return some process can complete a call, and a client about to `select` finds a ready descriptor unless the peer can move |
| EchoLoop.HonestRunsTerminate | C/basic_tcp_server.c:18-33 | with an honest kernel and no fairness assumption every run has at most 60 calls per byte of input plus 35, and one that cannot go on has reached the normal return |
| EchoLoop.CanAlwaysReturn | C/nonblock_stream_client.c:149-156 | from every reachable state the normal return is reachable |
| Epoll.StepKeepsInv | C/epoll_server.c:129-257 | every call and arrival keeps the descriptor tables and the batch coherent and every connection with unread data covered by an edge or by the rest of the batch |
| Epoll.NoLostWakeup | C/epoll_server.c:129-257 | before every wait, each monitored connection with unread bytes or end of file has a queued edge, which lets epoll_wait return, in all runs; the listener with a backlog too, in all runs in which no failing accept has thrown its wakeup away |
| Epoll.AcceptFailureExact | C/epoll_server.c:160-174 | in every run, before a wait with connections in the backlog the listener has a queued edge if and only if no accept has failed with somebody waiting and no edge queued since the last arrival or error on the listener |
| Epoll.ServerCanStall | C/epoll_server.c:169-173 | a reachable state asleep with a connection in the backlog and no edge queued |
| Epoll.StallLasts | C/epoll_server.c:160-174 | once that has happened, nobody leaves the backlog in any continuation without another arrival or an error on the listener |
| Epoll.EventsAreLive | C/epoll_server.c:133-147 | the current and later events of a batch name open descriptors and still the connections they were raised for, even after accept reused a closed number |
| Epoll.NoBusyLoop | C/epoll_server.c:129-132 | in every run epoll_wait returns at most twice for each arrival, message, hangup or error outside the server |
| Epoll.IdleMeansServed | C/epoll_server.c:129-257 | whenever no edge is queued at a wait, every monitored connection has been read to the end of what arrived, and the backlog is empty unless a failing accept threw the wakeup away |
| Epoll.Delivered | C/epoll_server.c:212-254 | standard output has, per connection, exactly the bytes read from it in order, and all its bytes if it was closed because read returned 0 |
| EpollServer.Server.AcceptLoop | C/epoll_server.c:151-200 | for any answers and any interleaved arrivals the loop ends, is a run of the specification, and ends with an empty backlog unless a call of accept has failed in it |
| EpollServer.Server.ReadLoop | C/epoll_server.c:210-254 | the loop ends, is a run of the specification, and leaves the connection open with nothing to report, or closed after its end of file has been read, or closed because a call has failed in it |
| EpollServer.Server.ServeBatch | C/epoll_server.c:134-256 | the batch loop serves every event once, in order, as a run of the specification |
| EpollServer.Server.EventLoop | C/epoll_server.c:129-257 | after any number of rounds every connection with something to report has a queued edge, the listener with a backlog exactly when no failing accept threw its wakeup away, so always when no call fails; standard output holds what was read; and enough rounds for what has happened outside bring the server to a point where nothing is left to do |
| Watchdog.WatchdogHistory | C/heartbeat_srv.c:21-38 | the latch is "gone since the last heartbeat", the counter is the alarms since then modulo limit + 1, and an alarm reports exactly when the latch is clear and the count stands at the limit |
| Watchdog.WatchdogClosedForm | C/heartbeat_srv.c:32-38 | k undisturbed alarms make (e + k) / (limit + 1) reports and leave (e + k) % (limit + 1) |
| Watchdog.SilentUntilBeat | C/heartbeat_srv.c:92-94 | after a disconnection no alarm reports before the next heartbeat |
| Watchdog.Server.SigAlrm | C/heartbeat_srv.c:32-38 | the handler with its post-increment does the specified step and says whether it reported |
| Watchdog.Server.SigUrg | C/heartbeat_srv.c:21-31 | answers only the byte 'c' and clears counter and latch for any byte |
| Heartbeat.OneToken | C/heartbeat_cli.c:54-69 | got_reply, heartbeats in flight and replies in flight add up to at most 1 in every reachable state, to exactly 1 on a connection that is up; heartbeats sent are replies received plus those in flight |
| Heartbeat.OneReportPerOutage | C/heartbeat_cli.c:71-75 | lost-connection reports never outnumber the replies heard by more than the one outage in progress |
| Heartbeat.LostMeansUnanswered | C/heartbeat_cli.c:65-75 | a live connection is given up only with its last heartbeat unanswered |
| Heartbeat.GivesUpExactly | C/heartbeat_cli.c:62-77 | in every reachable state of a live connection an alarm keeps it and sends a heartbeat if and only if every heartbeat on it has been answered, and closes it if not |
| Heartbeat.HangIsNoticed | C/heartbeat_cli.c:62-105 | two alarms with no reply and no new connection between them leave the descriptor closed, and a client in recv then comes to connect again without the server |
| Heartbeat.WatchInside | C/heartbeat_srv.c:16-38 | the server's counter and latch in a run of the protocol are those of the history of heartbeats, alarms and disconnections it has seen |
| Heartbeat.RefusedClosedForm | C/heartbeat_cli.c:101-109 | from a clear latch, m failures to connect make (e + m) / (threshold + 1) reports and leave (e + m) % (threshold + 1) |
| Heartbeat.NotUpReportedExactly | C/heartbeat_cli.c:54-109 | from any reachable state some run makes the "maybe not start up" report if and only if the counter is not past the threshold |
| Heartbeat.NotUpCanGoDeaf | C/heartbeat_cli.c:106-109 | if connecting fails past the threshold while the latch is set, no later run ever makes that report |
| Heartbeat.DeafnessStarts | C/heartbeat_cli.c:68-75 | one lost connection leads to a state from which that can happen |
| Heartbeat.DeafClientIsReachable | C/heartbeat_cli.c:62-109 | a reachable state of a client that is connecting, has never made the report, and never makes it in any continuation |
| Heartbeat.Client.SigAlrm | C/heartbeat_cli.c:62-77 | the handler does the specified step and sends a heartbeat exactly when the last was answered |
| Heartbeat.Client.Connect | C/heartbeat_cli.c:101-109 | a turn of the main loop does the specified step and reports exactly when the counter stands at the threshold with the latch clear |
| TimedHeartbeat.NoFalseAlarmExactly | C/heartbeat_srv.c:16-38 | for every delay bound and threshold, no run on a live connection reports it lost at the client, or the peer at the server, if and only if the delay is at most one client period and a client period plus the delay fits in threshold server periods |
| TimedHeartbeat.SourceIsTuned | C/heartbeat_cli.c:14-15 | with periods 3 and 2 and threshold 3 that is a delay bound of at most 3 seconds |
| TimedHeartbeat.ArrivalGap | C/heartbeat_cli.c:62-67 | heartbeats arrive less than one client period plus the delay bound apart |
| TimedHeartbeat.TimedRunsAreRuns | C/heartbeat_cli.c:62-77 | without its delays a timed run is a run of the protocol of `Heartbeat`, so its theorems hold here |
| TimedHeartbeat.TimeCanPass | C/heartbeat_cli.c:62-77 | every run of a tuned system can be continued to any later time |
| SlotTable.TableIsCoherent | C/select_srv_better.c:58-66 | in every reachable state the watched set is the listener and the occupied slots, descriptors are distinct, occupied slots are at or below `maxi` and descriptors at or below `max_sd` |
| SlotTable.ServesExactlyTheReady | C/select_srv_better.c:129-171 | a round serves nobody twice, and exactly the ready clients unless a connection has arrived, the table is full and some client is ready |
| SlotTable.RoundDoes | C/select_srv_better.c:85-171 | slot by slot: a ready client found closed loses its slot and any other keeps it, a new connection gets the lowest free slot, and nothing changes if there is none |
| SlotTable.Admitted | C/select_srv_better.c:98-127 | a new connection is watched after its round if and only if a slot was free |
| SlotTable.FullTableStarves | C/select_srv_better.c:122-127 | with a full table, while connections keep arriving nobody is served and the table does not change |
| SlotTable.StarvationIsReachable | C/select_srv_better.c:85-127 | ten arrivals fill the table, and then for any number of legal rounds a ready client is not served and the table stays as it is |
| SlotTable.Server.Place | C/select_srv_better.c:98-119 | the slot search takes the lowest free slot and updates all four fields, or changes nothing |
| SlotTable.Server.AcceptPhase | C/select_srv_better.c:85-133 | accepting a connection counts the ready clients that remain, and the round ends there only if the table was full or nobody remains; what the round then does is stated by RoundDoes |
| SlotTable.Server.Scan | C/select_srv_better.c:136-171 | the scan cut off by `maxi` and by `nready` does exactly what a scan of all slots does |
| SlotTable.Server.Round | C/select_srv_better.c:85-171 | the whole round with its three early exits equals the round without any |
| CountedTable.CounterAgrees | C/select_server.c:104-135 | in every reachable state `cur_conn_cnt` is the number of occupied slots and every watched client has a slot |
| CountedTable.LimitTestFindsASlot | C/select_server.c:104-126 | by counting, the limit test fails exactly when the table is full, so the search after it finds a slot |
| CountedTable.ServedExactly | C/select_server.c:95-173 | a client is served if and only if it is ready, no connection meets a full table, and its slot is below the connection count less the clients found closed in lower slots |
| CountedTable.ServedAreClients | C/select_server.c:143-173 | nobody else is served, and nobody twice |
| CountedTable.RoundDoes | C/select_server.c:95-182 | slot by slot: a client that is served and found closed loses its slot and any other keeps it, a new connection gets the lowest free slot, and nothing changes if there is none |
| CountedTable.BlindSpot | C/select_server.c:143-151 | a reachable table in which a watched client is never read, whatever it sends |
| CountedTable.Server.Scan | C/select_server.c:143-182 | the scan whose bound shrinks as it runs stops exactly where that formula says |
| CountedTable.Server.Round | C/select_server.c:95-182 | accept, refusal and scan together do the specified round and keep the invariant |
| QueueServer.QueuesAreCoherent | Python/select_server.py:37-82 | until a round raises: queues belong to exactly the watched connections, `outputs` has no duplicates and every connection with a message, and sent plus upper-cased queue is the upper-cased input, in order |
| QueueServer.RoundDoes | Python/select_server.py:37-82 | what a round that does not raise does to a watched connection: its message joins the queue, exactly the oldest message queued is sent in upper case if it is writable, and it is closed exactly on end of file or an exceptional condition |
| QueueServer.RoundOpens | Python/select_server.py:38-43 | a new connection is watched, with nothing received, queued or sent |
| QueueServer.EchoesWhatCame | Python/select_server.py:37-82 | until a round raises, what was sent to a connection and what is queued are the upper-cased messages the rounds of the run brought on it, in order |
| QueueServer.QueueDrains | Python/select_server.py:63-72 | each round in which a connection is writable sends one message, oldest first, so as many as are queued send them all |
| QueueServer.UpperIsUpper | Python/select_server.py:70 | upper-casing leaves no letter a to z, keeps every letter the same letter and every other character |
| QueueServer.RoundRaisesExactly | Python/select_server.py:63-82 | a round raises if and only if a connection closed in the readable loop is listed as writable or exceptional, or the listening socket is exceptional |
| QueueServer.RaiseIsReachable | Python/select_server.py:37-72 | a run of three rounds from the start, an accept, a message and then end of file on a connection that is also writable, of which the last raises |
| QueueServer.Server.Readable | Python/select_server.py:37-61 | accept, enqueue, or close, on the lists and the dictionary |
| QueueServer.Server.Writable | Python/select_server.py:63-72 | send one upper-cased message, or drop an idle connection from the outputs, or raise |
| QueueServer.Server.HandleRound | Python/select_server.py:37-82 | the three loops over the lists `select` returned do the specified round |
| HttpRequest.ComputeSize | C/http_client.c:24-58 | the accumulated size is the sum of the format and argument lengths |
| HttpRequest.SizeSuffices | C/http_client.c:24-102 | the message and its NUL fit in the computed size if and only if the method is GET, or non-empty without data, or there is data with few enough digits in its length |
| HttpRequest.DataAlwaysFits | C/http_client.c:48-57 | with data shorter than ten billion bytes the message fits, for any method and any headers |
| HttpRequest.RequestReadsBack | C/http_client.c:64-102 | an RFC 1945 reader (sections 2.2, 4.2, 5 and 5.1) recovers method, path, query, headers and body from the built text if and only if the method is a token or empty, path and query have no blank or line break, and every header is a token, a colon and one line |
| HttpRequest.ContentLengthIsBodyLength | C/http_client.c:93-101 | looked up by name, the Content-Length fields (section 10.4 of RFC 1945) are the caller's own and then, exactly when a method other than GET carries data, one with the body's length |
| HttpRequest.FramedExactly | C/http_client.c:85-101 | a reader that takes the body by Content-Length (section 7.2.2) finds it if and only if each Content-Length among the caller's headers is the body's length |
| HttpClient.Build | C/http_client.c:60-102 | the sprintf and strcat calls leave exactly the message, NUL-terminated, in the allocated array |
| HttpClient.Send | C/http_client.c:126-138 | for any answers of write, what is sent is the message up to the sum of the positive answers before the first other one; the loop is done exactly if that covers it, and otherwise that answer says how it ends |
| HttpClient.Receive | C/http_client.c:140-157 | for any answers of read the response is stored in order; it is too long exactly when 4095 bytes were stored, and accepted exactly when it is shorter and its end is found before a read fails |

## Left out

- Socket set-up, name lookup, fcntl, fork, logging and `fork_str_cli`: foreign calls without state of their own.
- I/O errors of the closed system: `str_cli`'s error exits are in `Pump`, but `EchoLoop` assumes they do not occur; in `str_echo` a failed read other than EINTR goes on to a write of length -1, which is not modelled.
- Failed accepts in C/select_srv_better.c:89-93, where -1 is then used as a descriptor, and the send on a closed socket in C/select_server.c:175-180.
- SIGURG whose urgent byte cannot be read: the handlers then test an uninitialised variable.
- HttpRequest.RequestReadsBack: the reader takes a Request-URI to be anything without a blank or line break, and refuses folded header lines.
- HttpClient.Build: is stated for messages that fit, which is what C demands; HttpRequest.SizeSuffices says when they do.
- QueueServer.QueuesAreCoherent: upper-casing is per ASCII letter, `send` is taken to send the whole message, and a message is one decoded `recv`; partial sends, split UTF-8 and connection resets are not modelled.
- TimedHeartbeat.TimedRunsAreRuns: is stated for the source's threshold, which is the one `Heartbeat` has.
- Heartbeat.OneToken: alarm() and the assignment after it in C/heartbeat_cli.c:102-103 are one step, the alarm being three seconds away.
- EpollServer.Server.EventLoop: the numbers of arrivals, failing calls and interruptions in a run are arbitrary but finite, so that the loops can be shown to end; which events are flagged as errors is up to the kernel.
- C/heartbeat_android.c differs from the modelled client in its threshold, which is a parameter here; C/heartbeat_router.c keeps its counter in a shared file; ameba/tcp_select_server.c has the loop of C/select_srv_better.c.
- The basic, daytime, UDP, UNIX-domain and Lua programs, descriptor passing and interface listing: no property beyond their single calls.
- Fairness of `select` and epoll, and overflow of the counters.
