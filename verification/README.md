# The message path of the epoll network library, in Dafny

The library moves bytes between a simulated exchange feed (`server/bse_server.cpp`) and its client
(`client/bse_client.cpp`) over `epoll_net.cpp`, with handlers run by a thread pool
(`thread_pool.hpp`). Bytes go in at one end in arbitrary pieces and must come out as the same messages
at the other. This project models that path and the shared state around it, and proves what it keeps.

Run `dafny verify dfyconfig.toml` to check everything.

## How the model is organised

| file | what it holds |
|---|---|
| `Sequences`, `Bytes` | facts about sequences; byte order, C strings and in-place trimming of `venues/common.cpp` |
| `Framing` | the theory of a `process_data` loop: take whole messages off the front, stop at the first incomplete one |
| `Buffers` | when a receive buffer is large enough for a stream, and what a finite one lets through |
| `Protocol`, `MessageLoops` | the record formats, the server's and the client's framer, and their two loops as written |
| `Sockets`, `Transport` | scripts of everything `read` and `write` may return; the connection object with its receive array and request queue |
| `Delivery`, `Channel` | a link as a step system with its delivery theorems; two connection objects driven by any schedule, each call refining one step |
| `WriteArming` | who will write a queued request, with edge-triggered events and concurrent senders |
| `ThreadPool`, `WorkerPool` | the pool as a transition system with any number of workers and committers, and the object whose methods are its atomic steps, driven by any scheduler |
| `Registry` | the four tables that must agree about who is connected and logged in, and the server object that updates them |
| `Events` | the connections by descriptor beside the tables: accepting, the handlers as the event loop calls them, and dropping a connection that turns out to be closed or broken |
| `LoginCodec`, `CommandPipe` | the 80-byte login record and the 16-byte command record, printed and read back; the command pipe under edge-triggered events |
| `Replay`, `PlaybackLoops` | journal playback: the schedule of chunks and rate-limited slices, and the loops as written, with connections that come and go while they sleep |
| `Playback` | the playback carried through two connections into the client's journal |

The specification functions (`Receive`, `Transmit`, the table functions of `Registry`, `Schedule`) are
what the imperative methods are proved against; the theorems are about those functions and about runs.
Beside each law that says what can never happen stands one that says what does come about: `Channel.DriveToEnd`,
`Playback.PlayWholeFile`, `WriteArming.WritesComplete`, `ThreadPool.EveryTaskRuns`. The values the source fixes (message
types, record sizes, white space, the command record, rates) are stated as numbers in lemmas of their own.

## What the theorems assume

- A framer is *lawful*: a head message never exceeds its input and is not changed by later bytes.
  `Protocol.FramersLawful` proves this of both framers of the repository.
- A `read` or `write` that transfers data transfers at least one byte; writing zero bytes returns 0.
  The kernel carries accepted bytes in order.
- Connections are numbered as they are accepted. A descriptor may pass from one connection to another during a playback,
  and a connection that has lost its descriptor does not get it back.
- While a playback goes to a connection nothing else is sent to it; what the theorem says for replies is that they went
  before. `Delivery.RepliesBetweenIff` is about a reply in between.
- Behind the bytes `process_data` is shown there is memory up to the length of a login reply, which the client's loop
  reads even if the frame is shorter.
- The command pipe raises an event for each write that finds none pending.
- `EPOLL_CTL_MOD` reports a socket that is writable at that moment, fails for a descriptor that is
  not registered, and after it only a change from full to writable is reported.
- `accept` and `inotify_init` return descriptors that are not in use, `inotify_init` never returns 0,
  and `inotify_add_watch` returns -1 or a positive watch.
- An account's code is its key in the account table, and a login record's code is a 16-bit value.
- Each handler is one atomic step on the tables, and each step of the pool is sequentially consistent.
- The host is little endian; characters outside ASCII are not white space.

## Where the code does less than one might expect

These are proved as exact conditions, or by a concrete run.

- An empty request makes `handle_write` drop the connection, because `write` of no bytes returns 0:
  the outcome of `Transport.Connection.HandleWrite` says when, and `Channel.Drive` that otherwise only the
  kernel closes a connection.
- A reader ends with a full buffer exactly if what it was offered would fill it (`Transport.Connection.HandleRead`), and
  a stream of messages never fills it exactly if each of them fits (`Buffers.NeverFullIff`). So a client whose buffer is
  shorter than one frame never gets everything (`Channel.DriveMessages`), while the server with 80 bytes always
  can (`Channel.DriveToServer`).
- A request sent by `on_connect` on the server is stranded, because the descriptor is not registered yet
  (`WriteArming.RegisterSafely`, `WriteArming.SentTooEarly`).
- `Stop` can hang: it does not take the mutex, so its notification can fall between a worker's test and its
  wait. Called on a running pool in any state it may hang, with no notification left to come, exactly if the pool has
  threads (`ThreadPool.StopMayHangIffThreads`); once the flag is cleared, exactly if a worker is about to wait
  (`ThreadPool.StopStrandsIffParking`). It then hangs until a commit or a chance return of `wait`
  (`ThreadPool.StrandedLasts`).
- A connection that logs in under a second code leaves a stale entry in the first code's client set
  (`Registry.ExactLoginIff`, `Registry.SecondCodeLeavesGhost`). A playback to that account then waits for it
  (`Replay.GhostStallsPlayback`), and the next connection that is given the descriptor is a client of that account
  without any login (`Registry.GhostIsInherited`).
- The slice loop of a playback ends exactly if its client is there for enough turns, at a slice each
  (`Replay.SliceLoopEndsIff`): never at rates from 1 to 199 (`Replay.StayingClientEndsIff`), and for a client that is
  lost during the loop only if it had got the whole chunk by then (`Replay.LostClientEndsIff`, `Replay.LostDuringChunk`).
- A client that joins a playback, is given the descriptor of one that left, or is played to again after one was
  cancelled, reads records of the file exactly if the cut was at the end of a record (`Delivery.JoinsAlignedIff`,
  `Playback.PlayToClient`, `Delivery.ReplayedAgainIff`).
- Replies that another thread queues between two slices are read as such, with the records around them, exactly if they
  commute with the bytes between the cut and the end of some record, as at the end of a record they do
  (`Delivery.RepliesBetweenIff`); inside a record they can destroy it (`Playback.ReplyCutsRecord`).
- `handle_command` reads one record for one event, so a command written while an event is pending leaves the loop
  one command behind for good, a quit included (`CommandPipe.AllHandledIff`, `CommandPipe.QuitCanWait`).
- The comment at `epoll_net.h:211` says that at most `BUF_SIZE` unprocessed bytes are kept; the code keeps up to
  the connection's own `BufSize_`, and so does the model.

## Model

| member | source | states |
|---|---|---|
| Framing.FramesSplit | epoll_net.cpp:376-432 | parsing a stream in two instalments, the leftover carried over, gives the messages and leftover of parsing it at once |
| Framing.FramesConserve | server/bse_server.cpp:407-448 | the bodies dispatched and the bytes left are exactly the input, in order |
| Framing.FramesOfEncode | client/bse_client.cpp:103-177 | parsing the encoding of any list of whole messages gives back the list, whatever tail follows |
| Framing.PrefixFrames | epoll_net.cpp:376-432 | the messages of a part of a stream that has arrived are the first messages of the whole stream |
| Framing.SavedWhole | client/bse_client.cpp:159-161 | if all messages are journalled their bytes are stored verbatim; if none is, nothing is stored |
| Protocol.FramersLawful | server/bse_server.cpp:407-448 | the server's and the client's loop are both lawful framers, so the whole theory applies to them |
| Protocol.ClientTakes | client/bse_client.cpp:107-117 | whatever the header says, the client takes the four bytes of the length field and as many more as it counts in its full 32 bits, or waits for them; fewer than 8 bytes are never taken |
| Protocol.ClientHeader | client/bse_client.cpp:110-112 | any 8 bytes or more begin with such a header, so this covers every input |
| Protocol.RecordIsFrame | client/bse_client.cpp:107-117 | a record of any type and any length its length field can hold is one whole frame |
| Protocol.RecordStored | client/bse_client.cpp:118-162 | the client dispatches such a record under its type and stores all of it, or nothing if the type is 1801, 1802, 2110 or 2111 |
| Protocol.ServerTakes | server/bse_server.cpp:389-423 | whatever the type field says, the server takes 80 bytes for 1801 and 1802 and 8 for every other type, or waits for them |
| Protocol.ServerStable | server/bse_server.cpp:415-423 | a complete request is not changed by bytes behind it |
| Protocol.ClientStable | client/bse_client.cpp:110-117 | a complete frame is not changed by bytes behind it |
| Protocol.ServerBufferSuffices | server/bse_server.cpp:389-423 | every full buffer of this size holds a whole request if and only if the size is at least 80 |
| Protocol.TurnsConsume | client/bse_client.cpp:107-174 | each turn that takes anything takes at least 4 bytes on the client and 8 on the server, so both loops end |
| Protocol.RepliesAreFrames | server/bse_server.cpp:480-490 | a login or query reply built with Size = length - 4 is consumed by the client as one frame of exactly 12 bytes, with the type, code, flag and result that were sent |
| Protocol.QueryReplyRead | server/bse_server.cpp:534-557 | the type and the result the client reads from a query reply are the ones sent |
| Protocol.QueryIsMessageIff | client/bse_client.cpp:126-136 | the server takes a query record of the client as exactly one query if and only if its type is neither 1801 nor 1802 |
| MessageLoops.ServerTurn | server/bse_server.cpp:413-440 | one turn takes nothing, or exactly the head message of the server's framer, and picks the handler for its type |
| MessageLoops.ClientTurn | client/bse_client.cpp:107-164 | one turn takes nothing, or exactly the head frame of the client's framer, journals it exactly if it is not one of the four reply types, and asks for the queries exactly at a login reply whose flag is 0 |
| MessageLoops.ServerLoop | server/bse_server.cpp:407-448 | the loop dispatches exactly the messages of one pass, to the handlers their types call for, and returns how many bytes they took |
| MessageLoops.RequestServed | server/bse_server.cpp:407-448 | a whole request of type 1801 goes to the login handler, of 1802 to the logoff handler, of any other type to the request handler, and nothing is left |
| MessageLoops.QueriesServed | client/bse_client.cpp:126-138 | the bytes the client sends for its queries are one request each, for the request handler |
| MessageLoops.SessionServed | server/bse_server.cpp:407-448 | what a client sends, its login record and its queries, is dispatched as exactly those messages in order, the login to the login handler and each query to the request handler |
| MessageLoops.AnswersSnoc | client/bse_client.cpp:118-139 | the queries a list of messages makes the client send are those of all but the last, then those of the last, although the flag of a short login reply is read from the bytes behind it |
| MessageLoops.LoginStartsQueries | client/bse_client.cpp:120-139 | the server's reply to a login makes the client send all its queries if its flag is 0 and nothing otherwise, whatever bytes follow |
| MessageLoops.SessionAsks | client/bse_client.cpp:118-157 | a login reply followed by any messages that are no login replies makes the client send its queries once if its flag is 0, and nothing otherwise |
| MessageLoops.SendQueries | client/bse_client.cpp:128-138 | there are as many requests as configured types, and each is its type in network order and four zero bytes |
| MessageLoops.ClientLoop | client/bse_client.cpp:103-188 | the loop makes exactly the handler calls of one pass, appends exactly the journalled frames to the file if there is one and leaves it alone otherwise, sends the queries once for each login reply that says success, and returns how many bytes it took |
| Transport.ProcessMeans | server/bse_server.cpp:407-448 | the message-by-message loop appends the frames of its input to the handler calls, their journalled bytes to the file, and leaves the rest |
| Transport.ReceiveSplit | epoll_net.cpp:376-432 | receiving a then b is receiving a + b: handler calls, journal and leftover do not depend on how the stream was cut into reads |
| Transport.TransmitConserves | epoll_net.cpp:442-475 | writing n bytes removes exactly the first n bytes of the queued requests and keeps the rest in order |
| Transport.TransmitSplit | epoll_net.cpp:442-475 | a partial write of a bytes followed by one of b bytes leaves the queue one write of a + b bytes leaves |
| Transport.TransmitHead | epoll_net.cpp:464-473 | one write takes bytes of the head request only, and neither creates nor removes an empty request |
| Transport.SendableWhole | epoll_net.cpp:442-475 | without empty requests everything queued can be written |
| Transport.WriteRequest.AdvancedRemaining | epoll_net.cpp:464-473 | moving data and size leaves exactly the unwritten suffix of a request, still at the end of its own buffer |
| Transport.Connection.constructor | epoll_net.h:59-75 | a new connection has nothing pending, queued or dispatched |
| Transport.Connection.ProcessData | server/bse_server.cpp:407-448 | the loop over its argument is one pass of the framer and returns the bytes it took, at most its argument |
| Transport.Connection.Compact | epoll_net.cpp:383-389 | memmove to the start of the buffer keeps the pending bytes although the areas overlap |
| Transport.Connection.Fill | epoll_net.cpp:397-414 | bytes read land directly behind the pending ones; a read of length 0 is never asked for, so 0 means remote close |
| Transport.Connection.Consume | epoll_net.cpp:422-430 | after process_data the pending bytes lose exactly the ones taken, and offset, r_size and size_remain add up to BufSize_ |
| Transport.Connection.Absorb | epoll_net.cpp:416-431 | after a read the connection's state is one pass over the old pending bytes and the new ones |
| Transport.Connection.ReadTurn | epoll_net.cpp:397-431 | one turn receives exactly the bytes of one read, or changes nothing and reports why |
| Transport.Connection.HandleRead | epoll_net.cpp:365-433 | all bytes the socket had are received as if in one piece and every one of them found room; the call ends for the socket's own reason, or early with a full buffer if and only if what was offered would fill it |
| Transport.Connection.BuildRequest | epoll_net.cpp:483-508 | the request holds the bytes given, in a buffer of its own exactly if a copy was asked for |
| Transport.Connection.SendData | epoll_net.cpp:478-520 | the bytes join the end of the queue, copied or not as asked, requests already queued are untouched, EPOLLOUT is armed, and the size is returned |
| Transport.Connection.WriteHead | epoll_net.cpp:444-462 | write is offered exactly the unsent part of the head request, and 0 comes back for an empty one |
| Transport.Connection.Advance | epoll_net.cpp:464-473 | the head request loses exactly the bytes written and is popped when none is left |
| Transport.Connection.WriteTurn | epoll_net.cpp:442-475 | one turn moves the same bytes from the queue to the wire, or changes nothing and reports why |
| Transport.Connection.HandleWrite | epoll_net.cpp:435-476 | the wire gains exactly the longest sendable prefix the socket accepts, the queue loses exactly it, and the outcome is exact: the socket's own, a false disconnect if an empty request is reached, or an empty queue |
| Sockets.InSocket.Read | epoll_net.cpp:397-414 | a read delivers a non-empty prefix of what has arrived, touches no other byte of the buffer, or reports the event that ends the data |
| Sockets.OutSocket.Write | epoll_net.cpp:445-462 | a write accepts a non-empty prefix of what it is offered, as the send buffer has room, or reports why not |
| Delivery.StepHolds | epoll_net.cpp:365-520 | every step keeps: bytes requested are those delivered, then those in flight, then those queued, and the receiver is as if it had got its part at once |
| Delivery.HoldsMeans | epoll_net.cpp:365-520 | under that invariant the receiver has parsed exactly the bytes delivered, a prefix of those requested, and all of them once the link is drained |
| Delivery.RunHolds | epoll_net.cpp:365-520 | the same for every run from an idle link |
| Delivery.EndToEnd | epoll_net.cpp:365-520 | over every interleaving of enqueue, partial write and partial read, the messages dispatched are a prefix of those of one pass over all bytes requested, and equal to them, with the same leftover and journal, once drained |
| Delivery.MessagesArrive | epoll_net.cpp:365-520 | if the requests concatenate to the encoding of a message list, the receiver has dispatched a prefix of that list, and the list once drained |
| Delivery.SegmentationInvisible | epoll_net.cpp:365-520 | two drained runs of the same bytes end in the same receiver state, whatever the requests, writes and reads were |
| Delivery.FramesOfPart | server/bse_server.cpp:223-278 | a stream that ends inside a message yields exactly the messages wholly before its end |
| Delivery.StoredRecords | client/bse_client.cpp:118-188 | a client that has got part of some replies followed by records has stored a prefix of the records and nothing else |
| Delivery.ReplayFrames | server/bse_server.cpp:223-278 | replies followed by the first n bytes of a journal parse as the replies and the records wholly sent |
| Delivery.ReplayedPart | client/bse_client.cpp:103-188 | any part of a stream of replies and a cut journal file stores whole records from the start of the file; all of the stream stores every record sent completely |
| Delivery.ReplayedJournal | client/bse_client.cpp:103-188 | the stored journal is always whole records from the start of the file; once drained, every record sent completely; for a complete playback, the file itself |
| Delivery.ReadsIff | client/bse_client.cpp:103-177 | a stream is read as a list of whole messages with nothing left if and only if it is the encoding of that list |
| Delivery.JoinsAlignedIff | server/bse_server.cpp:239-262 | a client that is sent a file from byte p on reads records of the file up to its end if and only if p is the end of a record |
| Delivery.ReplayedAgainIff | server/bse_server.cpp:273-277 | a client that is sent n bytes of a file and then the file again reads some records and then all of them if and only if n is the end of a record |
| Delivery.InsertedAt | server/bse_server.cpp:254-261 | replies sent behind the first p bytes of a file are read behind its first j records, with those unharmed, if and only if they commute with the bytes between p and the end of the j-th record |
| Delivery.RepliesBetweenIff | server/bse_server.cpp:254-261 | replies queued between two slices are read as records, replies, records if and only if they commute with the bytes from the cut to the end of some record; a cut at the end of a record always is such |
| Channel.LeadsSnoc | epoll_net.cpp:365-520 | a run of the link extends by any enabled step |
| Channel.Send | epoll_net.cpp:478-520 | send_data on the sending object is the enqueue step of the link |
| Channel.Depart | epoll_net.cpp:435-476 | for any script of the socket the wire gains the longest sendable prefix it has room for and the queue loses exactly that; what is reported depends on the script and on empty requests only, as stated |
| Channel.Write | epoll_net.cpp:435-476 | handle_write on the sending object is a write step of the link of exactly that many bytes, for any behaviour of the socket |
| Channel.Arrive | epoll_net.cpp:365-433 | for any arrival pattern and any ending the receiver takes a prefix of the network, as if in one piece; it is all that was offered unless the buffer is full, which it is if and only if the offer would fill it |
| Channel.ArrivalsAre | epoll_net.cpp:397-414 | the arrival patterns are all ways to cut the bytes into pieces, followed by the ending |
| Channel.Read | epoll_net.cpp:365-433 | handle_read on the receiving object is a read step of the link, for any arrival pattern and any ending |
| Channel.Perform | epoll_net.cpp:365-520 | every call is one enabled step of the link, whatever the kernel reports; it closes the connection exactly if it gets as far as a report of the peer or of an error, or to an empty request |
| Channel.RanOn | epoll_net.cpp:365-520 | the run the objects have made grows by the step of each call, with its accounting of bytes requested and delivered, all of which found room |
| Channel.Drive | epoll_net.cpp:365-520 | for any schedule of calls on two connection objects and any behaviour of the kernel the receiver's whole state is one pass over a prefix of the bytes handed to send_data, all of them once nothing is queued or in flight; its buffer is not full if the bytes handed over never fill it |
| Channel.QuietCalls | epoll_net.cpp:365-520 | a schedule without empty requests in which the kernel reports bytes and EAGAIN only is one that does not close the connection |
| Channel.Settle | epoll_net.cpp:365-520 | one handle_write with room in the socket and one handle_read of all that has arrived leave nothing queued or in flight, and the receiver with all of it |
| Channel.DriveToEnd | epoll_net.cpp:365-520 | after any schedule that leaves the connection open, whatever is then still under way, the receiver ends with exactly one pass over everything handed to send_data |
| Channel.DriveMessages | client/bse_client.cpp:103-177 | for a list of messages handed over in any pieces: if each fits the buffer no read leaves it full, and if one does not, no schedule ever drains the link; what is dispatched is a prefix of the list, and the list once drained |
| Channel.DriveToServer | server/bse_server.cpp:389-448 | with the server's framer and a buffer of at least 80 bytes no schedule leaves the buffer full, so every read ends for the socket's own reason |
| Channel.ServerNeverFull | server/bse_server.cpp:389-448 | between reads the server's buffer is never full if it can hold a login, so "no read buffer remaining" is unreachable |
| Channel.ClientFull | client/bse_client.cpp:110-115 | a full client buffer holds the start of one frame longer than the buffer |
| Channel.ClientFrameTooLong | epoll_net.cpp:381-395 | bytes that begin with a frame longer than the buffer fill it once enough of them have arrived, in whatever pieces, so the reader ends with a full buffer |
| Events.Network.constructor | epoll_net.cpp:534-549 | at the start there are no connections, as in the tables |
| Events.Network.Accept | epoll_net.cpp:551-577 | an accepted descriptor gets a new, empty connection and its entries in the tables; every other connection stays |
| Events.Network.Remove | epoll_net.cpp:241-248 | the descriptor goes from the connections and from the tables together, and no other does |
| Events.Network.OnReadable | epoll_net.cpp:365-433 | for an unknown descriptor nothing happens; the connection of a known one receives everything the socket had, and goes from the connections and all tables exactly if the peer has closed or the read failed |
| Events.Network.OnWritable | epoll_net.cpp:435-476 | for an unknown descriptor nothing happens; the connection of a known one writes as much as the socket takes, and goes from the connections and all tables exactly if the write failed, the peer has closed, or an empty request is reached |
| Events.Network.SendData | epoll_net.cpp:478-520 | send_data accepts nothing for an unknown descriptor; for a known one its connection, and no other, gets the whole request and EPOLLOUT is armed |
| Buffers.HeadPrefix | epoll_net.cpp:376-395 | a prefix that ends inside the first message leaves all of itself; one that ends behind it leaves what the later part leaves |
| Buffers.NeverFullCons | epoll_net.cpp:376-395 | putting a message in front keeps a stream from ever filling the buffer if and only if the message fits |
| Buffers.NeverFullIff | epoll_net.cpp:376-395 | no prefix of a stream ever fills the buffer if and only if every message fits and the incomplete tail is shorter than the buffer |
| Buffers.MoreFoundRoom | epoll_net.cpp:376-432 | bytes that found room behind what was left of a stream found room behind the whole stream |
| Buffers.NeverFullBehind | epoll_net.cpp:376-432 | a stream that never fills the buffer does not fill it either when it goes on behind what one pass has left |
| Buffers.NeverFullIsRoom | epoll_net.cpp:376-395 | a stream never fills the buffer if and only if all its bytes find room and less than a buffer is left |
| Buffers.FullExactly | epoll_net.cpp:381-395 | a reader that takes what finds room and stops at a full buffer is full if and only if the whole offer would fill the buffer |
| WriteArming.ApplyKeeps | epoll_net.cpp:435-517 | every step of senders, loop, pool and writer keeps bytes in order, requests non-empty and, once registered, no request stranded |
| WriteArming.RunKeeps | epoll_net.cpp:435-517 | the same over every run |
| WriteArming.NoStrandedWrite | epoll_net.cpp:435-517 | in every reachable state a queued request has a sender about to arm, an event, a task or an active writer, or waits for a full socket with EPOLLOUT armed; bytes written and queued are the bytes requested |
| WriteArming.QuietMeansSent | epoll_net.cpp:435-517 | when nobody is due to act and the socket has room, everything requested has been written |
| WriteArming.CarryingStep | epoll_net.cpp:435-517 | each step of the loop, the pool, the writer, the peer or a sender that still has to arm uses up an event, a task, a turn or bytes |
| WriteArming.CarryingEnds | epoll_net.cpp:435-517 | so such steps come to an end after a number known beforehand |
| WriteArming.WritesComplete | epoll_net.cpp:435-517 | from every state that a safe registration leads to, some run of these steps alone, of bounded length, ends with nobody attending, an empty queue and everything requested written |
| WriteArming.RegisterSafely | epoll_net.cpp:571-574 | registering a descriptor strands nothing if and only if nothing was queued before or a sender has still to arm |
| WriteArming.SentTooEarly | epoll_net.cpp:571-574 | any request sent by on_connect before add_event is stranded |
| ThreadPool.LockedKept | thread_pool.hpp:26-34 | every step keeps the mutex held by exactly the worker inside the critical section |
| ThreadPool.AccountedKept | thread_pool.hpp:75-94 | every step keeps each dequeued task finished once or in the hands of one worker, and the committed sequence equal to the dequeued one followed by the queue |
| ThreadPool.AwakeKept | thread_pool.hpp:75-94 | every step keeps, while somebody sleeps, a worker on the way or a notification due for each queued task |
| ThreadPool.InvKept | thread_pool.hpp:26-95 | every step keeps all pool invariants together |
| ThreadPool.InvOnRuns | thread_pool.hpp:26-95 | they hold at the end of every run |
| ThreadPool.ExactlyOnce | thread_pool.hpp:26-34 | in every reachable state tasks left in commit order, none is lost, none runs twice, and no two workers hold the same one |
| ThreadPool.StoppedPoolFinishedPrefix | thread_pool.hpp:50-63 | once Stop has joined all threads the finished tasks are exactly a prefix of those committed |
| ThreadPool.NoLostWakeup | thread_pool.hpp:75-94 | while the pool runs and has workers, a non-empty queue never faces only sleepers with no notification due; and as long as one sleeps, every queued task has its own worker on the way or its own notification |
| ThreadPool.OnceRound | thread_pool.hpp:69-95 | once round the loop of a running pool a worker takes and finishes the first task, or falls asleep if there is none |
| ThreadPool.WokenLooks | thread_pool.hpp:75-94 | a worker woken by a commit, by Stop or by chance serves the first task even of a stopped pool; without one it sleeps again or, after Stop, exits |
| ThreadPool.ServingStep | thread_pool.hpp:26-95 | in a running pool each step of a worker or a notification due lowers the number of steps that can still come |
| ThreadPool.ServingMoves | thread_pool.hpp:26-95 | a running pool with threads can take such a step, or everything committed has been run and everybody sleeps |
| ThreadPool.ServingEnds | thread_pool.hpp:26-95 | no run of such steps is longer than that number |
| ThreadPool.EveryTaskRuns | thread_pool.hpp:26-95 | from every reachable state of a running pool with threads some run of workers and due notifications alone, wait never returning by chance, finishes every task committed |
| ThreadPool.RankStep | thread_pool.hpp:50-95 | after Stop has cleared the flag no step raises, and every worker step lowers, the work the threads have left |
| ThreadPool.StopBounds | thread_pool.hpp:50-95 | after Stop has cleared the flag the workers take a bounded number of steps, whatever is committed meanwhile |
| ThreadPool.SleeplessMoves | thread_pool.hpp:50-95 | if nobody sleeps or is about to, all threads have exited or one of them can move |
| ThreadPool.StopStrandsIffParking | thread_pool.hpp:50-63 | from the moment Stop has cleared the flag, some run leaves a worker asleep while Stop joins and no notification is due if and only if a worker is between its test and its wait |
| ThreadPool.StrandedLasts | thread_pool.hpp:50-63 | from such a state every run without a commit or a chance return of wait ends in such a state: Stop hangs |
| ThreadPool.Discharge | thread_pool.hpp:33 | the notifications that are due can always be given, which leaves threads that were about to wait where they are |
| ThreadPool.StopFinishes | thread_pool.hpp:50-63 | otherwise every run can be carried on until all joins have returned |
| ThreadPool.ReachParking | thread_pool.hpp:75-94 | in any state of a running pool with threads the workers alone, a chance return of wait included, can bring one of them to the point of blocking |
| ThreadPool.StopMayHangIffThreads | thread_pool.hpp:50-95 | in any state of a running pool, some run in which Stop is called ends with Stop joining a sleeping worker and no notification due, if and only if the pool has threads |
| ThreadPool.StrandedForGood | thread_pool.hpp:50-63 | a worker that missed Stop's notification stays asleep and Stop waits for it, unless it is woken by chance |
| ThreadPool.HungMoves | thread_pool.hpp:50-63 | with the only worker stranded nothing can happen but a new commit or a spurious wake-up |
| ThreadPool.StopCanHang | thread_pool.hpp:50-95 | such a state is reachable: the schedule is given |
| WorkerPool.Workers.constructor | thread_pool.hpp:17-20 | a new pool runs, is empty and meets every invariant |
| WorkerPool.Workers.Start | thread_pool.hpp:42-48 | Start adds the given number of threads at the top of Work and changes nothing else |
| WorkerPool.Workers.PushTask | thread_pool.hpp:26-32 | the guarded part of Commit is the push step and keeps every invariant |
| WorkerPool.Workers.NotifyOne | thread_pool.hpp:33 | notify_one wakes a waiting worker if there is one, as an enabled step |
| WorkerPool.Workers.CanMoveIff | thread_pool.hpp:69-95 | a thread can move exactly if a step of its own is enabled in the system, and there is only one |
| WorkerPool.Workers.WorkStep | thread_pool.hpp:69-95 | a thread moves exactly if it is alive, awake and not kept out by the mutex, and its next step of Work is that step of the system |
| WorkerPool.Workers.WakeSpuriously | thread_pool.hpp:84 | a return of wait without a notification is the spurious step and keeps every invariant |
| WorkerPool.Workers.StopRunning | thread_pool.hpp:50-54 | Stop clears the flag without the mutex and keeps every invariant |
| WorkerPool.Workers.NotifyAllThreads | thread_pool.hpp:55 | notify_all wakes every waiting thread and no other |
| WorkerPool.Workers.JoinThreads | thread_pool.hpp:56-62 | the joins return exactly when all threads have exited, and then the finished tasks are exactly a prefix of those committed |
| WorkerPool.Workers.Take | thread_pool.hpp:26-95 | a turn of the scheduler is one enabled step of the system exactly when it can be taken, and nothing otherwise; a commit with the mutex free always goes in |
| WorkerPool.Workers.Drive | thread_pool.hpp:26-95 | any schedule of calls on the object is a run of the system: commit order, no loss, no task run twice, and after the joins the finished tasks are exactly a prefix of those committed |
| Registry.SafeKept | server/bse_server.cpp:450-478 | every handler keeps: a logged-in connection is in its context's client set, no client set is empty, -1 is never a code, and the keys of SockLookup_ and NetContext_ agree |
| Registry.LoginMeans | server/bse_server.cpp:461-478 | a login changes nothing without the account's own password; with it the connection gets the code, joins the client set, and no other connection or account is touched |
| Registry.FirstLoginWatches | server/bse_server.cpp:26-48 | the first login of an account makes a context with the account's settings, whose inotify descriptor and watch are kept and handled exactly if the account names a file and both calls succeed, and are 0 otherwise |
| Registry.DropMeans | server/bse_server.cpp:624-669 | a connection that goes loses its own entries and no other; its context stays exactly if somebody else is in the client set, and takes its handler with it otherwise |
| Registry.WatchesKept | server/bse_server.cpp:26-48 | every handler keeps: the handled descriptors are the listening one and exactly the positive notify_fd of live contexts |
| Registry.JoinWatches | server/bse_server.cpp:595-622 | the same across first and later logins, and across a context whose watch cannot be set up |
| Registry.DropWatches | server/bse_server.cpp:624-642 | the same across a disconnect, the last one of an account included |
| Registry.ReachableTables | server/bse_server.cpp:595-669 | both invariants hold after every run of connects, logins, re-logins, disconnects and errors |
| Registry.RegistrationWasEarned | server/bse_server.cpp:461-478 | in every reachable state a connection registered under a code sent that code with that account's own password and was not dropped since |
| Registry.ClientsWereEarned | server/bse_server.cpp:595-669 | if no connection logs in under two codes, every member of a client set, and so everyone a file or playback goes to, sent that code with that account's own password and was not dropped since |
| Registry.ExactClients | server/bse_server.cpp:595-622 | exact tables mean that a context exists if and only if some connection is registered under its code, and its client set is the inverse image of the code |
| Registry.ExactConnectDrop | server/bse_server.cpp:624-669 | connects, disconnects and errors keep the client sets exact |
| Registry.ExactLoginIff | server/bse_server.cpp:595-622 | an accepted login keeps them exact if and only if the connection is known and not registered under another code |
| Registry.ExactOnRuns | server/bse_server.cpp:595-669 | over every run in which no connection logs in under two codes the client sets are exact |
| Registry.ExactThroughoutIff | server/bse_server.cpp:595-669 | the client sets are exact at every point of a run if and only if every accepted login of it came from a known connection that had no other code |
| Registry.ExactClientsConnected | server/bse_server.cpp:595-669 | with exact tables every client set names connected descriptors only |
| Registry.SecondCodeLeavesGhost | server/bse_server.cpp:595-642 | a connection that logs in under a second code and leaves stays in the first code's client set |
| Registry.GhostIsInherited | server/bse_server.cpp:595-669 | after that the next connection that gets the descriptor is in the first account's client set although it has not logged in |
| Registry.AcceptedMeans | epoll_net.cpp:551-577 | after a batch of accepts every new connection has both table entries, none is logged in, and nothing else has changed |
| Registry.BseSimulator.constructor | epoll_net.cpp:534-549 | a server that has just started to listen has empty tables and handles its listening descriptor |
| Registry.BseSimulator.CreateClientContext | server/bse_server.cpp:595-622 | the connection joins the client set of the code, a missing context is made with the account's type, query files, journal file and rate and handled exactly if its watch was set up, a known connection gets the code, and nothing else changes |
| Registry.BseSimulator.ClearClientContext | server/bse_server.cpp:624-642 | the connection leaves the client set and SockLookup_, the last one takes the context and its handler with it, and nothing else changes; the precondition is what makes erase(find(fd)) defined |
| Registry.BseSimulator.HandleAccept | epoll_net.cpp:551-577 | accepting until accept would block keeps every invariant and leaves the tables of AcceptedMeans |
| Registry.BseSimulator.HandleLogin | server/bse_server.cpp:450-478 | a login keeps every invariant, registers exactly with the account's password, and answers 0 or -2 accordingly |
| Registry.BseSimulator.HandleRequest | server/bse_server.cpp:511-564 | there is a query file exactly if the connection is logged in to a query account that has one for the type; the reply is one frame of 12 bytes in which the client reads type 2110 and 10 with a file, 2111 and 1 without |
| Registry.BseSimulator.OnDisconnect | server/bse_server.cpp:649-669 | a known connection is cleared from its own code, -1 included; an unknown one changes nothing |
| Registry.BseSimulator.Drop | epoll_net.cpp:241-248 | a disconnect or error on any descriptor keeps every invariant, so erase always has a real element |
| Registry.BseSimulator.CommandList | server/bse_server.cpp:310-323 | the groups are exactly the inverse images of the codes present, whatever order the table is visited in |
| Bytes.ReverseEndianInvolution | venues/common.cpp:5-38 | reversing twice is the identity for 16 and 32 bits |
| Bytes.WireIsBigEndian | venues/common.h:29-33 | a field written through FormatData is in network byte order |
| Bytes.FieldRoundTrip | venues/common.h:29-33 | a field written and read through FormatData keeps its value |
| Bytes.NumberRoundTrip | venues/common.h:29-33 | the number read from a written 32-bit field is that number |
| Bytes.EveryFieldIsWritten | venues/common.h:29-33 | any four bytes are some written field |
| Bytes.StrNCopyText | client/bse_client.cpp:59-60 | what strnlen finds in a strncpy field is the text up to its NUL, cut to the field |
| Bytes.TrimmedUnique | venues/common.cpp:64-82 | a core without outer white space, with any white space around it, trims to exactly that core |
| Bytes.TrimmedSplit | venues/common.cpp:64-82 | every string is white space, its trimmed core, and white space, and the core has none outside |
| Bytes.TrimmedPadding | venues/common.cpp:64-82 | right padding never survives a trim, trimming is idempotent, and it changes nothing if and only if there is no outer white space |
| Bytes.TrimmedWhite | venues/common.cpp:64-82 | trim removes space, tab, newline, vertical tab, form feed and carriage return from both ends, and nothing else |
| Bytes.MutableString.LTrim | venues/common.cpp:64-69 | erasing in place up to the first non-space leaves the left-trimmed string |
| Bytes.MutableString.RTrim | venues/common.cpp:71-76 | erasing in place behind the last non-space leaves the right-trimmed string |
| Bytes.MutableString.Trim | venues/common.cpp:78-82 | both together leave the trimmed string |
| LoginCodec.PasswordFieldText | client/bse_client.cpp:51-59 | padding and strncpy leave a field whose trimmed text is the trimmed part of the password that fits |
| LoginCodec.RecordFields | client/bse_client.cpp:47-60 | each field of the record stands at its offset |
| LoginCodec.RecordIsOneMessage | server/bse_server.cpp:415-430 | whatever the password, the server's loop takes the 80-byte record as exactly one login message |
| LoginCodec.LoginRoundTrip | server/bse_server.cpp:450-457 | for every code and every byte string as password, the server reads from the record the same code and the trimmed part of the password that fits |
| LoginCodec.PasswordSurvivesIff | client/bse_client.cpp:51-59 | a password arrives unchanged if and only if it has at most 64 characters, no NUL and no outer white space |
| LoginCodec.PlainPassword | client/bse_client.cpp:51-59 | a password of at most 64 characters without NUL whose ends are none of the six white characters stands in the record with spaces behind it, and is read back unchanged with its code |
| LoginCodec.LongPassword | client/bse_client.cpp:51-59 | a longer one is cut to 64 characters |
| LoginCodec.SendLogin | client/bse_client.cpp:39-60 | filling the cleared struct field by field gives exactly that record, its filler zero |
| LoginCodec.ReadLogin | server/bse_server.cpp:450-457 | the server extracts exactly the decoded code and password, trimmed in place |
| LoginCodec.HandleLogin | server/bse_server.cpp:450-491 | a whole record is decoded, decided, registered and answered |
| LoginCodec.HandshakeTellsTruth | server/bse_server.cpp:461-490 | the reply to a login is one client frame with the client's own code, and its flag is 0 if and only if the account exists with the password that arrived, else -2 |
| LoginCodec.PlainHandshake | server/bse_server.cpp:450-491 | for such a password the flag of the reply is 0 if and only if the account has exactly that password, and else -2 |
| CommandPipe.AtoiOfDecimal | epoll_net.cpp:329 | atoi gives back every printed number, whatever non-digit follows |
| CommandPipe.DecimalLength | epoll_net.cpp:286-298 | a 32-bit command prints in at most 11 characters, so a delimiter and some parameter always fit |
| CommandPipe.LineOfRecord | epoll_net.cpp:286-317 | the line read from a record is the command, the delimiter and the part of the parameter that fits |
| CommandPipe.RecordRoundTrip | epoll_net.cpp:286-330 | for every 32-bit command and every parameter the record is split into the same command and the parameter as far as it fits, even when it contains the delimiter |
| CommandPipe.KeptFits | epoll_net.cpp:286-298 | a record has 16 characters, of which 15 at most are text, and nothing of the parameter is cut that has room |
| CommandPipe.PrintedCommands | epoll_net.cpp:286-329 | numbers as printf prints them and atoi reads them, with a sign, white space and what follows |
| CommandPipe.PipeRoundTrip | epoll_net.cpp:286-330 | any sequence of commands is read back in order |
| CommandPipe.BehindOnRuns | epoll_net.cpp:306-311 | over every run of writes and events the commands handled are the first ones written, and those unread are one for a pending event and one for each write that found an event pending |
| CommandPipe.AllHandledIff | epoll_net.cpp:280-311 | when no event is pending, every command written has been handled, in order, if and only if none was written while an event was pending |
| CommandPipe.BacklogStays | epoll_net.cpp:306-311 | a command merged with an earlier one is never made up for, whatever is written later |
| CommandPipe.QuitCanWait | epoll_net.cpp:306-331 | a quit written right behind another command stays in the pipe while the loop goes on waiting |
| CommandPipe.EpollNet.Command | epoll_net.cpp:286-304 | printing into the cleared buffer appends exactly one 16-byte record to the pipe and raises an event unless one is pending |
| CommandPipe.EpollNet.SplitCommand | epoll_net.cpp:319-329 | the line is split at the first delimiter, if anything follows it |
| CommandPipe.EpollNet.HandleCommand | epoll_net.cpp:306-340 | an event consumes one record; if that is the record of a command and a parameter, command 1 quits, a registered code runs its handler with the part of the parameter that fits, and any other is reported |
| Replay.FaithfulClient | server/bse_server.cpp:223-278 | a client present in every turn is sent the file from its start without gap or overlap, wherever the playback ends |
| Replay.CompletePlayback | server/bse_server.cpp:223-278 | a playback that is neither cancelled nor fails sends it the whole file |
| Replay.PlaybackSends | server/bse_server.cpp:196-278 | an undisturbed playback has sent exactly what its reads brought, each into a buffer of rate bytes, or of 4 MiB without a rate |
| Replay.PlaybackStops | server/bse_server.cpp:223-278 | each turn sends to its own clients, and one whose read fails, that finds no clients or is cancelled is the last |
| Replay.LateClient | server/bse_server.cpp:239-262 | a client that joins after some chunks is sent the file from where the others were, without gap or overlap |
| Replay.PlaybackStores | client/bse_client.cpp:103-188 | whatever part of a playback a client was sent and whatever part of that arrived, its journal is whole records from the start of the file; of all that was sent, every record sent completely; of an undisturbed playback, the file |
| Playback.WeaveHands | epoll_net.cpp:478-520 | whatever other calls are made between them, the requests of a playback are handed over in order and nothing else is |
| Playback.WeaveTraffic | epoll_net.cpp:365-520 | all the other calls are made, in order |
| Playback.PlayerCalls | server/bse_server.cpp:175-287 | what the playback hands to one connection of a descriptor is one window of what the descriptor is sent, which is a prefix of its part of the schedule and all of it when the playback is done; the window is everything if no other connection has the descriptor, and no request is empty |
| Playback.SentOfFile | server/bse_server.cpp:223-278 | what the descriptor of a client of every turn is sent is a first part of the file, and all of it after an undisturbed playback |
| Playback.WindowStores | client/bse_client.cpp:103-188 | of a window of the file that begins at a record, whatever part has arrived is stored as whole records from there on, and all of it as every record it holds completely |
| Playback.AlignedIff | server/bse_server.cpp:239-262 | a client that has been sent the file from byte p on has handled replies and records only, with nothing left, if and only if p is the end of a record |
| Playback.WindowFits | epoll_net.cpp:381-395 | such a window never fills a buffer that each of its frames fits |
| Playback.PlayToClient | server/bse_server.cpp:175-287 | from the playback loops through two connections to the client's loop, for a connection that gets bytes p to q: if p is the end of a record the journal is whole records from there on, and when everything handed over has arrived every record sent completely; if q is the end of the file only records were read if and only if p is the end of a record; if nobody else has the descriptor p is 0 and after an undisturbed playback the journal is the file; if all frames fit the client's buffer no read leaves it full |
| Playback.PlayWholeFile | server/bse_server.cpp:175-287 | if the client keeps its connection, nothing fails and its buffer holds every frame, then once the loops are done and the sockets have let everything through its journal is the file; with clients that stay and a rate that is not 1 to 199 the loops are done within a bounded number of turns |
| Playback.ReplyCutsRecord | server/bse_server.cpp:254-261 | a record and a login reply such that the reply, sent inside the record, leaves no way to read both |
| Replay.SliceOfRate | server/bse_server.cpp:203-207 | a full slice is a 200th of the rate rounded down, so from rate 200 on more than half of it, or 4 MiB without a rate; a sleep is 4 ms |
| Replay.SliceWithinRate | server/bse_server.cpp:205-207 | one slice and one 4 ms sleep keep bytes * 800 <= slept_ms * rate |
| PlaybackLoops.RateKept | server/bse_server.cpp:203-261 | over a whole playback with a rate, all clients together are sent at most rate bytes in 800 ms of sleep |
| PlaybackLoops.AllThere | server/bse_server.cpp:254-261 | clients that have a context in every turn and a rate that is not 1 to 199 are what the bound on the turns of SendJnlFile needs |
| Replay.SlicedIs | server/bse_server.cpp:254-261 | after any number of turns the loop has sent one slice for each turn that found the client, at most the chunk |
| Replay.SliceLoopEndsIff | server/bse_server.cpp:254-261 | the slice loop of a chunk ends if and only if the client is found in enough turns, which may come and go, to cover the chunk at a slice each |
| Replay.LostClientEndsIff | server/bse_server.cpp:254-261 | for a client that is gone for good after some turn the loop ends if and only if the turns before were enough |
| Replay.StayingClientEndsIff | server/bse_server.cpp:197-261 | for a client that stays the loop ends if and only if the rate is not 1 to 199 |
| Replay.LostDuringChunk | server/bse_server.cpp:254-261 | a client connected at the start of the loop and gone after its first slice, at rate 200: the loop never ends |
| Replay.GhostStallsPlayback | server/bse_server.cpp:239-261 | after a login under a second code and a disconnect the first account has a client that is not connected, and the slice loop for it never ends |
| PlaybackLoops.InTurnTogether | epoll_net.cpp:36-64 | the requests that one connection accepted stand together in what its descriptor was sent, if it does not get the descriptor back |
| PlaybackLoops.ForWindow | epoll_net.cpp:36-64 | requests that stand together are one window of all requests, with nobody else's among them and none of theirs outside |
| PlaybackLoops.BytesWindow | epoll_net.cpp:36-64 | so are their bytes, and the window is everything if no other connection had the descriptor |
| PlaybackLoops.Player.SendSlice | server/bse_server.cpp:210-219 | the lambda queues the whole slice for a connected client, and nothing otherwise |
| PlaybackLoops.Player.SliceTurn | server/bse_server.cpp:256-260 | one turn sends one slice to a client that is there and nothing to one that is not, nobody else anything, and sleeps if there is a rate |
| PlaybackLoops.Player.SendChunk | server/bse_server.cpp:250-261 | for any rate and any script of who is connected, the client is sent exactly what the turns allow; the loop is done exactly when that is the chunk, and otherwise still going round; the rate is kept at the end of every sleep |
| PlaybackLoops.Player.SendToAll | server/bse_server.cpp:248-271 | every client of the turn is sent the chunk once and nobody else anything, or the clients up to one whose loop does not end; with clients that stay it takes at most a turn a byte |
| PlaybackLoops.Player.SendJnlFile | server/bse_server.cpp:175-287 | every client is sent exactly its part of the schedule, or a first part while some slice loop still goes round; with clients that stay and a rate that is not 1 to 199 it is done within a bounded number of turns; the total over all clients keeps to the rate; for any clients and any rate |

## Left out

- Transport.Connection.SendData: the fallback after a failed malloc is not modelled; allocation succeeds.
- Transport.Connection.HandleRead: the conversion of byte counts to `int` is not modelled, because a single read is bounded by the buffer.
- Events.Network.OnReadable: the handlers `process_data` calls do not change the tables in the same call; `LoginCodec.HandleLogin` is such a handler on its own.
- Events.Network.SendData: the fallback after a failed malloc is not modelled.
- MessageLoops.ClientLoop: a journal file takes every write; what it prints is not modelled.
- Registry.ExactOnRuns: one direction at the end of a run, because a later reuse of the descriptor can make a stale entry true again; `Registry.ExactThroughoutIff` is exact over all points of a run.
- Registry.BseSimulator.CreateClientContext: contexts are values in the table, so a running playback that shares a context object with the table is not captured; playback reads its client set from its turns instead.
- PlaybackLoops.Player.SendJnlFile: who is connected is read once for each turn of a slice loop, because the first `send_data` of a slice takes all of it.
- CommandPipe.EpollNet.HandleCommand: read errors of the pipe are not modelled.
- LoginCodec.SendLogin: the account code is a 16-bit value; truncation of a larger configured number is not modelled.
- WriteArming.NoStrandedWrite: senders, loop and writer are steps on values, because they run concurrently; `Transport.Connection` has the sequential code of the same functions.
- WorkerPool.Workers.WorkStep: concurrency is any order of atomic steps; a task is a value and does not run code of its own.
- Data races that the C++ memory model leaves undefined: unlocked table look-ups, the plain `Running_` flag, an event slot overwritten while a handler still uses its index, a descriptor reused during an in-flight `read` or `write`.
- Bytes that have arrived but are unread when EPOLLRDHUP is handled are discarded; the delivery theorems then stay with their prefix half.
- Sockets, `fcntl`, `mmap`, `inotify` and FIFO creation; their results are parameters with the assumptions above.
- The logoff record and reply (the layouts of the login ones), keep-alive options, prompts, progress output, both `main` functions.
- Sending a mapped query or playback file to clients: the same loop as the `senddata` lambda over one buffer.
- jsoncpp and reading the configuration.
- Closing every connection at shutdown (`delete_context(-1)`).
- `ReverseEndian` for 64-bit and floating point values; the signed overloads have the same bits as the unsigned ones, and `LoginCodec.ReplyFlag` reads the reply flag as signed.
