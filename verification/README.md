# A verified model of adb

This project models the parts of adb (host server, device daemon and client) whose behaviour depends on
state, order or arithmetic, and proves what they promise. The modules follow the program:

| module | what it models |
|---|---|
| Stream, Mux, StreamTheorems | the OPEN/OKAY/WRTE/CLSE protocol of two endpoints over two FIFO channels, as steps of a system with nondeterministic reads, writes and hang-ups |
| SocketList, SocketHeap, SocketEvents, PacketHandler, LocalPair | the linked lists, peer pointers and queues that implement it, each operation proved to do to the heap what the protocol model does to values; and pairs of local sockets |
| EventLoop | fdevents, the pending list and the drain loop |
| KeyWrap | RFC 3394 key wrap in place, over an abstract block cipher |
| ShellPackets, ShellPump | framing of shell packets, and the select-driven pump with back-pressure |
| Transport, TransportTheorems | reader, writer and main thread around a reference count and SYNC messages, as interleaved steps |
| SyncWire, SyncService, SyncClient | file push, from the client's local file to the device's stored file |
| Hex, SmartSocket, AdbIo, Utf8 | request framing and reassembly, exact reads and writes, the streaming UTF-8 splitter |
| Listeners | the listener registry and the disconnect lists of transports |
| Bytes, Lists | the sequence facts the others share |

Descriptors are byte sequences with a script of results: how much each read or write moves, EAGAIN, end of
file or an error. Clocks, file systems and other processes appear only through such parameters.

To verify: `dafny verify dfyconfig.toml`.

## Model

| member | source | states |
|---|---|---|
| StreamTheorems.InOrderDelivery | src/sockets.cpp:125-177 | In every run of the two-endpoint system, with all partial reads and writes and all hang-ups: the bytes a receiver's descriptor took are a prefix of those its sender handed over, and while the receiving end is open, handed over = written, then its queue, then the WRTE payloads in flight |
| StreamTheorems.DeliveryExactly | src/sockets.cpp:315-347 | In every run, while the receiving end is open: the bytes that the reads of the sender's descriptor yielded = those that the writes to the receiver's took, then its queue, then the packets in flight, if and only if the sender never ran the branch that reads while it has no peer |
| StreamTheorems.DeliveredIsPrefix | src/sockets.cpp:315-347 | Wherever the receiver is, if the sender never ran that branch, the bytes its descriptor took are a prefix of those the sender's yielded |
| StreamTheorems.RecordIsTrue | src/sockets.cpp:250-383 | On every run what a socket has on record as read and as written is the concatenation of what the reads and writes of its descriptor came to, event by event |
| StreamTheorems.DeliveredAreReadBytes | src/sockets.cpp:250-383 | The bytes written are a contiguous stretch of the bytes read, starting right after those read before the socket had a peer; without a forced read there are none of the latter |
| StreamTheorems.EarlyBytesAreLost | src/sockets.cpp:335-337 | A run, for any nonempty block of zeros, after which the written bytes are not a prefix of the bytes read |
| StreamTheorems.CreditIsOne | src/sockets.cpp:344-364 | In every run, while both ends live and no read was forced on the sender: sender listening + WRTEs in flight + receiver backlogged + OKAYs in flight = 1 |
| StreamTheorems.GoneForGood | src/sockets.cpp:60-76 | Over any run a socket only moves from active to closing to freed; off the active list it is never found by id, and once freed nothing changes it |
| StreamTheorems.BacklogIsWritten | src/sockets.cpp:212-248 | In every run a closing socket still has and awaits its backlog, and a freed one whose descriptor neither failed nor had a forced read wrote every byte it accepted |
| StreamTheorems.Quiesces | src/adb.cpp:417-496 | Without new descriptor events the number of packets that can be handled is bounded: weighted packets in flight plus live sockets pay for each |
| StreamTheorems.CanQuiesce | src/adb.cpp:417-496 | From any state packets can be handled until both channels are empty |
| StreamTheorems.NoHalfOpen | src/adb.cpp:417-480 | Whenever both channels are empty, the active sockets of the two sides match one to one with crossed ids |
| StreamTheorems.Mirror | src/adb.cpp:360-496 | Swapping the endpoints of every move swaps the endpoints of the result, so all theorems hold for either side |
| Mux.RunKeeps | src/adb.cpp:417-496 | Every run keeps the invariant over both endpoints and both channels: id tables, pending OPENs and refusals, and the per-stream invariant of both directions |
| Mux.HandleIsOnMsg | src/adb.cpp:433-496 | A packet of an established pair changes nothing but the one socket it is addressed to, exactly as the per-stream rule says |
| Mux.OnlyTheAddressed | src/adb.cpp:417-496 | A packet that comes while offline, lacks an id it must have, or speaks of a socket with another peer has no effect and no answer; any other changes at most the socket it addresses or adds one, and answers go to the sender |
| Mux.OpenAnswered | src/adb.cpp:417-431 | An OPEN in order is refused with CLSE(0, id), aborts exactly when ids run out, or gets OKAY from a new socket that listens |
| Mux.AcceptKeeps | src/adb.cpp:417-431 | Accepting an OPEN adds a stream with one OKAY in flight and nothing else, and disturbs no other stream |
| Mux.RefuseKeeps | src/adb.cpp:421-424 | Refusing an OPEN with CLSE(0, id) keeps the invariant |
| Stream.DispatchInv | src/sockets.cpp:250-383 | local_socket_event_func keeps the socket invariant: a nonempty queue exactly when FDE_WRITE is wanted, everything accepted is written or queued |
| Stream.DispatchRecords | src/sockets.cpp:250-383 | The event function passes on or records exactly what it read, if it came to reading, and records exactly what it wrote |
| Stream.DispatchEnds | src/sockets.cpp:250-383 | It closes or frees the socket exactly on a failed write, at the end of file, or when a closing socket has written its backlog; it sends OKAY for a written backlog, then one WRTE with what was read, then CLSE if it ended, and nothing else |
| Stream.EnqueueEnds | src/sockets.cpp:125-177 | A packet offered to an active socket is written as far as the outcome says and the rest queued, or queued behind the backlog, and only a failed write ends the socket |
| Stream.DispatchPaid | src/sockets.cpp:250-383 | Every message the event function sends is paid for by its own change of interest, queue or place |
| Stream.EnqueueInv | src/sockets.cpp:125-177 | local_socket_enqueue keeps the socket invariant for every outcome of its write loop |
| Stream.ReceiveKeeps | src/adb.cpp:433-496 | Receiving the next message of a stream keeps the invariant of both directions |
| Stream.SendKeeps | src/sockets.cpp:447-488 | An end acting on its own keeps the invariant of both directions |
| Stream.DropFlat | src/sockets.cpp:257-290 | Writing n queued bytes, over packet borders, leaves the queue that spells the rest |
| SocketList.InsertLocalSocket | src/sockets.cpp:78-83 | Links the socket in before the list head: the ring then spells the old list and the new socket |
| SocketList.RemoveSocket | src/sockets.cpp:98-107 | Unlinks one socket: the ring spells the list without it |
| SocketHeap.SocketTable.FindLocalSocket | src/sockets.cpp:60-76 | Returns an active socket with these ids, or null exactly when there is none, although it stops at the first with this id |
| SocketHeap.SocketTable.CreateLocalSocket | src/sockets.cpp:85-96 | Appends a socket with the next id, which no active socket has, and aborts exactly when the counter would wrap |
| SocketHeap.SocketTable.LocalSocketClose | src/sockets.cpp:212-248 | Keeps the heap invariant (disjoint rings, distinct ids below the counter, symmetric peers, queue and FDE_WRITE agreeing, so the CHECK holds) and says exactly which sockets leave the active list, linger, or go, and what is sent; every other socket is untouched |
| SocketHeap.SocketTable.CloseAllSockets | src/sockets.cpp:109-123 | Terminates although every close rewrites the list; afterwards the active list is the old one without the sockets on t or peered with t. Each of these is freed with all it held or, if it had a backlog and no write error, lingers on the closing list with that backlog, waiting to write; exactly one CLSE with the ids of the pair goes out for each that had a remote peer, in list order; all other sockets are untouched |
| SocketHeap.SocketTable.RemoteShutdown | src/sockets.cpp:466-476 | Sends CLSE with the ids of the pair, and 0 for a peer that is gone |
| SocketEvents.LocalSocketEnqueue | src/sockets.cpp:125-177 | On the heap, by the descriptor's answers alone: behind a backlog the packet is queued; else as much is written as the answers add up to before the first that moves nothing, and if that is EAGAIN or there is none the socket stays with exactly the rest queued (0 is returned if there is no rest), and if it is 0 or an error the socket is freed and CLSE goes out. The value is that of the stream model |
| SocketEvents.WritesAre | src/sockets.cpp:144-167 | A write loop over any answers of the descriptor gets min(length, sum of the moves before the first answer that moves nothing) far, and has failed if and only if it is not done then and that answer is no EAGAIN |
| SocketEvents.QueueWritesOne | src/sockets.cpp:256-290 | Over a queue, each write offers the rest of the first packet: a failing answer ends all, EAGAIN waits, any other takes that much off that packet |
| SocketEvents.LocalSocketEventFunc | src/sockets.cpp:250-383 | On the heap, for every script of reads and writes: the value of the socket and the packets sent are those of the stream model, which Stream.DispatchRecords and Stream.DispatchEnds describe; other sockets are untouched |
| SocketEvents.CallEventFunc | src/fdevent.cpp:287-294 | Taking the pending events and calling the socket's function is the dispatch step of the stream model |
| SocketEvents.ReadPacket | src/sockets.cpp:315-331 | The read loop collects what the descriptor yields up to the payload limit, and stops at EAGAIN, end of file or an error |
| SocketEvents.CollectsAre | src/sockets.cpp:315-331 | The read loop over any answers of the descriptor collects what they bring before the first without bytes, up to the payload limit, and has met the end if and only if there is room then and that answer is no EAGAIN |
| SocketEvents.StaysActive | src/sockets.cpp:250-383 | An active socket whose descriptor takes or delays every write and has not come to its end stays active, and sends what has arrived in one WRTE |
| LocalPair.PairEvent | src/sockets.cpp:250-383 | Between two local sockets of one process, for every script in which no write fails: the heap invariant stays; what one took from its descriptor, all that was read if it came to reading, is what the other was given, which is what it wrote and its queue; one listens only while the other has no backlog, and again once a backlog is written. Both are closed exactly if reading was reached and met the end of file, or one was forced, something was read and the other could write all of it at once; a closed one waits on the closing list with its backlog, or is freed if it has none |
| LocalPair.Enqueue | src/sockets.cpp:125-177 | local_socket_enqueue from a local peer, while no write fails: the value of the stream model, and the heap invariant |
| PacketHandler.HandleOnHeap | src/adb.cpp:417-496 | handle_packet on the linked lists computes the table that handle_packet of the two-endpoint model computes, sends the same packets, and aborts in the same case |
| PacketHandler.DispatchFd | src/sockets.cpp:250-383 | The events of an active socket on the linked lists do to the table what the dispatch step of the two-endpoint model does |
| PacketHandler.Find | src/sockets.cpp:60-76 | The list search succeeds exactly when the table has a match |
| PacketHandler.ConnectPeer | src/sockets.cpp:494-512 | Pairs an active socket with a new remote one; peers stay symmetric and only the peer of its value changes |
| EventLoop.Loop.FdeventInstall | src/fdevent.cpp:142-159 | Installs an fdevent for a free descriptor and keeps the loop invariant |
| EventLoop.Loop.FdeventRemove | src/fdevent.cpp:161-176 | Takes the fdevent out of the map and off the pending list, and leaves every other fdevent alone |
| EventLoop.Loop.FdeventUpdate | src/fdevent.cpp:178-194 | The poll mask follows the wanted events |
| EventLoop.Loop.FdeventSet | src/fdevent.cpp:196-214 | Masks pending events, and takes the fdevent off the list exactly when none is left; the poll mask of this descriptor follows, and no other changes |
| EventLoop.Loop.FdeventProcess | src/fdevent.cpp:241-285 | After polling, the pending list is duplicate-free and holds exactly the installed fdevents with events; FDE_READ is there exactly for POLLIN or trouble, FDE_WRITE exactly for POLLOUT, FDE_ERROR exactly for trouble |
| EventLoop.Loop.CallFdfunc | src/fdevent.cpp:287-294 | The callback starts with no events and nothing pending (TakeEvents) and is called with the events there were; whatever it does, an fdevent it removes is off the pending list afterwards, and an event it neither removes the fdevent of nor masks off is still there |
| EventLoop.Loop.SubprocExit | src/fdevent.cpp:300-345 | Marks the fdevent of an exited subprocess; if it left nothing to read, a read is added to the pending events or, where there are none, the callback is called with a read at once; otherwise nothing is called |
| EventLoop.Loop.Drain | src/fdevent.cpp:429-433 | Terminates whatever the callbacks do, and aborts only where one installs an fdevent. Each fdevent called was on the list at the start, is called once, for events it had there, and not after a callback removed it. Each that was on the list is called, with each of its events that no callback removes it for or masks off (calls forced by a subprocess exit apart) |
| EventLoop.Loop.DrainQuietly | src/fdevent.cpp:429-433 | If callbacks leave the loop alone, every polled event is delivered once and in order |
| EventLoop.Loop.LoopOnce | src/fdevent.cpp:413-435 | A callback runs only for the fdevent that was installed for its descriptor when it was polled, and not after another callback removed it: for a write only after POLLOUT, for a read only after POLLIN or trouble or at a forced end of file. Each event that poll found is delivered by a call, a read after POLLIN or trouble and a write after POLLOUT among them, unless a callback removes the fdevent or masks that event off (calls forced by a subprocess exit apart); without installs the loop does not abort |
| KeyWrap.AesWrapKey | boringssl/android_compat_keywrap.c:64-92 | For every length: -1 exactly if it is no positive multiple of 8; else out is the RFC wrap of the input, unwritten bytes are kept, and the length + 8 is returned, on 32 bits |
| KeyWrap.AesUnwrapKey | boringssl/android_compat_keywrap.c:94-125 | Returns the key of section 2.2.2 of RFC 3394 when the integrity check holds, else wipes the output and returns 0; lengths it does not accept, those below 8 where the subtraction wraps included, give -1 and touch nothing |
| KeyWrap.UnwrapOfWrap | boringssl/android_compat_keywrap.c:64-125 | If decryption undoes encryption, unwrapping a wrapped key gives the key back, for every length that is a positive multiple of 8 |
| KeyWrap.AcceptedIsWrapped | boringssl/android_compat_keywrap.c:94-125 | If encryption also undoes decryption, a ciphertext is accepted only if it is the wrapping of what is returned |
| KeyWrap.WrapLoops | boringssl/android_compat_keywrap.c:76-89 | The nested in-place loops compute 6n steps of the shift register |
| KeyWrap.UnwrapLoops | boringssl/android_compat_keywrap.c:102-118 | The nested in-place loops compute 6n steps of the reverse shift register |
| KeyWrap.StirredIsXor | boringssl/android_compat_keywrap.c:81-87 | The conditional byte operations are XOR with the 64-bit big-endian counter, for every 32-bit counter |
| KeyWrap.CounterSpells | boringssl/android_compat_keywrap.c:70-88 | The stamp of step t is the eight bytes that spell t |
| KeyWrap.WrapIsIndexed | boringssl/android_compat_keywrap.c:70-93 | The shift-register form that the loops are proved against is the index-based form of section 2.2.1: step t = n * j + i encrypts block i in place and puts t into A, six rounds over all blocks from the initial value |
| KeyWrap.DigitsSpell | boringssl/android_compat_keywrap.c:81-87 | That encoding spells the counter |
| ShellPackets.FragmentsCarry | src/shell_service_protocol.cpp:32-54 | The fragments of a packet of n bytes carry its id and, in order, its payload, and are max(1, ceil(n/capacity)) many |
| ShellPackets.EncodeLayout | src/shell_service_protocol.cpp:56-62 | On the wire a packet is its id, its length in four bytes with the lowest first, and its payload |
| ShellPackets.ShellProtocol.Read | src/shell_service_protocol.cpp:32-54 | Delivers the next fragment and stops at the next header; false only at the end of the stream or on a failure |
| ShellPackets.ReadAll | src/shell_service_protocol.cpp:32-54 | Repeated reads of any written sequence yield exactly the fragments of its packets |
| ShellPackets.Write | src/shell_service_protocol.cpp:56-62 | Sends header and payload |
| ShellPackets.WriteAll | src/shell_service_protocol.cpp:56-62 | Packets written one after the other leave their encodings, in order |
| ShellPump.Subprocess.PassInput | src/shell_service.cpp:553-620 | With something left to write no packet is read and some is written unless stdin would block; otherwise exactly one fragment is taken in. What the child has accepted, the last input_bytes_left_ bytes of the fragment and the packets to come are the stdin data, until the client closes stdin or its descriptor dies; on sound descriptors the client is reported dead only at the end of its packets |
| ShellPump.Subprocess.PassOutput | src/shell_service.cpp:622-641 | Each read of the child becomes one packet with the id of its stream, in order; every call uses up some of what the descriptor yields or reports its end; output is lost only with the client |
| ShellPump.Subprocess.SelectLoop | src/shell_service.cpp:498-551 | Keeps the pump invariant: the protocol descriptor is in the read set exactly when nothing is left to write, the child stdin in the write set exactly when something is; on a run without failures a descriptor is found dead only at the end of its data; each select that finds a party ready uses up some of what there is to do for it |
| ShellPump.Subprocess.PassDataStreams | src/shell_service.cpp:448-488 | Over every script of select results the invariant stays and the child is hung up on exactly if the protocol descriptor died. On a run without failures what EndOfRun needs is kept. On every run, as often as select finds stdout, stderr, either of them, or whatever the input awaits ready, that much of the reads, fragments and stdin bytes to come is used up, or the descriptor is closed; with output always ready, as it is at its end, the loop is over after as many turns as there are reads and closings to come |
| ShellPump.EndOfRun | src/shell_service.cpp:448-488 | What a run without failures has done when it is over: with both output descriptors closed the client has been sent all the child wrote, each stream in order; with the client gone all its packets were read, and the child has all the stdin data unless the client had stdin closed or the child had ended its output |
| ShellPump.Subprocess.Handle | src/shell_service.cpp:518-548 | After one select, when no descriptor dies: a ready client has one fragment read, a ready child is written to, and ready output shrinks |
| TransportTheorems.ClosedOnce | src/transport.cpp:185-308 | In every interleaving close, removal and kick happen at most once; close and removal wait for both threads to drop their references, in that order, and no thread finds the count at zero. The kick function is called if and only if kick_transport ran while t was listed, by the main thread or by a thread on its way out |
| TransportTheorems.DeletedIsFinal | src/transport.cpp:501-525 | After deletion no thread has a step left |
| TransportTheorems.DeletionFollows | src/transport.cpp:231-299 | When the reader is leaving, every schedule of the remaining steps ends in deletion if and only if the writer is leaving too or a SYNC(0) was put for it |
| TransportTheorems.StuckExactly | src/transport.cpp:223-246 | With the reader gone, nothing can happen without a failing read exactly when the writer waits and both channels are empty, and then no SYNC(0) was put |
| TransportTheorems.ReaderLeavesAlone | src/transport.cpp:198-202 | A run on which the reader has left without a SYNC(0) and deletion is not inevitable |
| TransportTheorems.OnlyOnlinePacketsReachTheRemote | src/transport.cpp:259-294 | What reached the remote is a prefix of the packets queued after the first SYNC(1, token) and before the first SYNC(0), in order and without gaps; all of them when the writer has caught up |
| TransportTheorems.EverythingSaidIsSent | src/adb.cpp:366-380 | On every run the packets put on the transport, SYNC aside, are in order exactly those that handle_packet answered and sockets sent |
| TransportTheorems.AnswersGetThrough | src/adb.cpp:369-380 | The echo of SYNC comes before what handle_packet says at SYNC(1) and after what it says at SYNC(0), so that both get through to the remote |
| TransportTheorems.StaleSyncOpensNothing | src/transport.cpp:271-277 | As long as no SYNC with the current token was echoed, nothing reaches the remote |
| TransportTheorems.RelayIsWindow | src/transport.cpp:266-291 | Deciding packet by packet with the active flag passes on exactly the window |
| TransportTheorems.HandledInOrder | src/transport.cpp:204-246 | The main thread handles SYNC(1, token), then what came from the remote in order (on a host without the empty packets), then SYNC(0) |
| TransportTheorems.TokenIs | src/transport.cpp:193-199 | The token is counted up once, on 32 bits, when the reader starts, and is what it announces |
| TransportTheorems.HostDropsBlanks | src/transport.cpp:216-220 | Of the packets from the remote the host's reader drops those with command 0 and no others |
| TransportTheorems.OnlineIs | src/adb.cpp:133-150 | t->online is what handle_packet made of it last in the run |
| TransportTheorems.OwnSyncsOnly | src/transport.cpp:193-199 | If no SYNC comes from the remote, the writer sees SYNC(1, token) and SYNC(0) once each, in that order |
| TransportTheorems.OfflineExactly | src/adb.cpp:369-380 | At every moment, so also at removal: handle_offline has run for the reader's SYNC(0) if and only if the reader managed to put it and nothing is left unread on transport_socket; t->online is then false for good |
| TransportTheorems.OfflineBeforeDeletion | src/transport.cpp:266-270 | If the writer left by reading SYNC(0), handle_offline ran for it before, whatever the remote sent |
| TransportTheorems.DeletedWithoutOffline | src/transport.cpp:283-287 | A run that deletes the transport while it is online, with the SYNC(0) never handled |
| Transport.StepKeeps | src/transport.cpp:185-299 | Every step of reader, writer and main thread keeps the invariant of reference count, channels and SYNC |
| SyncWire.PushRoundTrip | src/file_sync_service.cpp:363-405 | From the bytes of a push the service recovers path, mode, timestamp and content for every chunking, and consumes exactly those bytes |
| SyncWire.OversizeIsRefused | src/file_sync_service.cpp:249-252 | The service accepts a regular file if and only if no chunk exceeds 65536 bytes |
| SyncWire.SpecRoundTrip | src/file_sync_service.cpp:364-379 | Path and mode survive "%s,%d" and the split at the last comma, commas in the path included |
| SyncWire.ModeRoundTrip | src/file_sync_service.cpp:373-379 | Every 32-bit mode survives "%d" and strtoul, even when it prints as a negative number |
| SyncWire.ModeForms | src/file_sync_service.cpp:371-379 | Besides decimal, strtoul takes modes like 0755, 0x1fF, blank and sign |
| SyncWire.DecimalLeads | src/file_sync_client.cpp:677-679 | %d prints decimal digits with the most significant first |
| SyncWire.IdsSpell | src/file_sync_service.h:23-36 | The ids are the four letters they are named after, in this order on the wire |
| SyncWire.HeaderLayout | src/file_sync_service.h:38-79 | A header is two 32-bit words, lowest byte first |
| SyncWire.BodyRoundTrip | src/file_sync_service.cpp:237-260 | A chunked content is taken apart whole if no chunk is oversize, else refused |
| SyncService.PermissionsSpread | src/file_sync_service.cpp:391-394 | The user's bits are as sent; the group gets what it was sent and the user's, others what they were sent and both; nobody gets more, and no other bit is set |
| SyncService.Service.HandleSendFile | src/file_sync_service.cpp:201-311 | Stores exactly the content and timestamp of the messages up to DONE; on a sound connection it succeeds if and only if they are in order and the path is no directory, and never returns if and only if the stream ends after whole DATA messages or inside a header; a refused push leaves no file |
| SyncService.Service.HandleSendLink | src/file_sync_service.cpp:316-360 | Makes the link from the receive buffer up to its first NUL, unless something has the name, and answers OKAY if and only if DATA and DONE are in order |
| SyncService.Service.Drain | src/file_sync_service.cpp:285-305 | Throws away DATA messages; on a sound connection it never ends if and only if the stream ends after whole DATA messages or inside a header |
| SyncService.EndlessExactly | src/file_sync_service.cpp:285-305 | The streams on which the drain never ends are exactly those made of whole DATA messages of at most 65536 bytes, and a piece of a header or nothing at the end |
| SyncService.Service.DoSend | src/file_sync_service.cpp:363-405 | Splits the specification, frees a path that names a file or a link, and receives a link or a file according to the mode; a directory stays one, a device stays one and takes the content after what it had, and no other path changes |
| SyncService.Service.HandleSyncCommand | src/file_sync_service.cpp:461-512 | One SEND command stores what the parsed bytes say and consumes exactly them; on a sound connection it fails only if they do not parse or a directory or device is in the way, and it never returns exactly for a regular file whose stream ends after whole DATA messages or inside a header; QUIT changes nothing |
| SyncService.CutPushHangs | src/file_sync_service.cpp:285-305 | For every NUL-free path and mode of a regular file and every sequence of DATA messages: when the client is gone before DONE, between messages or inside a header, the service hangs |
| SyncService.Service.FileSyncService | src/file_sync_service.cpp:514-522 | Given the bytes of any sequence of pushes and a QUIT, stores all of them in order, reads every byte, and answers OKAY once for each |
| SyncService.StoredAsMeant | src/file_sync_service.cpp:316-346 | What is stored does not depend on what the receive buffer held before |
| SyncClient.SyncConnection.SendRequest | src/file_sync_client.cpp:281-299 | Sends header and path if the path has at most 1024 bytes, else nothing |
| SyncClient.SyncConnection.SendSmallFile | src/file_sync_client.cpp:374-416 | Sends SEND, one DATA and DONE, and records the bytes |
| SyncClient.SyncConnection.SendLargeFile | src/file_sync_client.cpp:418-476 | Sends the file in nonempty chunks of at most 65536 bytes, all of it unless the service complains meanwhile |
| SyncClient.SyncConnection.CopyDone | src/file_sync_client.cpp:478-499 | Counts one transferred file exactly when an expected OKAY arrives |
| SyncClient.SyncConnection.SendFile | src/file_sync_client.cpp:677-729 | Sends the wire form of a push of the local file, in one piece if stat says it is small; if it did not outgrow a message since, one the service accepts |
| SyncClient.SyncConnection.SyncSend | src/file_sync_client.cpp:677-731 | Skips exactly if the two types have the regular-file bit in common and the times are equal, or both are links and the remote is no older; else, on a sound connection with a readable file, succeeds if and only if the specification fits and OKAY arrives, with the push sent and one file counted |
| SyncClient.RegularUpToDate | src/file_sync_client.cpp:681-691 | The push of a regular file is skipped exactly for a remote file of the same time whose type has the bit of a regular file: a regular file, and a link or a socket as well |
| SyncClient.LinkUpToDate | src/file_sync_client.cpp:681-691 | The push of a link is skipped for a remote link exactly if that is no older, and never for a directory |
| SyncClient.LinkCountsAsCopy | src/file_sync_client.cpp:681-691 | An input: a regular file over a remote link of the same time is not sent |
| SyncClient.GrownFileIsRefused | src/file_sync_client.cpp:715-724 | A file that stat calls small is accepted if and only if it has at most 65536 bytes when it is read |
| SyncClient.PushAll | src/file_sync_client.cpp:677-731 | Both ends together, however the bytes are cut up on the way: after any sequence of pushes the device has a copy of each file and the client has counted each once |
| Hex.PrintRead | src/sockets.cpp:552-593 | unhex undoes printing, for every number and width |
| Hex.ReadPrint | src/sockets.cpp:552-593 | Printing undoes unhex on lower-case digits |
| Hex.DigitCharacters | src/sockets.cpp:552-576 | Digits are printed as 0-9a-f and read in either case, and no other character is a digit |
| Hex.FirstDigitCounts | src/sockets.cpp:552-593 | The first digit of a number counts most |
| Hex.Unhex | src/sockets.cpp:552-593 | The number on 32 bits, or -1 if a character is no digit |
| Hex.SendRead | src/adb_io.cpp:32-60 | A string sent comes back if and only if it has at most 65535 bytes, none of them NUL |
| Hex.SendProtocolString | src/adb_io.cpp:32-42 | Sends the length in at least four hexadecimal digits and the string up to its first NUL, or nothing if it has more than 262140 bytes |
| Hex.ReadProtocolString | src/adb_io.cpp:44-60 | Decodes, for every size of the single reads, with the blanks, sign and 0x that strtoul takes in the length |
| Hex.PrefixedForm | src/adb_io.cpp:44-60 | strtoul in base 16 takes 0x or 0X before the digits and stops at the first character that is none |
| Hex.SignForms | src/adb_io.cpp:44-60 | It skips blanks, takes a plus, and for a minus wraps around on 64 bits |
| SmartSocket.Smart.Enqueue | src/sockets.cpp:656-703 | The verdict is a function of the bytes buffered so far; a piece that would exceed the payload limit fails and leaves the buffer as it was |
| SmartSocket.VerdictExactly | src/sockets.cpp:676-703 | A request fails exactly when its first four bytes spell no positive number, waits exactly while it has fewer bytes than that, and then is the string up to the first NUL |
| SmartSocket.PrefixVerdict | src/sockets.cpp:683-703 | No proper prefix of a request is dispatched or refused; the whole is dispatched as the original string |
| SmartSocket.Feed | src/sockets.cpp:656-703 | For every split of a request into nonempty chunks: waiting on each but the last, and exactly the service string on the last |
| AdbIo.ReadFdExactly | src/adb_io.cpp:70-95 | All or nothing, whatever the sizes of the single reads |
| AdbIo.WriteFdExactly | src/adb_io.cpp:97-124 | Everything in order, or a prefix and an error |
| Utf8.CodepointLenIs | src/sysdeps_win32.cpp:2279-2281 | The shift-and-mask expression is the length table of UTF-8 (section 3 of RFC 3629) |
| Utf8.ParseCompleteUtf8 | src/sysdeps_win32.cpp:2288-2324 | Splits off exactly an incomplete sequence at the end, if there is one |
| Utf8.Console.Write | src/sysdeps_win32.cpp:2345-2363 | What is emitted and the carry are what was written; the carry has at most 3 bytes |
| Utf8.WriteAll | src/sysdeps_win32.cpp:2345-2363 | While the bytes written are a prefix of valid UTF-8, every piece emitted ends on a code point boundary |
| Listeners.Registry.InstallListener | src/adb_listeners.cpp:178-240 | Each outcome with its exact effect; names stay distinct and every transport's disconnect list stays exact, rebinding included |
| Listeners.Registry.RemoveListener | src/adb_listeners.cpp:145-155 | Removes the listener with this name and its entry in its transport's list, or reports that there is none |
| Listeners.Registry.RemoveAllListeners | src/adb_listeners.cpp:157-168 | Removes all but the server's own listeners, which are those whose target begins with an asterisk |
| Listeners.Registry.ListenerDisconnect | src/adb_listeners.cpp:116-126 | Removes the listener without touching the list being walked |
| Listeners.Registry.RunDisconnects | src/transport.cpp:849-854 | Afterwards no listener is bound to the transport, its list is empty, and the other listeners are as they were |

## Findings

Properties one would expect that the code does not have, each with an input and the exact condition under
which it does hold.

| property | input that breaks it | exact condition |
|---|---|---|
| While the receiving end of a stream is open, the bytes read by the sender are those written, queued and in flight | a hang-up polled on the opener's descriptor before its OKAY arrives: local_socket_event_func reads, and drops, what is there (`StreamTheorems.EarlyBytesAreLost`, where the bytes written are not even a prefix of those read) | no FDE_READ that yields bytes is dispatched while the socket has no peer (`StreamTheorems.DeliveryExactly`; then, open or not, the bytes written are a prefix: `StreamTheorems.DeliveredIsPrefix`) |
| handle_offline precedes deletion of a transport | the remote goes away while the writer's write fails: the removal overtakes the reader's SYNC(0) (`TransportTheorems.DeletedWithoutOffline`) | the reader put its SYNC(0), and nothing is left unread on transport_socket (`TransportTheorems.OfflineExactly`) |
| A transport whose reader is leaving is deleted in the end | the reader's first write fails, so it leaves without a SYNC(0), and the writer waits (`TransportTheorems.ReaderLeavesAlone`) | the writer is leaving too, or a SYNC(0) was put (`TransportTheorems.DeletionFollows`) |
| SendProtocolString and ReadProtocolString are inverse | a string of 65536 bytes, which the length guard lets through and "%04x" prints with five digits (`Hex.TooLong`); or one with a NUL | at most 65535 bytes, none of them NUL (`Hex.SendRead`) |
| A file that stat calls small is accepted by the service | a file that grows past 65536 bytes between stat and reading goes in one oversize message | it has at most 65536 bytes when it is read (`SyncClient.GrownFileIsRefused`) |
| sync_send skips a regular file only if there is a regular file of the same time | the remote has a symbolic link, or a socket, of the same time (`SyncClient.LinkCountsAsCopy`) | the times differ, or the remote type is 8 or has not that bit in it (`SyncClient.RegularUpToDate`) |
| handle_sync_command returns | a client that hangs up in the middle of a push: the drain in handle_send_file tries the next header for ever | the command is not a SEND of a regular file followed, up to the end of the stream, by nothing but whole DATA messages and perhaps a piece of a header (`SyncService.Service.HandleSyncCommand`); every push cut off there is one (`SyncService.CutPushHangs`) |

The comment at src/file_sync_service.cpp:364 speaks of a mode like "0755"; the client prints it in decimal,
and the code reads either. The comment at src/transport.cpp:172-183 says a transport IO failure always posts
SYNC(0,0); the code posts none when the reader's own write fails.

## Left out

- PacketHandler.HandleOnHeap: relates one call to one step, and follows the active sockets only. A socket on the closing list has given up its id, so the heap proofs speak of it by its own fields and not through the table; opening a stream from this side and the marking of polled sockets are steps of the protocol model alone.
- StreamTheorems.GoneForGood: that no event is dispatched to a freed socket is a guard of the protocol model. It stands for fdevent_remove, which EventLoop proves takes an fdevent off the pending list; the two modules are not joined.
- StreamTheorems.CreditIsOne: not claimed once a read was forced on the sender, by a hang-up (src/fdevent.cpp:264-272) or by the exit of a subprocess (src/fdevent.cpp:337-343), which then may send without credit.
- StreamTheorems.NoHalfOpen: one transport and remote peers only. Ids are looked up without the transport, so several transports at once are not modelled; JDWP, its tracker and the device tracker close peers without CLSE.
- SocketEvents.LocalSocketEnqueue: the peer is remote, as in LocalSocketEventFunc and CallEventFunc; LocalPair has the local peers. The packets from pkt_first to pkt_last are a sequence, not linked nodes.
- LocalPair.PairEvent: as long as no write fails. Where one does, local_socket_enqueue closes both sockets and returns 1, and the caller goes on with a freed socket.
- LocalPair.Enqueue: the same.
- EventLoop.Loop.LoopOnce: the run queue for other threads and fdevent_terminate_loop are not modelled.
- KeyWrap.AesUnwrapKey: not for an empty input, for which the length wraps to one that is accepted and more is read than there is.
- ShellPump.Subprocess.PassInput: the terminal-size packet is consumed; the ioctl it leads to is not modelled. fork, exec and the exit packet are left out.
- TransportTheorems.OfflineExactly: assumes that no SYNC comes from the remote; nothing in the code filters one.
- TransportTheorems.DeletionFollows: assumes that no new packets are sent and that steps not taken forever are taken in the end. That t is used by sockets after it was deleted without handle_offline is not modelled: sends are steps only of a listed transport.
- SyncService.Service.HandleSendFile: owners, capabilities, SELinux labels, the special modes of system paths and a failing utime are left out, as is the text of the system's error in a complaint.
- SyncService.Service.HandleSyncCommand: the commands other than SEND and QUIT.
- SyncClient.SyncConnection.SyncSend: the exchange by which sync_lstat learns the remote timestamp (its result is a parameter), and Windows, where a link is sent as a file. A mode without digits reads as 0.
- SmartSocket.Smart.Enqueue: up to the point where the service string is known. The phase of a stream before its service is chosen, and what host services do, are not part of the stream model.
- Hex.ReadProtocolString: a negative length, at which resizing the string aborts, reads here as a string that never arrives.
- Listeners.Registry.InstallListener: assumes the system never resolves port 0 to a name in use, and a transport for every listener but the server's own, since rebinding dereferences it.
- exit_on_close, packet ownership (the host's reader drops an empty packet without freeing it), check_header and check_data, authentication, the handshake's banner, USB, TCP, mDNS, pull, list and stat, close_smartsockets, escape_arg and tracing.
