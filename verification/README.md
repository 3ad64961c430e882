# 4over6: a verified model of the tunnel protocol

4over6 carries IPv4 packets between an Android client and a server over one IPv6 TCP connection. A message is a
five-byte header, `int length` (which counts the header) and `char type`, and a payload. The repository holds one
client and several servers for this protocol. This project models four of its parts:

* the **epoll server** for many clients: a 256-entry lease table, a reassembly buffer per descriptor drained by
  `memmove`, routing of packets from the tun device, a heartbeat sweep, and the Internet checksum;
* the **native client** at the other end, with the text and number encodings it shares with the server and with its
  Java service;
* the **single-client C server** with non-blocking sockets, which goes on with a partly written frame while its
  buffer grows;
* the **threaded server**: three threads writing to one socket under a mutex, a condition-variable queue, and a global
  table of address claims.

`read`, `write`, `recv`, `time` and the scheduler are nondeterministic: a read returns a chunk of any size, a write
takes any part or fails, time is a parameter or a step. Ghost logs record what was received, written, granted and
delivered. Code that changes state in place is a class whose methods are proved against functions of the old state;
properties of whole runs are then proved about sequences of such steps. `dafny verify dfyconfig.toml` checks all of it.

| file | contents |
|---|---|
| `Wire.dfy` | frames, encoding, the drain loops as parsers, chunk independence |
| `Config.dfy` | dotted quads printed by the servers and scanned by the client |
| `DrainBuffer.dfy` | a receive buffer filled at the end and drained from the head |
| `LeaseTable.dfy` | the address pool, its log, the heartbeat sweep |
| `EpollServer.dfy` | the handlers of the epoll server |
| `ServerRuns.dfy` | whole runs of the epoll server |
| `TunBatches.dfy` | the packets those runs read from the tun device, one by one |
| `Client.dfy` | the handlers of the native client |
| `Stamps.dfy` | when a client was last heard in those runs, and which clients a sweep closes |
| `BufferBounds.dfy` | when a receive buffer of the epoll server is full in those runs |
| `ServerSteps.dfy` | the handlers carry out the events of those runs |
| `Tunnel.dfy` | uplink: what the client frames and what the epoll server writes to its tun device |
| `Downlink.dfy` | downlink: what the epoll server routes and what the client writes to its tun device, hears and is told |
| `Heartbeat.dfy` | both heartbeats together, in time |
| `PipeServer.dfy` | the C server |
| `Threads.dfy` | `sendMessage` and the interleavings of the threads of one connection |
| `ThreadedReader.dfy` | the reader thread |
| `DeadSocket.dfy` | the reader and keep-alive threads once the socket has died |
| `MsgQueue.dfy` | the queue monitor |
| `IpClaims.dfy` | the address claims and the routing that goes by them |
| `Checksum.dfy` | `in_cksum` against RFC 1071 |
| `Codec.dfy` | endian converters, and integers between Java and the native client |
| `Sequences.dfy`, `Wrappers.dfy` | helpers |

## What turned out not to hold

For each of these there is the exact condition under which the code does what it is for, and an input that fails.

* A packet for destination 0.0.0.0 finds the reserved first entry, whose descriptor is -1, and stays at the head of the
  tun buffer for ever (`EpollServer.RoutingProgressIff`, `EpollServer.ZeroDestinationWedges`).
* `process_tun` takes everything in its buffer for one packet. When a write fails, the packet stays and the next one
  leaves behind it, in one frame to the first one's client, or is dropped with it. A packet reaches the holder of its
  own destination, alone in its frame, exactly when the buffer was empty when it was read and again when the next one
  was (`EpollServer.RoutedAloneIff`, `TunBatches.OwnAndAloneIff`, `TunBatches.OnlyOwnPacketsIff`,
  `TunBatches.MisroutedRun`).
* `deallocate_ip_addr` stops at its first match, so a second address request on a connection, or the retry of a request
  whose reply could not be written, leaves an entry owned by a closed descriptor (`LeaseTable.ReleaseIsCompleteIff`,
  `ServerRuns.SecondRequestLeaks`, `ServerRuns.RetriedRequestLeaks`). A sweep frees exactly the silent entries if and
  only if every silent entry is the first that its descriptor holds (`LeaseTable.SweepIsPointwiseIff`,
  `LeaseTable.SweepExactIff`); otherwise it frees a first entry in place of a silent one (`LeaseTable.LaterSilentGoesWrong`,
  `LeaseTable.SweepFreesWrongEntry`).
* The client drops the packets that arrive before its tun device is open: nothing is lost on the way down exactly when
  there are none (`Downlink.DownlinkReceived`).
* A read with no room in the buffer is taken for a hang-up. While its reads are drained a client is safe from this
  exactly when all its frames are at most 65536 bytes long (`BufferBounds.NoSpuriousCloseIff`); the client reads packets
  of up to four megabytes. With frames that fit, a buffer is full only after a read that stopped at a full pool or a
  failed write (`BufferBounds.FullOnlyWhenStopped`), and after either of these it can be (`BufferBounds.FullPoolFills`,
  `BufferBounds.RefusedPacketFills`).
* The epoll server's address reply has no terminator: it is read back for certain exactly when the byte behind it is
  not a digit (`Config.TerminatorExact`, `Tunnel.ReplyReadBackIff`).
* In the C server an address reply written while a frame is open breaks the framing, as does a failed data write, a
  short header, and a heartbeat or reply written in part (`PipeServer.NextFramedIff`).
* The threaded server's keep-alive announces a length of zero, at which the client's drain loop stops making progress
  (`Threads.KeepAliveStops`, `Threads.RunReceived`); its pool has 1022 numbers of which 254 can be routed to, and a
  client with a number from 256 on takes another client's address for its own (`IpClaims.RoutableIff`,
  `IpClaims.ToldAddress`, `IpClaims.ToldIsRoutedIff`); a packet routed by number reaches the connection that holds it exactly when that has
  registered, before which it may reach one that is gone (`IpClaims.LookupFindsHolderIff`, `IpClaims.SomeStaleLookup`);
  a lost address reply can make one reader clear the claim of another, which then locks a mutex it holds, and replies
  never lost is exactly what excludes this (`IpClaims.NoSelfDeadlockIff`); two readers that choose the same number stop
  the process (`IpClaims.AssertsFireIff`, `IpClaims.SomeClaimAborts`).
* When a connection's socket dies, its reader dispatches the last header again and again. The address is released
  exactly when that header was of a packet with a payload, or was no keep-alive and the count reaches sixty before the
  next write (`DeadSocket.ReleasedIff`).
* The reader of the threaded server recognises a stream of frames exactly when only packets carry a payload
  (`ThreadedReader.ReaderAgreesIff`), and the packets it pushes are five bytes too long
  (`ThreadedReader.Reader.ReadThread`).
* The client writes `msg.length` bytes of a received packet to its tun device, five more than the packet has, and counts
  them (`Client.Client.HandleSocket`, `Client.CountersOfDownlink`).
* The checksum is the RFC's on every buffer of a length exactly up to 131074 bytes (`Checksum.RightIff`).
* `writeInt` is recovered by the native client exactly for numbers that are not negative or are multiples of 2^24;
  `readLong` is 2^32 too small exactly when bit 31 is set (`Codec.WriteInt`, `Codec.CounterReadBack`).

## Model

| member | source | states |
|---|---|---|
| Wire.Reassemble | server/cy/main.cpp:388-442 | conservation: the frames a drain recognises, encoded again, followed by the residue are exactly the bytes received, on every byte string |
| Wire.OnTheWire | client_frontend/app/src/main/jni/proto.cpp:14-23 | the layout: the length counts the five bytes of the header and stands lowest byte first, then the type, then the payload |
| Wire.ParseEncoded | client_frontend/app/src/main/jni/proto.cpp:101-147 | round trip: any list of encoded frames is recognised as that list whatever follows it |
| Wire.ParseAppend | server/cy/main.cpp:385-442 | a drain, then more bytes, then a drain recognises what one drain of everything would |
| Wire.ChunkIndependence | server/cy/main.cpp:373-442 | for every residue and every list of reads, draining after each read dispatches the same frames and leaves the same residue as one drain of the whole |
| Wire.PrefixOfStream | server/cy/main.cpp:388-442 | of any part of a stream of frames a prefix of the frames has been recognised, and the loop never meets a malformed header |
| Wire.RestIsWaiting | server/cy/main.cpp:388-393 | the loop leaves only a residue it would not take anything more from: no whole header, or a frame not yet whole |
| Wire.DrainLoopsAgree | server/cy/DroidOver6Server.c:101-136 | on any part of a stream of frames with lengths from five up to 2^31 - 1 the C loop, with its four-byte guard and unsigned length, recognises what the C++ loops recognise |
| Wire.DrainLoopsAgreeIff | server/cy/DroidOver6Server.c:101-136 | on arbitrary bytes they agree exactly unless the C++ loops leave four bytes announcing less than a header, or more bytes announcing a length with its top bit set |
| DrainBuffer.Inbox.Fill | server/cy/main.cpp:373-385 | a read appends its bytes to the content and moves nothing else |
| DrainBuffer.Inbox.Peek | server/cy/main.cpp:389-393 | the guards tell exactly whether the head is a whole frame, needs more bytes or is malformed, in terms of the parser |
| DrainBuffer.Inbox.Consume | server/cy/main.cpp:440-441 | the `memmove` drops exactly the first n bytes |
| DrainBuffer.Inbox.ShiftUp | server/cy/DroidOver6Server.c:159-160 | the `memmove` after a failed write puts one foreign byte before the content |
| Config.ReadIp | client_frontend/app/src/main/jni/proto.cpp:214-222 | one call scans a quad and leaves the pointer at the first blank or terminator behind the first character |
| Config.ScanUnsigned | client_frontend/app/src/main/jni/proto.cpp:216-217 | what `%d` makes of white space and a decimal number, whatever follows |
| Config.ScanSigned | client_frontend/app/src/main/jni/proto.cpp:216-217 | and of a number with a sign |
| Config.ScanNothing | client_frontend/app/src/main/jni/proto.cpp:216-217 | and that it scans nothing where no number stands |
| Config.ScanPrinted | client_frontend/app/src/main/jni/proto.cpp:216-218 | scanning a printed quad recovers every octet but the last for certain, and the last together with the digits that follow it |
| Config.ConfigRoundTrip | client_frontend/app/src/main/jni/proto.cpp:115-121 | round trip: any list of addresses printed with blanks between them and followed by anything but a digit is recovered by one READ_IP each |
| Config.TerminatorExact | server/cy/main.cpp:406-416 | the reply is sent without its terminator: the addresses are recovered whatever memory follows exactly when its first byte is not a digit |
| LeaseTable.FirstFrom | server/cy/main.cpp:199-216 | the linear scans find the least matching entry, or none only if there is none |
| LeaseTable.InitialTableOk | server/cy/main.cpp:494-502 | the initial pool refines the empty log, with entries 0, 1 and 255 reserved |
| LeaseTable.GrantKeeps | server/cy/main.cpp:165-184 | a grant keeps: entry i is held by fd exactly if the last event about i is a grant to fd; reserved entries are never granted; grants go to entries nobody holds; leased entries = grants minus releases |
| LeaseTable.ReleaseKeeps | server/cy/main.cpp:187-196 | so does a release, of an entry somebody held |
| LeaseTable.PoolConserved | server/cy/main.cpp:494-502 | conservation: free plus leased is 253, and free is 253 minus the grants not yet released |
| LeaseTable.AddressFindsHolder | server/cy/main.cpp:209-216 | a non-zero destination finds an entry exactly when that address is leased; the entry is the only one and its descriptor is the one the log says |
| LeaseTable.ZeroAddressFindsReserved | server/cy/main.cpp:209-216 | destination 0.0.0.0 finds entry 0, which has no descriptor |
| LeaseTable.ReleaseIsCompleteIff | server/cy/main.cpp:187-196 | after a release the descriptor owns nothing exactly when it held at most one entry |
| LeaseTable.SweepLeavesRest | server/cy/main.cpp:446-461 | though it frees by descriptor, no iteration reaches an entry the loop has not come to, in any table |
| LeaseTable.SweepCloses | server/cy/main.cpp:458-460 | in any table, a sweep closes exactly the watched descriptors with a silent entry, each once |
| LeaseTable.SweepIsPointwise | server/cy/main.cpp:445-462 | if every silent entry of a watched descriptor is the first that the descriptor holds, the sweep treats each entry by itself, at its own reading of the clock |
| LeaseTable.InjectiveComeFirst | server/cy/main.cpp:445-462 | one lease per descriptor is enough for that |
| LeaseTable.SweepIsPointwiseIff | server/cy/main.cpp:445-462 | on every table that is what its log says and at any readings of the clock, that condition is exact: without it some entry is not what it would be by itself |
| LeaseTable.SweepExactIff | server/cy/main.cpp:445-462 | the promise to each client, if and only if that condition holds: freed exactly if silent for more than 60 s; a survivor was written to within 20 s, all other fields unchanged, its stamp moved exactly if a keep-alive was due |
| LeaseTable.FirstIsFreed | server/cy/main.cpp:187-196 | a sweep that closes a descriptor frees the first entry it holds, whichever was silent |
| LeaseTable.LaterSilentGoesWrong | server/cy/main.cpp:458-460 | where the condition fails, the first entry is freed and a silent one keeps its lease |
| LeaseTable.SweepFreesWrongEntry | server/cy/main.cpp:458-460 | with two leases on a descriptor an iteration frees the live one and keeps the silent one |
| LeaseTable.LeakSurvivesSweep | server/cy/main.cpp:247-254 | of two entries of one descriptor at least one survives every sweep, and both do when the descriptor is already closed |
| EpollServer.Server.constructor | server/cy/main.cpp:494-502 | the server starts with the initial pool, an empty log and nothing written |
| EpollServer.Server.AllocateIpAddr | server/cy/main.cpp:165-184 | refines the grant: least free entry, both stamps now, its own address, one log event; -1 and no change exactly when the pool is full |
| EpollServer.Server.DeallocateIpAddr | server/cy/main.cpp:187-196 | refines the release |
| EpollServer.Server.SearchUserInfoByFd | server/cy/main.cpp:199-206 | the least leased entry with the descriptor, -1 if none |
| EpollServer.Server.SearchUserInfoByAddr | server/cy/main.cpp:209-216 | the least entry in use with the address, -1 if none |
| EpollServer.Server.FreeClientFd | server/cy/main.cpp:247-254 | releases exactly if epoll watches the descriptor and so can be made to forget it |
| EpollServer.Server.WriteAll | server/cy/main.cpp:256-268 | however short the writes: all bytes in order, or a strict part of them and a failure |
| EpollServer.Server.SendFrame | server/cy/main.cpp:342-353 | header and payload in two runs of writes come to the encoded frame, or to a strict part of it and a failure |
| EpollServer.Server.GrantAddress | server/cy/main.cpp:396-420 | an address request grants and replies, is refused by a full pool without effect, or leaves the lease and a strict part of the reply |
| EpollServer.Server.HandleMessage | server/cy/main.cpp:395-437 | the dispatch of one message: its effect, a refusal, or what a failed write leaves |
| EpollServer.Server.ServeHead | server/cy/main.cpp:389-441 | the body of the loop: finish and remove the head message, or leave the buffer and say why |
| EpollServer.Server.Drain | server/cy/main.cpp:388-442 | on any buffer: the first messages of its parse take effect in order, the others and the residue are still in the buffer byte for byte, and the reason for stopping is the right one; the loop ends |
| EpollServer.Server.ProcessClient | server/cy/main.cpp:365-443 | the same for a call with any result of its read; a failed or empty read releases the descriptor and nothing else |
| EpollServer.Server.ProcessTun | server/cy/main.cpp:299-363 | any result of the read: the buffered packet goes as one frame to the entry its destination finds, is dropped when there is none, or stays when a write fails; unless one does, fewer than twenty bytes are left |
| EpollServer.Server.SendBeat | server/cy/main.cpp:450-455 | one whole keep-alive frame, or a strict part of it and a failure; no other socket is touched |
| EpollServer.Server.VisitEntry | server/cy/main.cpp:447-461 | refines one iteration of the sweep |
| EpollServer.Server.ProcessHeartbeat | server/cy/main.cpp:445-462 | refines the sweep with one reading of the clock per entry, and each descriptor that takes its writes is sent one keep-alive per entry that was due one |
| EpollServer.Server.ProcessServer | server/cy/main.cpp:270-297 | an accepted descriptor starts with an empty buffer and is an event source exactly if epoll took it; a failed accept changes nothing |
| EpollServer.ReplyText | server/cy/main.cpp:404-416 | the reply for entry i is, byte for byte, the text `13.8.0.i 0.0.0.0 166.111.8.28 166.111.8.29 8.8.8.8` without a terminator |
| EpollServer.AskedIsTold | server/cy/main.cpp:395-420 | a message of type 100 gets the least free entry i, never a reserved one, with both stamps now, and is answered with a message of type 101 for 13.8.0.i; nothing else changes |
| EpollServer.AskedIsRouted | server/cy/main.cpp:335-343 | from then on a packet for 13.8.0.i is routed to the client that asked |
| EpollServer.RouteIff | server/cy/main.cpp:326-343 | on every lawful table: a packet is for a descriptor exactly when it has twenty bytes and its destination is 13.8.0.a for an entry a that the descriptor holds |
| EpollServer.BufferToHeadsHolder | server/cy/main.cpp:322-358 | the buffered bytes, as a whole, are written to the holder the log names for the destination at their head and to no other socket, whole if they left the buffer; they are dropped if nobody holds it |
| EpollServer.RoutedAloneIff | server/cy/main.cpp:322-361 | a packet read behind bytes b, when the buffer empties, goes to the holder of its own destination alone in its frame exactly when b was empty |
| EpollServer.SecondPacketMisrouted | server/cy/main.cpp:342-361 | after a failed write the next packet goes to the first one's client, and its own client is sent nothing |
| EpollServer.SecondPacketDropped | server/cy/main.cpp:335-361 | or it is dropped, when the lease of the first one has ended |
| EpollServer.RoutingProgressIff | server/cy/main.cpp:335-361 | what is in the buffer can leave it exactly when it is nothing, or has the twenty bytes of an IP header and a destination other than 0.0.0.0 |
| EpollServer.ZeroDestinationWedges | server/cy/main.cpp:305-361 | over any later runs, such a packet stays at the head, everything read is appended, and no client is sent anything |
| ServerRuns.HandleAllKeeps | server/cy/main.cpp:388-442 | any sequence of messages keeps the table a refinement of its log and writes exactly its packets to the tun device, in order |
| ServerRuns.RunKeeps | server/cy/main.cpp:509-545 | in every reachable state the table is what its log says; for each connection the messages finished followed by the buffer are exactly the bytes received, and its packets were written once each, in order; the tun reads that left, in batches, followed by those in the buffer are all that were read |
| ServerRuns.OwnBytesOnly | server/cy/main.cpp:270-297 | what a connection will still dispatch is a function of its own bytes alone, whatever was on the descriptor before |
| ServerRuns.PoliteRunOwned | server/cy/main.cpp:187-196 | over runs in which each connection asks at most once and gets its reply: leases and connections are one to one, and a descriptor that is not open owns no address |
| ServerRuns.SecondRequestLeaks | server/cy/main.cpp:396-402 | a second request, then a release: the descriptor still owns an entry |
| ServerRuns.RetriedRequestLeaks | server/cy/main.cpp:412-419 | so does the retry of a request whose reply was cut short |
| TunBatches.TunBytesConserved | server/cy/main.cpp:299-363 | conservation: over every run the bytes read from the tun device are those that left its buffer, routed or dropped, followed by those still in it, in order |
| TunBatches.OwnAndAloneIff | server/cy/main.cpp:299-363 | in any run, a read that left went to the holder of its own destination and alone in its frame if and only if the buffer was empty when it was read and when the next one was |
| TunBatches.AllOwnIff | server/cy/main.cpp:299-363 | every read did, with at most one waiting, if and only if the buffer was empty at every read |
| TunBatches.OnlyOwnPacketsIff | server/cy/main.cpp:299-363 | whatever the next packet is, it can reach a client only if it is addressed to its lease, exactly unless the buffer holds bytes that may be the head of a packet for that lease and leaves room for a header |
| TunBatches.MisroutedRun | server/cy/main.cpp:342-361 | any run with an empty tun buffer may go on with two events after which a packet for one client is in the frame of another and its own client was sent nothing |
| Stamps.KeepAliveStamps | server/cy/main.cpp:429-434 | a message of type 104 moves the receive stamp of its sender's entry to now and changes nothing else |
| Stamps.StampIsLastHeard | server/cy/main.cpp:429-434 | in every state of every run with polite clients, a client's stamp is the time at which the server last finished a keep-alive of it, or the request that got it the address |
| Stamps.ClosedIffUnheard | server/cy/main.cpp:445-462 | in such runs a sweep closes a client and ends its lease exactly when more than sixty seconds have gone since then; one that holds no address is never closed |
| BufferBounds.FullOnlyWhenStopped | server/cy/main.cpp:373-442 | over every run, for a client whose frames fit: the buffer has room after every drained read, and is full only while a read stands that stopped at a full pool or a failed write |
| BufferBounds.NoSpuriousCloseIff | server/cy/main.cpp:373-383 | over all runs, for a client that asks no more often than the pool can grant: a read that was drained always leaves room for the next, exactly when all frames are at most 65536 bytes |
| BufferBounds.SomeSpuriousClose | server/cy/main.cpp:373-383 | a run in which every read is drained and the buffer is full, for any frames of which one is too long |
| BufferBounds.FullPoolFills | server/cy/main.cpp:399-402 | with a full pool, a request and a packet that fit fill the buffer |
| BufferBounds.RefusedPacketFills | server/cy/main.cpp:421-427 | so does one packet that the tun device does not take |
| ServerSteps.AcceptOne | server/cy/main.cpp:270-297 | the handler carries out the accept event of a run, exactly if epoll took the descriptor |
| ServerSteps.ReadOne | server/cy/main.cpp:365-443 | so does the client handler for a read, for some number of finished messages and reason to stop |
| ServerSteps.CloseOne | server/cy/main.cpp:375-383 | and for a hang-up or failed read |
| ServerSteps.RouteOne | server/cy/main.cpp:299-363 | so does the tun handler for a tun read, behind whatever is in its buffer |
| ServerSteps.SweepOnce | server/cy/main.cpp:445-462 | so does the sweep, for some set of descriptors it could not write to; epoll then watches exactly the open connections |
| Tunnel.SayPacket | client_frontend/app/src/main/jni/proto.cpp:72-90 | the tun handler adds to the stream the frame of its packet, or a strict part of it and fails |
| Tunnel.SayAsk | client_frontend/app/src/main/jni/proto.cpp:164-170 | so does the request for an address |
| Tunnel.SayBeat | client_frontend/app/src/main/jni/proto.cpp:197-212 | so does the heartbeat when it is due, and otherwise nothing is written |
| Tunnel.WroteFrames | client_frontend/app/src/main/jni/proto.cpp:72-90 | over any calls, failing only at the last, the stream is a prefix of the frames of what was said, and all of them if the last call did not fail |
| Tunnel.UplinkPrefix | server/cy/main.cpp:365-443 | at any moment of any run, for any chunking and any failures at both ends, the packets written for a connection are a prefix of those the client's handlers were given, whole and in order |
| Tunnel.UplinkExact | client_frontend/app/src/main/jni/proto.cpp:72-90 | once all the client wrote has been read and drained, and its last call did not fail, they are exactly those packets: none lost, merged or invented |
| Tunnel.ReplyReadBackIff | server/cy/main.cpp:404-416 | the client reads from the reply 13.8.0.i, the address that the table routes by, and the four constants, whatever follows in memory, exactly when that does not begin with a digit |
| Downlink.RunSent | server/cy/main.cpp:299-363 | over every run, whatever replies, packets and keep-alives interleave: a socket on which no write failed carries exactly the frames of its connection, whole and in order |
| Downlink.RunProper | server/cy/main.cpp:209-216 | over runs with polite clients, the destination at the head of every packet frame a connection was ever sent is the lease it holds now, and every reply told it that lease |
| Downlink.RunVia | server/cy/main.cpp:322-361 | over every run, the packet frames a connection was sent are, in order and byte for byte, batches of tun reads that left for it |
| Downlink.AddressedAsTold | server/cy/main.cpp:335-343 | of the packets sent to a client that was told an address, all that found the tun buffer empty are addressed to it |
| Downlink.OnlyAddressedAsTold | server/cy/main.cpp:335-343 | if every tun read finds the buffer empty, such a client is sent single packets for its address and nothing else |
| Downlink.ClientRunReceives | client_frontend/app/src/main/jni/proto.cpp:92-152 | over any run of successful calls, however the stream is cut: the frames received are those handled with the tun device closed, then those handled with it open; the tun writes are the packets of the latter, one by one |
| Downlink.ClientRunHears | client_frontend/app/src/main/jni/proto.cpp:129-131 | in any such run the client's stamp is the time of the last call that handled a message of type 104, whatever else was in it |
| Downlink.ClientRunTold | client_frontend/app/src/main/jni/proto.cpp:109-128 | and the replies it has handled are the payloads of type 101 in what it received, in order |
| Downlink.DownlinkReceived | client_frontend/app/src/main/jni/proto.cpp:132-140 | end to end: the packets sent to a client are, in order, those it dropped with its tun device closed, those it wrote to the device, each once and with five bytes more, and those under way; once all is read, nothing was lost exactly when no packet came with the device closed |
| Downlink.ToldItsLease | client_frontend/app/src/main/jni/proto.cpp:109-128 | end to end, with polite clients: every reply a client has handled told it the lease its connection holds |
| Downlink.ClientNeverFull | client_frontend/app/src/main/jni/proto.cpp:92-99 | end to end: what a call leaves in the client's buffer of four megabytes is less than 65541 bytes, so no read finds it full |
| Client.Client.constructor | client_frontend/app/src/main/jni/proto.cpp:42-65 | the state after initialisation |
| Client.Client.HandleTunnel | client_frontend/app/src/main/jni/proto.cpp:72-90 | a packet becomes one encoded frame and is counted, modulo 2^64, or a strict part of the frame and a failure |
| Client.Client.ReadReply | client_frontend/app/src/main/jni/proto.cpp:110-121 | five scans of the reply and the memory behind it give the twenty octets of its addresses whenever there are five |
| Client.Client.AnswerReply | client_frontend/app/src/main/jni/proto.cpp:109-128 | a reply is answered to the Java service with these octets and the socket, or the call fails |
| Client.TerminatedReplyAnswered | client_frontend/app/src/main/jni/proto.cpp:109-128 | a reply that ends in a terminator is passed on exactly as it was printed |
| Client.Client.WriteTun | client_frontend/app/src/main/jni/proto.cpp:134-138 | each write to the tun device is the packet and five bytes more |
| Client.Client.HandleFrame | client_frontend/app/src/main/jni/proto.cpp:109-144 | the dispatch of one frame, with every reply handled answered; a refused one changes nothing the client keeps |
| Client.Client.ServeHead | client_frontend/app/src/main/jni/proto.cpp:101-147 | the body of the loop: dispatch and remove, or leave everything as it is |
| Client.Client.Drain | client_frontend/app/src/main/jni/proto.cpp:101-147 | on any buffer: the first frames of its parse took effect in order, the rest is in the buffer; success means no whole frame is left; the loop ends |
| Client.Client.HandleSocket | client_frontend/app/src/main/jni/proto.cpp:92-152 | the same for any result of the read, with the tun writes matching the packets received one to one; success means all frames were of types 101, 103 and 104 |
| Client.Client.HandleHeartbeat | client_frontend/app/src/main/jni/proto.cpp:197-212 | after more than 60 s of silence it gives up and writes nothing, whatever is due; otherwise it writes the bytes 5, 0, 0, 0, 104 exactly when it last did more than 20 s ago; the stamp moves exactly with a whole one |
| Client.Client.FetchConfig | client_frontend/app/src/main/jni/proto.cpp:164-170 | the five bytes 5, 0, 0, 0, 100, or a strict part of them and a failure |
| Client.SeenOf | client_frontend/app/src/main/jni/proto.cpp:109-144 | over any frames: the stamp is now if one is of type 104 and else unmoved, the replies are the payloads of type 101 in order, and a closed tun device counts nothing |
| Client.CountersOfDownlink | client_frontend/app/src/main/jni/proto.cpp:135-137 | over any frames, in_packets counts the packets and in_bytes their bytes plus five for each, modulo 2^64 |
| Heartbeat.StepsAreTheServers | server/cy/main.cpp:395-462 | the timed steps of the server are what the dispatch of types 100 and 104 and the sweep do to the client's entry in the whole table |
| Heartbeat.StepsAreTheClients | client_frontend/app/src/main/jni/proto.cpp:129-131 | what the client makes of a keep-alive in those runs is what its dispatch does |
| Heartbeat.CheckOne | client_frontend/app/src/main/jni/proto.cpp:197-212 | and its check is the handler's, with the five bytes written exactly when a beat is due |
| Heartbeat.BeatsApart | client_frontend/app/src/main/jni/proto.cpp:197-212 | in every timed run, whatever the bounds, the keep-alives of each side are at least twenty-one seconds apart |
| Heartbeat.NoFalseTimeout | client_frontend/app/src/main/jni/proto.cpp:197-212 | in every state of every timed run with setup + gap + delay at most 40 s, neither side has given up, with the invariant that shows why |
| Heartbeat.SomeFalseTimeout | client_frontend/app/src/main/jni/vpn.cpp:68-73 | with any larger bounds there is a run in which the client gives up on a server that still serves it |
| Heartbeat.NoFalseTimeoutIff | server/cy/main.cpp:445-462 | no run has a false time-out exactly when setup + gap + delay is at most 40 s |
| PipeServer.PipeServer.constructor | server/cy/DroidOver6Server.c:237-241 | both buffers empty, no frame open |
| PipeServer.PipeServer.ReadToBuf | server/cy/DroidOver6Server.c:87-98 | appends the reads that fit, stops early only within 65536 bytes of the end, and returns their total, or the result of the failing read |
| PipeServer.PipeServer.ReadTun | server/cy/DroidOver6Server.c:271-274 | the tun bytes are appended and logged |
| PipeServer.PipeServer.RawToOver6 | server/cy/DroidOver6Server.c:139-161 | for any results of its writes, the new buffer, counter and wire are those of the specification function |
| PipeServer.PipeServer.BeginFrame | server/cy/DroidOver6Server.c:146-153 | the branch that cuts a frame from everything buffered |
| PipeServer.PipeServer.ResumeFrame | server/cy/DroidOver6Server.c:154-157 | the branch that goes on with an open frame |
| PipeServer.PipeServer.Heartbeat | server/cy/DroidOver6Server.c:294-302 | the bytes 5, 0, 0, 0, 104 are written, with any result, exactly when 20 s have passed and no frame is open; the time is noted all the same |
| PipeServer.PipeServer.PeekUnsigned | server/cy/DroidOver6Server.c:102-106 | the guards of the loop against its parser |
| PipeServer.PipeServer.HandleFrame | server/cy/DroidOver6Server.c:110-131 | the dispatch of one frame, with any results of the writes: a packet is written once, a request answered |
| PipeServer.PipeServer.ServeHead | server/cy/DroidOver6Server.c:101-136 | the body of the loop |
| PipeServer.PipeServer.Over6Handle | server/cy/DroidOver6Server.c:100-137 | on any buffer: every whole frame is dispatched once, in order, exactly the residue stays; each packet is written to the tun device by exactly one write, so that it is lost only if that fails; each request is answered; the loop ends |
| PipeServer.FlushKeepsIff | server/cy/DroidOver6Server.c:139-161 | the framing (whole frames, then one short by exactly the first `remain` buffered bytes; every tun byte sent or buffered, in order) is kept exactly when the data write did not fail and a new frame's header went out whole |
| PipeServer.InsertKeepsIff | server/cy/DroidOver6Server.c:118-128 | a heartbeat or address reply keeps the framing exactly when none of it was written, or all of it while no frame was open |
| PipeServer.NextFramedIff | server/cy/DroidOver6Server.c:256-302 | so each event of the loop keeps the framing exactly when it is orderly, a condition on the write results and on whether a frame is open |
| PipeServer.RunFramed | server/cy/DroidOver6Server.c:256-302 | the framing holds in every state of every orderly run |
| PipeServer.RunReceived | server/cy/DroidOver6Server.c:256-302 | at any moment the client has recognised exactly the completed frames and holds the open one, and the payload bytes are a prefix of the tun bytes, the missing ones buffered |
| PipeServer.ReplyReadBack | server/cy/DroidOver6Server.c:119-128 | this reply ends in a terminator, so its five addresses are recovered whatever follows |
| Threads.Socket.WriteLoop | server/4over6-server/clientConnection.cpp:63-75 | whatever the writes answer: all bytes in order, or a strict part and a failure; it fails only on an error |
| Threads.Socket.SendMessage | server/4over6-server/clientConnection.cpp:58-96 | all of the message and 0, or a strict part of it and -1 |
| Threads.RunKeeps | server/4over6-server/clientConnection.cpp:98-139 | in every interleaving of writer, keep-alive and reader threads, with any short writes and any errors: the socket bytes are the parts of the messages of finished calls, never mixed, and then what the mutex holder has sent of its own; the parts of calls that did not fail are whole; the packets and replies whole on the socket are in order prefixes of the packets routed to the connection and of the texts the reader was to send |
| Threads.RunReceived | server/4over6-server/clientConnection.cpp:98-119 | with the mutex free and no call failed, the client recognises exactly the messages before the first keep-alive and never goes past it |
| Threads.KeepAliveStops | server/4over6-server/clientConnection.cpp:106-110 | a message of length zero stops the drain loops whatever follows it |
| ThreadedReader.ReaderAgrees | server/4over6-server/clientConnection.cpp:145-167 | on any part of a stream of the client's frames the reader thread recognises what the drain loops recognise |
| ThreadedReader.ReaderAgreesIff | server/4over6-server/clientConnection.cpp:155-167 | on whole streams of frames, exactly when only packets carry a payload |
| ThreadedReader.Reader.ReadLoop | server/4over6-server/clientConnection.cpp:146-154 | however short the reads, and whether or not they fail: the first bytes of the array are the next bytes of the stream, the rest of it is untouched, and an unfilled array means the stream had no more or a read failed |
| ThreadedReader.Reader.Dispatch | server/4over6-server/clientConnection.cpp:155-211 | what follows a header: the payload of a packet is read and pushed with five stale bytes of the array behind it, a keep-alive clears the count |
| ThreadedReader.Reader.Serve | server/4over6-server/clientConnection.cpp:144-211 | one message is read and dispatched, or nothing is; a failure in the header leaves the type of the last message in place |
| ThreadedReader.Reader.ReadThread | server/4over6-server/clientConnection.cpp:141-212 | on any stream the first messages are dispatched, each once and in order, all of them unless a read fails; each push is the client's packet and exactly five bytes more; after a failure in a header the structure has the type of the last message, or 101 for a request; the count is zero exactly if a keep-alive was among them, else unmoved |
| DeadSocket.NeverReleased | server/4over6-server/clientConnection.cpp:98-119 | with the socket dead and the condition below not met, no interleaving of the two threads ever releases the address |
| DeadSocket.ReleasedIff | server/4over6-server/clientConnection.cpp:141-214 | the address can be released exactly when the last header was of a packet with a payload, or was no keep-alive and the count is sixty, or forty with the keep-alive thread still counting |
| DeadSocket.ReleaseIsCertain | server/4over6-server/clientConnection.cpp:98-119 | when it can be it will be: at the reader's next step, or once the keep-alive thread has ended, which takes at most forty-one of its steps |
| MsgQueue.RunKeeps | server/4over6-server/msg_queue.cpp:6-36 | in every interleaving: popped followed by queued is pushed, in lock order; no take from an empty queue; a consumer asleep beside a non-empty queue is owed a notification |
| MsgQueue.SleeperIsServed | server/4over6-server/msg_queue.cpp:20-27 | that notification can be given at once and leads the consumer to the front element: notifying after the unlock loses no wake-up |
| MsgQueue.Queue.Push | server/4over6-server/msg_queue.cpp:20-27 | the critical section appends to the container and is the corresponding step |
| MsgQueue.Queue.Ready | server/4over6-server/msg_queue.cpp:9-9 | the wait predicate decides between taking and sleeping |
| MsgQueue.Queue.Pop | server/4over6-server/msg_queue.cpp:10-11 | after the wait there is an element; the oldest one is taken |
| IpClaims.RunKeeps | server/4over6-server/clientConnection.cpp:18-56 | in every interleaving of reader threads in which replies are sent: a number has at most one connection past its claim, taken numbers are held, and registered connections are found under their numbers |
| IpClaims.AssertsFireIff | server/4over6-server/clientConnection.cpp:18-25 | in every such interleaving the process is stopped exactly by a claim of a number that another connection holds, claimed since it was chosen, by a second request, and by the end of a connection that never asked; a release never fails |
| IpClaims.SomeClaimAborts | server/4over6-server/clientConnection.cpp:170-195 | a run with every reply sent in which the second of two readers that chose the same number stops the process |
| IpClaims.LookupFindsHolderIff | server/4over6-server/clientConnection.cpp:27-33 | in every interleaving in which replies are sent, a lookup of a held number finds its holder exactly when that has registered |
| IpClaims.LookupOfUnheld | server/4over6-server/clientConnection.cpp:27-33 | and a lookup of a number nobody holds finds nobody, whoever held it before |
| IpClaims.ChoosesLeastUnheld | server/4over6-server/clientConnection.cpp:45-56 | and a connection chooses the least number from 2 to 1023 that nobody holds |
| IpClaims.SomeStaleLookup | server/4over6-server/clientConnection.cpp:27-43 | before that it may find the previous holder, already gone |
| IpClaims.SomeSelfDeadlock | server/4over6-server/clientConnection.cpp:35-43 | a run with one lost reply in which a reader locks the mutex it holds |
| IpClaims.NoSelfDeadlockIff | server/4over6-server/clientConnection.cpp:35-43 | the re-locking branch is unreachable exactly when replies are never lost |
| IpClaims.IpNum | server/4over6-server/clientConnection.cpp:10-16 | `getline` by dots ends with the last field; its number, or the exception when it has none |
| IpClaims.RoutedByLastOctet | server/4over6-server/tun.cpp:3-9 | the number of a printed destination is its last octet, whatever the others are |
| IpClaims.RoutableIff | server/4over6-server/clientConnection.cpp:45-56 | a number is the route of some packet exactly when it is below 256, though numbers run to 1023 |
| IpClaims.ToldAddress | server/4over6-server/clientConnection.cpp:177-184 | the client that holds number n takes 10.128.0.(n mod 256) for its address, whatever follows it in the reply |
| IpClaims.ToldIsRoutedIff | server/4over6-server/tun.cpp:50-63 | packets for the address it takes are routed by its number exactly when the number is below 256 |
| IpClaims.NoNumber | server/4over6-server/clientConnection.cpp:10-16 | an address without digits, such as one never set, makes `std::stoi` throw |
| IpClaims.IpTable.GetFreeIP | server/4over6-server/clientConnection.cpp:45-56 | the least number from 2 to 1023 whose status is false; the program exits only when there is none |
| IpClaims.IpTable.SetIpStatus | server/4over6-server/clientConnection.cpp:18-25 | claims or clears the number; the assert fires exactly when it already was so, the exception exactly when there is no number |
| IpClaims.IpTable.GetConnectionByIp | server/4over6-server/clientConnection.cpp:27-33 | the connection registered under a number whose status is true, and none when the status is false, whatever the map holds |
| IpClaims.IpTable.SetConnectionWithIp | server/4over6-server/clientConnection.cpp:35-43 | registers the connection, or locks the held mutex exactly when the number is not taken |
| IpClaims.IpTable.Route | server/4over6-server/tun.cpp:50-63 | a packet goes to the connection registered under the last octet of its destination; one that ends before the destination throws |
| Checksum.InCksum | server/cy/main.cpp:218-245 | the loop with its 32-bit accumulator; up to 131074 bytes the answer is the complement of the one's complement sum (RFC 1071, section 1) |
| Checksum.Example | server/cy/main.cpp:218-245 | the numerical example of RFC 1071 section 3 on either kind of machine, and an odd byte |
| Checksum.SumIsNorm | server/cy/main.cpp:229-239 | adding words with end-around carry is reducing their plain total modulo 65535, zero only for zero |
| Checksum.FoldsAreOneComplement | server/cy/main.cpp:240-244 | two folds are always enough for a 32-bit sum |
| Checksum.RightIff | server/cy/main.cpp:218-245 | the accumulator never overflows, and the answer is the RFC's on all buffers of a length, exactly up to 131074 bytes |
| Checksum.StoredChecksumVerifies | server/cy/main.cpp:218-245 | storing the answer in a zeroed word at an even offset makes the answer over the whole zero |
| Checksum.ByteOrderIndependent | server/cy/main.cpp:229-239 | on a machine of the other byte order the answer has the same two bytes in memory (RFC 1071, section 2) |
| Checksum.WordOrderIrrelevant | server/cy/main.cpp:229-239 | buffers with the same words in any order have the same answer |
| Codec.ByteOrders | server/cy/DroidOver6Server.c:67-85 | which kind of machine stores which byte first |
| Codec.LittleToLocal | server/cy/DroidOver6Server.c:67-74 | on either kind of machine, the little-endian value of the bytes in memory |
| Codec.LocalToLittle | server/cy/DroidOver6Server.c:76-85 | on either kind of machine, memory holds the little-endian bytes |
| Codec.ConvertersInverse | server/cy/DroidOver6Server.c:67-85 | the converters are mutual inverses on all 2^32 values |
| Codec.WriteInt | client_frontend/app/src/main/java/com/example/a4over6/MyVpnService.java:111-116 | with division truncating towards zero: what the native side receives, which is the number exactly if it is not negative or a multiple of 2^24 |
| Codec.WriteIntRecoveredIff | client_frontend/app/src/main/jni/proto.cpp:174-182 | the same for the bytes as the native side reads them |
| Codec.CounterReadBack | client_frontend/app/src/main/java/com/example/a4over6/MyVpnService.java:98-110 | a native counter below 2^63 arrives exactly if bit 31 is clear, and exactly 2^32 too small otherwise |
| Codec.ReadResponse | client_frontend/app/src/main/java/com/example/a4over6/MyVpnService.java:83-96 | however the pipe is cut into reads, the first bytes of it, or a failure exactly when it ends before |

## Left out

- Malformed headers: at a length below five every model stops (`sane` is false). The code spins at 0, takes odd amounts
  from 1 to 4 and reads before the buffer for negative lengths.
- A keep-alive from a connection without a lease writes to entry -1 of the table; it is modelled without effect.
- EpollServer.Server.HandleMessage: that keep-alive, and one reading of the clock per call of `process_client`.
- EpollServer.Server.ServeHead: stops at a malformed header.
- EpollServer.Server.Drain: stops at a malformed header, reads the clock once.
- EpollServer.Server.ProcessClient: stops at a malformed header, reads the clock once.
- Client.Client.Drain: stops at a malformed header, and so does HandleSocket.
- PipeServer.PipeServer.Over6Handle: stops at a length below five.
- EpollServer.Server.Write: writes to the tun device are atomic, and no write returns zero.
- EpollServer.Server.ProcessServer: descriptors stay below the 2048 entries of the buffer table.
- ServerRuns.PoliteRunOwned: assumes at most one request per connection, as the code does; the two lemmas after it show
  that both halves of the assumption are needed.
- ServerRuns.RunKeeps: epoll watches exactly the open connections; a connection it never took is not in the run.
- Downlink.DownlinkReceived: the client's calls succeed; once a write to the client failed (`cut`) nothing is said about
  what its socket carries.
- PipeServer.RunReceived: its runs are orderly; the client's receive buffer of four megabytes, smaller than this server's
  frames can be, does not take part.
- Threads.RunKeeps: the queue is the first-in-first-out queue that MsgQueue proves; the connection is not freed while
  packets are routed to it, and the keep-alive thread does not close the socket while the others still write, after which
  its descriptor may be another connection's.
- IpClaims, Threads, DeadSocket and MsgQueue interleave on values, one step per critical section or write: threads and
  blocking have no direct form. The sections themselves are methods that change a class in place. IpClaims merges
  sending the reply and what precedes it.
- IpClaims.IpTable.Route: packets of sixteen to eighteen bytes, for which `mkAddr` reads past a string.
- ThreadedReader.Reader.ReadThread: the guard of its loop, which DeadSocket has; the end of the stream, at which the code
  reads again until the socket is closed under it.
- ThreadedReader.Reader.Serve: packets fit the 4096-byte array with their headers; the address reply and its claim are
  IpClaims' part, and that the reply is built in the same array matters only for which five stale bytes are pushed.
- DeadSocket.ReleasedIff: a header cut off by the failure may leave any length that is not negative; writing to a dead
  socket fails instead of raising a signal.
- `tunWriter`, and the server socket of the threaded server.
- Config.ReadIp: memory holds a blank or terminator somewhere, and numbers are not limited to 32 bits before the cast.
- Client.Client.ReadReply: the memory behind the reply ends in terminators somewhere; numbers that are not found keep
  the values they had, here arbitrary ones.
- Client.Client.AnswerReply: what a failed write leaves in the response pipe.
- The client's poll loop, of which only the order and period of the heartbeat check matter (Heartbeat).
- Heartbeat: time is whole seconds.
- The near copies of the epoll server, the command-line client, the Android interface, IPv6 peer addresses, and the
  set-up of sockets, tun devices and epoll.
