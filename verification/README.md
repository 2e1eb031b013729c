# leahOS: verified models of its user-space servers and tools

leahOS is a microkernel; what other systems keep in the kernel, it runs as
ordinary programs. This project models the parts of those programs whose
correctness is not visible from any one function, and proves what they keep.

| files | program | what is modelled |
|---|---|---|
| `NetServer`, `NetSends`, `NetReplies`, `NetAnswers`, `NetConns`, `NetAccept`, `NetReaders`, `Netd` | `user/netd.c` | the network stack's event loop: parked requests, connections, listeners |
| `Tcp`, `TcpTimer`, `TcpStream`, `TcpLoss` | `user/netd.c` | its TCP, and two hosts running it over a network that loses, duplicates and reorders |
| `Checksum`, `Dns` | `user/netd.c` | one's-complement checksums; names and answers of the domain name system |
| `FrameRing` | `user/e1000d.c`, `user/netd.c` | the frame ring between the card's driver and the stack |
| `Diff` | `user/diff.c` | the longest common subsequence table and the walk over it |
| `TreeView`, `TreePaths` | `user/browse.c` | the file browser's tree, built by splicing instead of recursion |
| `Linker` | `user/ld.so.c` | hash lookup, load-order scope, relocation |
| `AccountLines`, `AccountFile`, `Accounts`, `AccountRuns`, `Authd`, `AccountRights` | `user/authd.c` | the account file as a table |
| `AudioRing` | `user/audiod.c` | the sound card's buffers and the sample ring |
| `TextBuffer` | `user/edit.c` | the editor's flat text, line index and caret |
| `Bresenham` | `user/paint.c` | the line loop |
| `Png` | `tools/mkmedia.py` | writing and reading pictures |
| `IconGrid` | `user/desktop.c` | placing icons |
| `Wrappers`, `Bytes`, `Sequences` | | options, bytes, big-endian numbers, subsequences |

The pattern is the same throughout. What the program computes is a function on
values, or a state machine with one function per step; the theorems are about
those, for every input or every run. Where the program works by loops and
updates, methods and classes do the same and are proved equal to the functions,
so the theorems hold of them.

`dafny verify dfyconfig.toml` checks everything.

## What is proved

**The stack answers every request exactly once** (`NetReplies.ExactlyOnce`). At
every moment of every run, each request received has been answered once or is
parked in one slot of the pending table. None is parked longer than 2000 ticks,
or 4000 for a name asked for again over IPv6 (`NoneKeptWaiting`); this holds even
when the 32-bit tick counter wraps, and a request is given up on or renewed early
exactly when the counter wraps while it waits (`GivenUpEarlyIff`), as a ping within
2000 ticks of the wrap is (`WrapGivesUp`).

**Every answer is about its question** (`NetAnswers.EveryReplyTold`). In every run
each reply goes to a request that was made, and is a refusal, an immediate result,
or what a frame said that came in after the request: a hardware address for the
address asked for, the echo of that sequence number, an address for a name from an
answer with the id its question went out with, a datagram for the port listened on,
the answer to a SYN by the peer that a connect named. Two lookups that wait at once have
different ids, unless 65536 or more were made between them (`LookUpsApart`); a frame
leaves nothing waiting that it answers (`FrameSettles`, `SynAckSettles`). No
connection is left half open: one whose SYN is unanswered has a connect waiting for
it (`NetConns.NoneLeftHalfOpen`).

**A stop-and-wait stream survives a bad network** (`TcpStream.StreamTheorem`).
Whatever is lost, duplicated or reordered, handshake included and in both
directions at once, the bytes a host has accepted are a prefix of the bytes its
peer took from its caller as long as every segment delivered in order found room
in its buffer; and a live sender with nothing outstanding has a receiver that
accepted everything if and only if every one did. Whatever fitted, the bytes
accepted are bytes of the stream in their order (`TcpLoss.AcceptedInOrder`); a host
that once had no room is out of step for good (`OutOfStepForGood`), and thirty-three
blocks that nobody reads get there (`TcpLoss.OverflowReached`). A retransmission that gets through
clears the sender, and completes the stream of a receiver in step
(`RetransmissionDelivers`); the advertised right edge never retreats
(`EdgeTheorem`), and only a FIN from the past could move it back
(`EdgeRetreatsIff`). Acknowledgements are compared as plain numbers, so an old one
clears a block not yet received exactly when a multiple of 2^32 lies between what
it acknowledges and the end of the block (`StaleAckClearsIff`). The two hosts are
built from what the stack does to one connection; `NetSends` shows that the
event loop does exactly that to its table, and `Netd.Stack.Serve` that it sends
exactly those segments.

**What is not acknowledged is repeated on schedule** (`TcpTimer.FollowsSchedule`).
Whenever the loop looks at its timers, the looks at which a block is sent again are
those of a schedule written down without the timer's fields: the first 400 ticks or
more after the block went out, the next at least 400, 800, 1200 and 1600 after the
one before, and the connection is given up 2000 ticks or more after the fifth, if
nothing acknowledges it (`BlockRepeats`). Only a wrap of the tick counter makes a repeat early
(`RepeatsEarlyIff`).

**Accepting is fair and reading loses nothing.** Connections are handed to
acceptors at most once and in the order their handshakes completed, on one port
each (`NetAccept`). For every connection the bytes returned so far followed by
the buffer are the bytes stored, and no reader is left parked beside data or an
end of stream (`NetReaders`).

**Diff prints a shortest script, and the tree builder is the recursive walk.**
No script of insertions and deletions is shorter than what diff prints
(`Diff.Run`). The pass-by-pass splice ends with exactly the pre-order walk of the
opened directories if and only if that walk has at most 256 rows
(`TreeView.BuildIsWalk`). That list is the tree: the rows one level below a row
show the entries of its directory, in order, each under its full path, if it is
open, and there are none if it is not (`TreePaths.ListIsTree`); full paths tell
entries apart (`PathsDiffer`).

**The linker stores what the psABI asks for**, in any order of relocations, if and
only if a condition on the symbol tables holds (`Linker.ResolvedIffMeaning`,
`Linker.LinkedAsSpecifiedIff`). It goes by the name alone and takes 0 for "not
found". Among global and weak symbols that leaves a definition at address 0, which
is passed over for a later one or for an error (`ZeroIsPassedOver`,
`ZeroIsUndefined`), and a weak symbol that is undefined or at 0, which loses its
addend (`WeakAddendStoresZero`) and hides a relocation type the linker does not
know (`GlobalMisreadIff`). Beside them, entry 0 of a symbol table is looked up by
its empty name (`EntryZeroIsUndefined`), and local symbols are overridden and seen
from outside (`LocalIsOverridden`, `LocalAnswers`). The hash a name is looked up by
is the gABI's, for every name (`HashIsGabi`).

**The account file behaves like a table.** From a readable file with distinct names
and uids, requests whose names fit and whose home directories hold no separator,
with uids enough for those left to pick, keep names and uids distinct and the file
readable through any run (`AccountRuns.StaysDistinct`). In general, on any
newline-terminated file, unreadable lines included, that is so if and only if each
request granted finds its name, cut to 31 characters, and its uid still to be had,
or its line illegible, and a password change its line the only one of that name
(`Accounts.RunKeepsIff`). What the file's limits cost is exact: how an account is
read back, whatever colons its home directory holds (`AccountLines.RenderedReads`),
when it is lost, found again or logs in (`AccountLostIff`, `FoundAgainIff`,
`LogsInAfterAddIff`), that a longer name can be added twice (`LongNameTwice`) and
lets its beginning log in (`OthersLogInAlikeIff`), that a newline in the home
directory adds any account (`NewlineBreaksDistinct`), when a uid picked is taken
(`PickUidUsedIff`), and when a rewritten file outgrows what was allocated for it
(`AccountRuns.RewriteFitsIff`). And over every run an account changes only by a
request of root, or of its own user with the password it had at that moment
(`AccountRights.ChangedByRight`).

## Model

| member | source | states |
|---|---|---|
| `NetReplies.ServeSlotStep` | user/netd.c:223-234 | one event does to one slot nothing but answer it once and free it, rewrite it for the same handle, or leave it |
| `NetReplies.FiresIff` | user/netd.c:242-262 | the wrapped comparison fires at the deadline, and before it exactly when the counter wraps in between |
| `NetReplies.SweepKeeps` | user/netd.c:1268-1286 | a whole look through the pending table keeps the ledger of requests and every deadline |
| `NetReplies.ServeStep` | user/netd.c:1802-2148 | serving any request either replies to it once or parks it once |
| `NetReplies.LoopKeeps` | user/netd.c:1780-2148 | one turn of the event loop keeps every handle accounted for and every parked request within its time |
| `NetReplies.ExactlyOnce` | user/netd.c:1780-2148 | over every run: requests received for a handle = replies sent to it + slots it is parked in |
| `NetReplies.NoneKeptWaiting` | user/netd.c:242-262 | over every run nothing is parked longer than 2000 ticks, or 4000 for a name first asked for over IPv4 and then over IPv6, tick wrap included |
| `NetReplies.GivenUpEarlyIff` | user/netd.c:242-262 | a request is given up on, or a lookup renewed, before its time if and only if the tick counter wraps while it waits |
| `NetReplies.WrapGivesUp` | user/netd.c:242-262 | a run in which a ping is given up on with its whole time ahead of it |
| `NetAnswers.EveryReplyTold` | user/netd.c:1259-1551 | over every run, each reply is to a request received and is a refusal, an immediate result of that request, or what a frame received after it said about it |
| `NetAnswers.NameReplyTold` | user/netd.c:1358-1378 | a lookup is told the address of a later answer with the id it went out with, of the family it asked for, or refused |
| `NetAnswers.LookUpsApart` | user/netd.c:1846-1847 | lookups waiting at once have different ids if fewer than 65536 apart |
| `NetAnswers.OneAnswerOneSlot` | user/netd.c:1368-1376 | so an answer settles at most one of them |
| `NetAnswers.FrameSettles` | user/netd.c:1259-1389 | a frame leaves no request waiting that it answers |
| `NetAnswers.SynAckSettles` | user/netd.c:1481-1492 | the answer to a SYN leaves no connect of that connection waiting |
| `NetConns.PassiveFound` | user/netd.c:1401-1434 | the connection made for a SYN is the one found for the peer's next segment |
| `NetConns.ActiveFoundIff` | user/netd.c:1961-1981 | one opened to a peer is found for its segments if and only if no earlier one has the same ends |
| `NetConns.NoneLeftHalfOpen` | user/netd.c:242-262 | over every run a connection whose SYN is unanswered has a connect parked for it |
| `NetAccept.HandOverKeeps` | user/netd.c:1442-1461 | a completed handshake goes to a waiting acceptor, else behind the queue, and order is kept either way |
| `NetAccept.QueueUpdate` | user/netd.c:2066-2088 | changing one listener's queue changes that port's queue and no other |
| `NetAccept.QueueOpened` | user/netd.c:2048-2065 | listening on a port starts an empty queue and leaves the others |
| `NetAccept.QueueClosed` | user/netd.c:2089-2094 | giving a port up drops its queue and no other |
| `NetAccept.AcceptOrder` | user/netd.c:2066-2088 | taking the first of the queue keeps handed-over plus queued in completion order |
| `NetAccept.AcceptedInOrder` | user/netd.c:1442-1461 | over every run, connections handed over on a port are a duplicate-free subsequence of those completed there, and no acceptor waits beside a non-empty queue |
| `NetAccept.AcceptedOnOnePort` | user/netd.c:667-680 | no connection is handed over on two ports |
| `NetReaders.StoreKeeps` | user/netd.c:1503-1515 | storing in-order bytes keeps returned + buffered = stored on every connection, leaving only readers of this one to be looked at |
| `NetReaders.SweepReaders` | user/netd.c:1525-1537 | the look through parked readers restores that none waits beside data or an end of stream |
| `NetReaders.ReadKeeps` | user/netd.c:1525-1537 | a parked reader that is answered takes the front of the buffer and loses nothing |
| `NetReaders.ReadNowKeeps` | user/netd.c:2024-2047 | a read answered at once takes the front of the buffer and loses nothing |
| `NetReaders.NothingLostOrRepeated` | user/netd.c:1503-1537 | over every run, bytes returned on a connection followed by its buffer are the bytes stored, on both delivery paths |
| `NetReaders.NoReaderForgotten` | user/netd.c:2024-2047 | over every run, a parked reader's connection has nothing buffered and is not closed by its peer |
| `NetServer.FirstFree` | user/netd.c:205-221 | the first free slot of the pending table; every slot before it is taken, all of them if it is the length |
| `NetServer.ConnById` | user/netd.c:744-752 | the first used connection with an id, none before it has it; the table's length if there is none, and for id 0 |
| `NetServer.ConnByTuple` | user/netd.c:757-767 | the first IPv4 connection between a port and a peer's address and port, and no earlier one; the table's length if there is none |
| `NetServer.ConnByPort6` | user/netd.c:1636-1642 | over IPv6 the last used connection of a port, and no later one |
| `NetSends.SweepQuiet` | user/netd.c:1268-1286 | of all looks through the pending table only the one for an ARP answer sends anything |
| `NetSends.SegmentArrives` | user/netd.c:1436-1539 | a segment of either family does to the table what `Tcp.Arrive` does to its connection, followed by some reads, and touches no other connection |
| `NetSends.OfferTaken` | user/netd.c:2001-2023 | a send request does to the table what `Tcp.Offered` does to its connection, busy or not |
| `NetSends.ReceiveReads` | user/netd.c:2024-2047 | a read request does to the table what `Tcp.AfterRead` does to its connection, parked or not |
| `Netd.Stack.Transmit` | user/netd.c:705-742 | a segment sent carries the connection's next expected byte and the room left in its buffer |
| `Netd.Stack.ParkRequest` | user/netd.c:205-221 | a request takes the first free slot or is refused |
| `Netd.Stack.AnswerSlot` | user/netd.c:223-234 | answering frees the slot and sends one reply |
| `Netd.Stack.ExpireSlot` | user/netd.c:242-262 | a slot past its deadline is renewed over IPv6 or answered with failure, and a waiting connect closes its connection |
| `Netd.Stack.ServeArp` | user/netd.c:1259-1289 | an ARP answer serves those who asked for that address, and sends the SYN that waited for it |
| `Netd.Stack.ServeName` | user/netd.c:1358-1378 | a name answer serves the question with its id, by the family asked for |
| `Netd.Stack.ServeOne` | user/netd.c:1259-1551 | every kind of event does to a slot what the state machine says |
| `Netd.Stack.HandToAcceptor` | user/netd.c:1442-1461 | a completed passive open goes to an acceptor, who is told the peer, to the queue, or nowhere |
| `Netd.Stack.UpdateConn` | user/netd.c:1497-1521 | acknowledgement, in-order data and FIN update the connection as in `Tcp.Arrive`; what is sent back is `Tcp.Answers` |
| `Netd.Stack.HandleSegmentAt` | user/netd.c:1436-1539 | a segment for a known connection: completion, reset, SYN-ACK, data, readers; what is sent back is `Tcp.Replies` |
| `Netd.Stack.OpenPassively` | user/netd.c:1407-1434 | a SYN at a listening port makes a connection, if there is a slot, and sends its SYN-ACK |
| `Netd.Stack.OpenActively` | user/netd.c:1961-2000 | a connect takes a connection slot and a pending slot and sends its SYN if it can, or is refused |
| `Netd.Stack.Dial` | user/netd.c:1920-1960 | the new connection's fields, with something to repeat when an IPv6 SYN could not be sent |
| `Netd.Stack.TakeQuery` | user/netd.c:1815-1880 | lookups and pings are answered from the cache or parked |
| `Netd.Stack.Send` | user/netd.c:2001-2023 | a send is taken whole up to the inline limit and sent, refused, or told to come back |
| `Netd.Stack.Receive` | user/netd.c:2024-2047 | a read returns what is buffered, reports the end, or parks |
| `Netd.Stack.Listen` | user/netd.c:2048-2065 | listening claims a free listener unless the port is taken |
| `Netd.Stack.AcceptOn` | user/netd.c:2066-2088 | accepting takes the first queued connection, with its peer, or parks |
| `Netd.Stack.HangUp` | user/netd.c:2095-2106 | closing frees the connection, and sends a FIN on an open one |
| `Netd.Stack.Retransmit` | user/netd.c:783-810 | every due connection sends its outstanding bytes or its SYN again, or is given up; the segments are `Tcp.RetransmitSends` of each in turn |
| `Netd.Stack.Once` | user/netd.c:1780-1814 | one turn: frames, retransmissions, deadlines, then a request; and every segment sent in it |
| `Netd.Stack.Serve` | user/netd.c:1780-2148 | the loop over any sequence of turns is the state machine's run, and sends its segments in order |
| `TcpStream.BlockTaken` | user/netd.c:2001-2023 | taking a block from the caller makes the one segment in flight carry exactly it |
| `TcpStream.SenderReceives` | user/netd.c:1497-1501 | an acknowledgement clears the outstanding block only when the receiver has it |
| `TcpStream.SenderWaits` | user/netd.c:783-810 | a retransmission sends bytes of the stream at their own sequence number |
| `TcpStream.ReceiverStores` | user/netd.c:1503-1515 | an in-order segment is acknowledged whole and accepted as far as it fits; any other changes nothing |
| `TcpStream.ServerAccepts` | user/netd.c:1407-1434 | the first SYN through gives the server a connection that expects the client's first byte, and keeps the invariant |
| `TcpStream.ClientCompletes` | user/netd.c:1481-1492 | what first gets through to the client opens it at its own first byte, expecting the server's, and keeps the invariant |
| `TcpStream.StepKeeps` | user/netd.c:1390-1539 | any delivery, send, read or tick keeps both directions' invariant |
| `TcpStream.StreamTheorem` | user/netd.c:783-810 | over every run on a lossy network, both directions: returned and buffered are accepted; accepted is a prefix of taken if every in-order segment fitted; a live sender with nothing outstanding has been received whole if and only if every one did |
| `TcpStream.FlyingSegmentCompletes` | user/netd.c:1503-1515 | delivering the outstanding segment makes the receiver hold everything taken, if and only if it was in step |
| `TcpStream.RetransmissionDelivers` | user/netd.c:783-810 | a retransmission and its reply, once through, clear the sender, and complete the stream if and only if the receiver was in step |
| `TcpStream.SentAdvertises` | user/netd.c:705-743 | every segment acknowledges what is expected next and advertises the receiver's right edge |
| `TcpTimer.FollowsSchedule` | user/netd.c:783-810 | however often the timers are looked at, an unacknowledged block or SYN is sent again at exactly the looks of the schedule, unchanged, and given up on exactly when the schedule says |
| `TcpTimer.BlockRepeats` | user/netd.c:783-810 | a block offered: repeated at least 400 ticks after it was, then 400, 800, 1200 and 1600, at most five times |
| `TcpTimer.FirstRepeat` | user/netd.c:2001-2023 | a look at the timers sends the block again if and only if 400 ticks have passed since it was offered |
| `TcpTimer.SynRepeats` | user/netd.c:1946-1960 | a SYN that could not be sent over IPv6 is sent on the same schedule with 200 ticks, at most eight times |
| `TcpTimer.RepeatsEarlyIff` | user/netd.c:783-810 | a block is repeated before its time if and only if the tick counter wraps between |
| `TcpStream.EdgeTheorem` | user/netd.c:705-742 | over every run the advertised right edge never retreats |
| `TcpStream.EdgeRetreatsIff` | user/netd.c:1517-1521 | one segment moves the edge back if and only if it is a FIN from before the expected byte |
| `TcpStream.ServerInStepIff` | user/netd.c:1503-1515 | over any step the passive side is in step afterwards if and only if it was and what it took in fitted |
| `TcpStream.ClientInStepIff` | user/netd.c:1503-1515 | likewise for the active side |
| `TcpStream.RunInStepIff` | user/netd.c:1503-1515 | a host ends a run in step if and only if everything delivered to it in order fitted |
| `TcpStream.OutOfStepForGood` | user/netd.c:1503-1515 | no further run brings a host back into step |
| `TcpStream.OverflowBreaksStream` | user/netd.c:1503-1515 | two segments to a full buffer, read from in between, that leave the accepted bytes no prefix of those sent |
| `TcpLoss.AcceptedInOrder` | user/netd.c:1503-1515 | over every run, both directions, whatever fitted: the bytes accepted are a subsequence of the bytes taken |
| `TcpLoss.OverflowReached` | user/netd.c:1503-1515 | a run from the first SYN in which a sender with nothing outstanding has not been received whole |
| `TcpStream.StaleAckClearsIff` | user/netd.c:1497-1501 | any old acknowledgement clears a new block if and only if a multiple of 2^32 lies between what it acknowledges and the block's end |
| `TcpStream.OldAckClears` | user/netd.c:1497-1501 | a block that does not itself wrap, cleared by an acknowledgement from before the last wrap |
| `Checksum.FoldIsOnes` | user/netd.c:63-73 | folding the carries is reduction modulo 65535, zero only for zero |
| `Checksum.NoOverflow` | user/netd.c:63-73 | blocks up to 131074 bytes cannot overflow the 32-bit register |
| `Checksum.AddWords` | user/netd.c:63-73 | the loop adds the block's big-endian words, an odd byte as a high half, modulo 2^32 |
| `Checksum.FoldAndFlip` | user/netd.c:63-73 | folding terminates and complements |
| `Checksum.Compute` | user/netd.c:63-73 | the routine is the checksum of RFC 1071 |
| `Checksum.ChecksOut` | user/netd.c:63-73 | writing the checksum into its zeroed aligned field makes the block check to zero, also with 0xFFFF for 0 |
| `Checksum.MissesIff` | user/netd.c:63-73 | changing one word goes unnoticed if and only if it is 0x0000 for 0xFFFF or the reverse |
| `Checksum.Tcp4` | user/netd.c:685-700 | the TCP form is the plain checksum of pseudo-header and segment |
| `Checksum.Over6` | user/netd.c:908-924 | so is the IPv6 form |
| `Checksum.Seal6` | user/netd.c:1049-1060 | a sealed datagram's checksum is never zero and checks out |
| `Checksum.Udp6` | user/netd.c:1040-1061 | ports, length and checksum are where they belong and the datagram checks out |
| `Dns.JoinSplit` | user/netd.c:468-486 | splitting a host name at its dots loses nothing |
| `Dns.SplitJoin` | user/netd.c:468-486 | labels without dots, joined and split, are the labels |
| `Dns.EncodeName` | user/netd.c:468-486 | the loop that fills lengths in afterwards writes exactly the length-prefixed labels |
| `Dns.DecodesIff` | user/netd.c:468-486 | an encoded name decodes to its labels if and only if each has 1 to 63 bytes |
| `Dns.SkipName` | user/netd.c:523-534 | the skipping loop |
| `Dns.SkipLands` | user/netd.c:523-534 | skipping lands exactly past any name, ending in a pointer or not |
| `Dns.EncodedSkipped` | user/netd.c:523-534 | and exactly past every encoded host name |
| `Dns.QuestionsSkipped` | user/netd.c:549-550 | the questions are passed exactly |
| `Dns.SearchIsFirst` | user/netd.c:551-562 | on well-formed records the search finds the first of the wanted type and size, or none |
| `Dns.ParseIsFirst` | user/netd.c:565-587 | on every well-formed message, compressed names included, parsing gives the id and the first wanted record, or none on an error |
| `Dns.FindRecord` | user/netd.c:539-563 | the parsers' two loops |
| `Dns.Answer` | user/netd.c:565-587 | the IPv4 address as a number, or 0 |
| `Dns.Answer6` | user/netd.c:539-563 | the sixteen bytes of the IPv6 address, or nothing |
| `FrameRing.FullIff` | user/e1000d.c:265-295 | the index comparison finds the ring full if and only if 31 frames are unread |
| `FrameRing.DriverDecides` | user/e1000d.c:265-295 | a frame is dropped if and only if the ring is full |
| `FrameRing.DriverWrites` | user/e1000d.c:265-295 | half-copied slots are never visible to the stack |
| `FrameRing.StackReads` | user/netd.c:1720-1727 | what the stack reads is the next published frame, whole |
| `FrameRing.RunInv` | user/e1000d.c:265-295 | every interleaving of card, driver and stack keeps the rings consistent |
| `FrameRing.HandledInOrder` | user/netd.c:1720-1727 | frames handled are a prefix of frames published, and all of them when the ring is empty |
| `FrameRing.SlotsExclusive` | user/e1000d.c:265-295 | the slot being written is never the one being read |
| `FrameRing.EveryFrameAccounted` | user/e1000d.c:265-295 | every completed descriptor is published, counted as dropped, or of unusable length, in order |
| `FrameRing.DropMeansFull` | user/e1000d.c:265-295 | over every run a frame is dropped if and only if the stack is a whole ring behind |
| `Diff.LcsIsLongest` | user/diff.c:87-94 | the recurrence is the maximum over all common subsequences, attained and never exceeded |
| `Diff.LcsCell` | user/diff.c:89-94 | a table cell from its three neighbours |
| `Diff.FillRow` | user/diff.c:90-94 | one row of the table |
| `Diff.FillTable` | user/diff.c:87-94 | the filled table holds the length for every pair of tails |
| `Diff.Walk` | user/diff.c:96-116 | the three loops print the walk |
| `Diff.PatchRebuilds` | user/diff.c:96-116 | the printed lines turn the first file into the second |
| `Diff.WalkLength` | user/diff.c:96-116 | their number is n + m - 2 LCS |
| `Diff.NoScriptIsShorter` | user/diff.c:87-116 | every insert/delete script costs at least that |
| `Diff.SilentIffSame` | user/diff.c:118-120 | nothing is printed if and only if the files are equal |
| `Diff.Run` | user/diff.c:85-120 | the whole: rebuilds, length, optimality, exit status |
| `TreeView.PassScansOneMore` | user/browse.c:339-359 | each pass marks one more row, within 256, so the loop ends, empty directories included |
| `TreeView.PassKeepsFlatten` | user/browse.c:305-337 | a splice leaves the fully expanded tree unchanged unless rows had to be cut |
| `TreeView.BuildIsFlatten` | user/browse.c:339-359 | repeating passes gives the fully expanded tree when it fits, a full table when not |
| `TreeView.BuildIsWalk` | user/browse.c:339-359 | the result is the recursive pre-order walk if and only if that has at most 256 rows; its length is the smaller of the two |
| `TreePaths.JoinIff` | user/browse.c:217-227 | the path of an entry is directory, slash and name if and only if that fits in 255 characters and no double slash is cut at the very end |
| `TreePaths.PathOf` | user/browse.c:217-227 | one slash between directory and name, none added to one that is there |
| `TreePaths.PathsDiffer` | user/browse.c:217-227 | equal paths are of equal names in equal directories |
| `TreePaths.ListingIff` | user/browse.c:303-307 | a directory is read whole if and only if it has at most 64 entries, and its first 64 otherwise |
| `TreePaths.ListIsTree` | user/browse.c:305-359 | the rows one level below a row, or at the top, show the entries of the directory in their order; below a closed one there are none |
| `TreePaths.EveryRowPlaced` | user/browse.c:305-359 | in every list, cut at 256 rows or not, each row shows an entry of the directory of the nearest row above it and one level up, or of the one shown |
| `TreeView.Browser.IsExpanded` | user/browse.c:262-268 | whether a path is among the opened |
| `TreeView.Browser.InsertChildren` | user/browse.c:305-337 | shifting and filling in place is the splice, cut to the room left |
| `TreeView.Browser.ScanOnce` | user/browse.c:344-358 | one scan opens the first pending row, if there is one |
| `TreeView.Browser.RebuildTree` | user/browse.c:339-359 | the repeated scan builds the tree |
| `Linker.ElfHash` | user/ld.so.c:173-184 | the loop over the name computes the hash of the gABI |
| `Linker.FoldedBits` | user/ld.so.c:178-181 | a step moves the top four bits into the second four, by exclusive or, and touches no other |
| `Linker.HashIsGabi` | user/ld.so.c:173-184 | the hash is the one written down in the gABI, in arithmetic modulo 2^32, for every name |
| `Linker.ShortHash` | user/ld.so.c:173-184 | of up to six bytes below 128 it is the bytes read in base 16 |
| `Linker.HashOfSyscalls` | user/ld.so.c:173-184 | one name whose last step folds |
| `Linker.WordBack` | user/ld.so.c:242-268 | a stored word is read back least significant byte first |
| `Linker.HashBelow` | user/ld.so.c:173-184 | a hash fits in 28 bits |
| `Linker.HashOfSyscall` | user/ld.so.c:173-184 | a name whose hash needs the fold, with its value |
| `Linker.Defines` | user/ld.so.c:192-212 | walking the chain gives what is threaded on it, or 0 |
| `Linker.HashedIsScan` | user/ld.so.c:192-212 | on tables filed by the hash of the gABI the chain finds exactly what a linear scan finds |
| `Linker.Lookup` | user/ld.so.c:221-229 | the loop over objects in load order |
| `Linker.FoundIsFirstIff` | user/ld.so.c:221-229 | the search gives the first definition in load order if and only if no definition at address 0 hides another |
| `Linker.ZeroIsPassedOver` | user/ld.so.c:221-229 | two objects where it does not |
| `Linker.ResolvedIffMeaning` | user/ld.so.c:231-281 | the stored value is B + A, S or S + A of the psABI, or an error where there is none, if and only if the first definition of the name that is not at 0 is the symbol's value, or there is neither |
| `Linker.GlobalMisreadIff` | user/ld.so.c:221-281 | without local definitions, a global or weak symbol is misread if and only if 0 is taken for a missing definition |
| `Linker.ZeroIsUndefined` | user/ld.so.c:250-260 | a strong symbol whose only definition is at address 0, called undefined |
| `Linker.EntryZeroIsUndefined` | user/ld.so.c:246-260 | a relocation against entry 0 of the symbol table, called undefined |
| `Linker.LocalIsOverridden` | user/ld.so.c:246-248 | a library's own local symbol, taken from the program |
| `Linker.LocalAnswers` | user/ld.so.c:203-210 | a program's undefined symbol, answered by a library's local one |
| `Linker.WeakAddendStoresZero` | user/ld.so.c:252-258 | a weak undefined symbol with an addend, which stores 0 |
| `Linker.PerformSucceedsIff` | user/ld.so.c:231-281 | linking succeeds if and only if every relocation can be resolved |
| `Linker.PerformKeeps` | user/ld.so.c:231-281 | a byte no relocation covers does not change |
| `Linker.PerformStores` | user/ld.so.c:231-281 | with disjoint targets every target word holds its value |
| `Linker.LinkedAsSpecifiedIff` | user/ld.so.c:284-307 | after linking, a target holds what the psABI asks for if and only if its relocation is not misread |
| `Linker.OrderIndependent` | user/ld.so.c:298-304 | any order of disjoint relocations succeeds alike and leaves the same memory |
| `Linker.Loader.Resolve` | user/ld.so.c:241-280 | the branches of one relocation |
| `Linker.Loader.Apply` | user/ld.so.c:231-281 | one table, stopping at the first failure |
| `Linker.Loader.Link` | user/ld.so.c:284-307 | both tables of every object, after the checks of the loader table; refused by those, memory is untouched |
| `AccountLines.TakeField` | user/authd.c:84-95 | a field is cut at a separator and to its buffer; reading goes on behind the colon |
| `AccountLines.ParseU32` | user/authd.c:97-104 | digits are read until something else, modulo 2^32 |
| `AccountLines.PutU32` | user/authd.c:214-225 | a number in decimal |
| `AccountLines.NumberBack` | user/authd.c:97-104 | a number written and read is the number, for all 32-bit values |
| `AccountLines.ParseDigest` | user/authd.c:114-125 | 64 hexadecimal digits, or nothing |
| `AccountLines.PutDigest` | user/authd.c:258-267 | a digest in hexadecimal |
| `AccountLines.HexBack` | user/authd.c:114-125 | a digest written and read is the digest |
| `AccountLines.ParsedIsGood` | user/authd.c:128-171 | whatever a line holds, the fields read from it are clean and fit |
| `AccountLines.RenderedBack` | user/authd.c:357-365 | the line of an account without separators reads back as what the buffers keep of it |
| `AccountLines.RenderedReads` | user/authd.c:128-171 | whatever colons the home directory holds, what the line is read as: unreadable unless there are none or a digest stands behind the third, and then with salt, iterations and digest from there |
| `AccountFile.AppendedShown` | user/authd.c:195-212 | an account without separators, appended to a terminated file, adds what the buffers keep of it and nothing else |
| `AccountFile.AppendedBackIff` | user/authd.c:195-212 | an account appended to a terminated file is read back as it was if and only if its fields are clean and fit |
| `AccountFile.AppendedRead` | user/authd.c:195-212 | one with colons in its home directory adds what its line is read as, if it is read at all |
| `AccountFile.NewlineAdds` | user/authd.c:357-366 | a home directory with a line between newlines adds the account on it |
| `AccountFile.PickUidUsedIff` | user/authd.c:272-296 | on any file the uid picked is taken if and only if some line has 59999 and an account has 60000 |
| `AccountFile.HighestRead` | user/authd.c:272-296 | the scan finds the largest uid below 60000 of all lines, readable or not |
| `Accounts.RewriteEntries` | user/authd.c:430-455 | rewriting any file replaces every line that bears the user's name, readable or not, by the account and keeps every other |
| `Accounts.StepRefinesIff` | user/authd.c:322-460 | a readable file grants what the table grants, and does what the table does if and only if the new fields fit and hold no separator |
| `Accounts.AddShown` | user/authd.c:322-380 | a granted addition adds to the file what the buffers keep of the account |
| `Accounts.AddReads` | user/authd.c:322-380 | a granted addition whose home directory has no newline adds what its line is read as, or nothing |
| `Accounts.AccountLostIff` | user/authd.c:357-366 | it adds no account if and only if its home directory is illegible |
| `Accounts.NewlineBreaksDistinct` | user/authd.c:357-366 | one with newlines can add an account whose name or uid is taken |
| `Accounts.AddDistinctIff` | user/authd.c:335-346 | adding to the file keeps names and uids distinct if and only if the line is illegible, or the name as it will be read and the uid were left to take |
| `Accounts.ChangeAltersOnlyIff` | user/authd.c:393-460 | a change of password alters salt, iterations and digest of one account of the file and nothing else, and keeps names distinct, if and only if one line bears the name |
| `Accounts.StepDistinctIff` | user/authd.c:322-460 | any request on any terminated file keeps names and uids distinct if and only if it finds them left, as can be seen before it |
| `Accounts.RunKeepsIff` | user/authd.c:322-460 | over every run names and uids stay distinct if and only if every request granted does; the file then stays terminated, and readable if it was and no home directory holds a separator |
| `AccountRuns.StaysDistinct` | user/authd.c:322-460 | from the start and the requests alone: names that fit, clean home directories and uids enough to pick keep names and uids distinct and the file readable |
| `AccountRuns.StepStays` | user/authd.c:322-460 | one such request does, and raises the highest ordinary uid by what it takes |
| `AccountRuns.RewriteFitsIff` | user/authd.c:427-455 | a rewritten file fits the size plus 512 allocated if and only if the lines of the name grow by no more |
| `AccountRuns.RewriteFits` | user/authd.c:427-455 | with one line of the name it always fits |
| `AccountRuns.ManyLinesOverrun` | user/authd.c:427-455 | with eight bare lines of the name it does not |
| `Accounts.FoundAgainIff` | user/authd.c:322-380 | a new account is found by its name if and only if that has at most 31 characters and its home directory is legible |
| `Accounts.LongNameTwice` | user/authd.c:335-336 | a longer name is granted twice, and two accounts of the file then have one name |
| `Accounts.LogsInAfterAddIff` | user/authd.c:300-320 | on the file a new account accepts its password by its name if and only if that has at most 31 characters and the line takes the password: with no colons always, else by the digest in the home directory |
| `Accounts.LogsInAfterChange` | user/authd.c:300-320 | on the file a changed account accepts the new password |
| `Accounts.OthersLogInAlikeIff` | user/authd.c:300-320 | neither request changes on the file what anyone else logs in with, except that a long name lets its first 31 characters log in if nobody had them and the line takes a password |
| `Authd.Find` | user/authd.c:128-171 | the scan finds the first readable line that matches |
| `Authd.NextFreeUid` | user/authd.c:272-296 | the loop over lines |
| `Authd.WriteLine` | user/authd.c:357-365 | a line put together field by field |
| `Authd.RewriteFile` | user/authd.c:430-455 | the copying loop |
| `Authd.Server.AddUser` | user/authd.c:322-391 | the file changes exactly as the step says, and not at all when refused; the public half gets its line with it |
| `Authd.Server.ChangePassword` | user/authd.c:393-460 | likewise for a change of password |
| `AccountRights.ChangeGrantedIff` | user/authd.c:393-416 | a password is changed if and only if the user exists and the caller is root or logs in as that user with the old one under their own uid |
| `AccountRights.AddGrantedIff` | user/authd.c:322-352 | an account is added if and only if the caller is root and its name and uid are free and the name well formed |
| `AccountRights.LoginIff` | user/authd.c:300-320 | a caller other than root logs in if and only if root would and the account is uid 0, with the same reply |
| `AccountRights.ChangedByRight` | user/authd.c:393-460 | over every run no account goes, and one that differs was changed by root or by its user with the password of that moment |
| `AccountRights.PublicBack` | user/authd.c:369-379 | the public line has name, uid, gid and home directory in their columns, and no digest |
| `Authd.AddThenLogin` | user/authd.c:505-525 | an account just added logs in with its password, and is told its own ids and home directory |
| `Authd.AddThenName` | user/authd.c:531-536 | its uid then has a name, its own if and only if nobody had the uid |
| `Authd.ChangeThenLoginIff` | user/authd.c:505-530 | after a change exactly the passwords that hash like the new one log in, whatever did before |
| `Authd.Server.LogIn` | user/authd.c:300-320 | the login's branches in order |
| `Authd.Server.Respond` | user/authd.c:505-544 | every message's reply, and the file after it |
| `Authd.Server.Serve` | user/authd.c:489-545 | the loop over messages: the file is the run of its edits, and every reply is of the file at its moment |
| `AudioRing.FillingIsFree` | user/audiod.c:118-122 | the buffers handed over and not played are those from CIV around to LVI, and the one being filled is not among them |
| `AudioRing.PlayKeeps` | user/audiod.c:109-116 | the card finishing a buffer, going on or halting, keeps the samples in order |
| `AudioRing.SubmitKeeps` | user/audiod.c:157-180 | handing a buffer over keeps them in order, also when the card ran dry and starts over |
| `AudioRing.PumpKeeps` | user/audiod.c:183-209 | so does a turn of the copying loop |
| `AudioRing.FlushKeeps` | user/audiod.c:319-324 | and a flush |
| `AudioRing.StopKeeps` | user/audiod.c:325-332 | a stop starts the account anew |
| `AudioRing.SamplesInOrder` | user/audiod.c:183-209 | over every interleaving of writer, card and driver: supplied = played + handed over + part-filled + in the ring; the buffers handed over are those the registers say the card has, and the one being filled is not |
| `AudioRing.NeverOverwritten` | user/audiod.c:157-209 | over every run no step short of a stop changes a buffer the card has |
| `AudioRing.Driver.HandOver` | user/audiod.c:157-180 | the registers and buffers after a submit |
| `AudioRing.Driver.Turn` | user/audiod.c:186-207 | one turn copies what is waiting, fits and is contiguous |
| `AudioRing.Driver.PumpAll` | user/audiod.c:183-209 | turns until the ring is empty or no buffer is free; returns how many samples moved |
| `AudioRing.Driver.FlushPart` | user/audiod.c:319-324 | a part-filled buffer is handed over and the card started |
| `AudioRing.Driver.StopAll` | user/audiod.c:325-332 | everything is dropped |
| `TextBuffer.LineCountsNewlines` | user/edit.c:58-67 | the line of an offset is the number of newlines before it, as far as the index goes |
| `TextBuffer.LinesPartition` | user/edit.c:69-74 | indexed lines cover the text, end at the newline before the next and hold no other |
| `TextBuffer.InsertUndone` | user/edit.c:139-161 | insert then backspace is the identity when there is room |
| `TextBuffer.CutUndoneIff` | user/edit.c:224-269 | cut then paste restores the text if and only if the selection has at most 4095 characters |
| `TextBuffer.MoveLands` | user/edit.c:419-429 | a vertical move lands on exactly the line asked for, in the same column or at the end of a shorter line |
| `TextBuffer.VerticalLands` | user/edit.c:412-431 | Up and Down change the line by exactly one, except at the ends |
| `TextBuffer.TypeReplaces` | user/edit.c:438-459 | a character typed stands in place of the selection, and the caret behind it, when there is room |
| `TextBuffer.LeftRight` | user/edit.c:412-418 | Left and Right undo each other except at the ends |
| `TextBuffer.PressLands` | user/edit.c:206-222 | a press lands on the row pressed or the nearest there is, in the column pressed or at the end of a shorter row |
| `TextBuffer.ApplyKeeps` | user/edit.c:377-462 | every event keeps caret and anchor in range |
| `TextBuffer.AlwaysInRange` | user/edit.c:377-462 | so does every run of events |
| `TextBuffer.Editor.Relines` | user/edit.c:49-56 | the index is rebuilt, up to 2048 lines |
| `TextBuffer.Editor.FindLine` | user/edit.c:58-67 | the search in the index |
| `TextBuffer.Editor.Insert` | user/edit.c:139-149 | shifting in place inserts at the caret, or nothing when full |
| `TextBuffer.Editor.Backspace` | user/edit.c:151-161 | shifting in place removes before the caret |
| `TextBuffer.Editor.DeleteSelection` | user/edit.c:224-237 | the selection goes, the caret stays at its start |
| `TextBuffer.Editor.Edit` | user/edit.c:438-459 | the keys that change the text |
| `TextBuffer.Editor.Move` | user/edit.c:384-435 | keys and mouse events that move the caret or the anchor |
| `Bresenham.DotIsNear` | user/paint.c:63-77 | every dot is within half a pixel of the ideal line |
| `Bresenham.DotsAreLine` | user/paint.c:63-77 | max(dx, dy) + 1 dots, from end to end, each next to the last, all near the line |
| `Bresenham.AfterIsDot` | user/paint.c:69-76 | the error term, by addition alone, gives the rounded line exactly |
| `Bresenham.AfterMeetsEnd` | user/paint.c:69-76 | the loop reaches the end at its last step and not before |
| `Bresenham.DrawLine` | user/paint.c:63-77 | the loop terminates and plots exactly those dots |
| `Png.FilterUndone` | tools/mkmedia.py:107-122 | for each of the five filters the reader undoes it |
| `Png.PaethNearest` | tools/mkmedia.py:107-122 | Paeth predicts the nearest of left, up and corner to left + up - corner, the earlier on a tie |
| `Png.AverageFloor` | tools/mkmedia.py:107-122 | the average is rounded down |
| `Png.Restore` | tools/mkmedia.py:107-122 | the in-place loop of the reader |
| `Png.FilterSub` | tools/mkmedia.py:143-148 | the in-place loop of the writer is the Sub filter |
| `Png.BodyRead` | tools/mkmedia.py:102-124 | whatever filter each row has, the rows come back |
| `Png.ChunkWalked` | tools/mkmedia.py:88-94 | a framed chunk is taken or stepped over exactly |
| `Png.ReadAny` | tools/mkmedia.py:83-125 | however a file is cut into chunks and filtered, the picture comes back |
| `Png.RoundTrip` | tools/mkmedia.py:133-154 | a written picture reads back: width, height, alpha, rows |
| `Png.Write` | tools/mkmedia.py:133-154 | the file written |
| `Png.ReadFile` | tools/mkmedia.py:83-125 | the reader's loops, with its failures |
| `IconGrid.SlotsDiffer` | user/desktop.c:180-182 | slots are distinct, whatever the work area |
| `IconGrid.SomeSlotFree` | user/desktop.c:180-187 | n taken slots need n icons |
| `IconGrid.AutoPlace` | user/desktop.c:171-190 | the lowest free slot; the fallback only when all 64 are taken, which takes 64 icons |
| `IconGrid.NudgedInside` | user/desktop.c:202-217 | a remembered icon ends up in the work area if and only if that holds a cell, moves there if and only if it was outside, and doing it twice changes nothing more |
| `IconGrid.Rescan` | user/desktop.c:192-227 | every icon is where it was remembered, nudged, or in the first slot free of earlier ones |
| `IconGrid.SlotsApart` | user/desktop.c:180-182 | the cells of two slots have no point in common |
| `IconGrid.NewIconsApart` | user/desktop.c:192-227 | a new icon is not put where an earlier one is, and its cell is clear of every earlier icon on the grid, new ones included |
| `IconGrid.OverlapsRememberedIff` | user/desktop.c:192-227 | behind one remembered icon it overlaps that if and only if it is less than a cell from the first slot and not in it |
| `IconGrid.OnePixelOff` | user/desktop.c:192-227 | a remembered icon that is overlapped |
| `IconGrid.AllDifferIff` | user/desktop.c:192-227 | no two icons share a place if and only if none is remembered where an earlier one is |
| `IconGrid.FirstDifferIff` | user/desktop.c:192-227 | with the remembered ones first, if and only if those differ |
| `IconGrid.RememberedOnNew` | user/desktop.c:192-227 | two icons in one place |

## Left out

- Frames are decoded and requests unpacked before they reach the model; Ethernet, IP and ICMP header parsing is not modelled.
- ARP, neighbour and interface tables: what a lookup returned is a parameter of the frame or request, so results hold whatever they contain. DHCP is left out.
- A connect waiting on ARP keeps its connection id where the ARP loop compares addresses (user/netd.c:1270, 1984-1998); the model does the same, and no theorem says that such a connect proceeds.
- IPv6 TCP receive (user/netd.c:1631-1718) is modelled in the event loop but not in the stream theorem.
- TCP close: the stream theorem has no FIN, and connection slots are not shown to be reclaimed.
- TcpStream.StreamTheorem: assumes that sequence numbers do not wrap and that nobody closes; `StaleAckClearsIff` says exactly what a wrap does to an acknowledgement. A SYN or SYN-ACK lost over IPv4 is never repeated, as in the original.
- TcpTimer.FollowsSchedule: for looks at least 2000 ticks before the counter wraps, and without acknowledgements between; `RepeatsEarlyIff` says what the wrap does to the first repeat.
- NetAnswers.EveryReplyTold: a connect over IPv6 is told so after the answer to some SYN over IPv6, since the original finds the connection by its port alone (user/netd.c:1631-1718).
- TreePaths.PathsDiffer: of full paths; of two that are cut at 255 characters nothing is said.
- A segment that finds no hardware address counts as sent and is lost on the way.
- Connection ids and request handles are unbounded: fewer than 2^32 connections in a run.
- Dns.Answer and Dns.Answer6: bytes behind a datagram's end are whatever lies there, so nothing is said about malformed answers beyond which bytes the loops look at. Building the query is only its name.
- The frame ring's steps take effect in program order for everyone: memory is sequentially consistent, although the stack reads the head index without an acquire (user/netd.c:1722).
- The frame ring's transmit half and its `dropped` counter's 32-bit width.
- Reading the two files of a diff into lines, with its limits of 1200 lines and 512 KB.
- Linker.ResolvedIffMeaning: S is that of chapter 4 of the System V gABI for symbols defined relative to their object; absolute, thread-local and indirect-function symbols, visibility other than the default and symbol versions are not modelled.
- Linker.HashedIsScan: on tables that define no name twice, local names included.
- The dynamic array of an object (user/ld.so.c:130-169): objects come with their tables gathered, symbol names resolved from the string table, and targets outside the tables themselves. Addresses do not wrap inside a relocated word.
- Linker.Defines: assumes that the chain looked through ends; a cyclic one makes the original loop for ever.
- Linker.Lookup: assumes the same of every object's chains.
- Linker.Loader.Resolve: assumes the same, and that a relocation's symbol index is in the table; the original reads whatever lies behind it.
- Linker.Loader.Apply: assumes what `Resolve` does of every relocation.
- Linker.Loader.Link: likewise.
- Password stretching is an arbitrary function and salts are given with the request. File errors, making the home directory and the kernel's refusal of new credentials are left out.
- Accounts.AddShown: for home directories without separators; `AddReads` covers colons.
- Accounts.AddReads: for home directories without newlines, which can add any accounts (`NewlineBreaksDistinct`).
- Accounts.AddDistinctIff: likewise; `StepDistinctIff` covers newlines by what the new lines are read as.
- Accounts.FoundAgainIff: for home directories without newlines.
- Accounts.LongNameTwice: likewise, and legible ones, since an illegible line is no account.
- Accounts.LogsInAfterAddIff: for home directories without newlines.
- Accounts.OthersLogInAlikeIff: likewise.
- The sound card is an engine that plays from CIV to LVI and halts; status reads are atomic with the driver's turn. Volume and bring-up are left out.
- The editor's drawing, scrolling, loading and saving; a click is a row and a column.
- Clipping of dots to the canvas and overflow of int coordinates; flood fill.
- Deflate and its inverse, and the checksum of chunks, are given functions; the reader ignores checksums as the original does.
- Drawing, menus, remembered-position files and dragging on the desktop.
- Where parties run at once (card, driver and stack on the frame ring; the two hosts and the network; writer, card and sound driver) their steps are functions on values and every interleaving is covered; the stack's side of the frame ring and the driver's copying loop are not also written as classes.
- Device bring-up, PCI, other drivers, the kernel, the window manager, the C library and the remaining tools: foreign hardware, or only easy members.
