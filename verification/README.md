# binkd: what a FidoNet mailer keeps

binkd exchanges mail between FidoNet systems over binkp (FTS-1026). This project models its hard core and proves what
it keeps. Verify it with `dafny verify dfyconfig.toml --resource-limit 2000000 --verification-time-limit 0`.

**The session.** `Frames`, `Sender`, `Receiver` and `Session` model two peers that run the same handlers over two FIFO
channels: announce a file, send a block, take a frame, end a batch, lose the connection at any point and start again
from what is on the disks. A run is any interleaving of these steps. Over all runs:

- `ExactlyOnce`: in ND mode every file is in the spool or whole at the receiver, and no file is delivered twice, as long
  as a pending link status leads in the queue; `StatusOrder` proves that this condition is exact.
- `DataSafety`: partial files are prefixes of the sender's file, whole ones equal it, and the sender drops a file only
  when the receiver has settled it; with resumes, old data still in flight, and aborts anywhere.
- `Tokens`, `BatchAgreement`, `BatchEnd`: the peers count the same messages in every batch, stop together, and a
  session that succeeds has had every file answered as often as it was offered. `Disagreement` has the runs in which
  the conditions fail.
- `Arrival`: a run that meets all the conditions of these results, in which the connection breaks when the file is in no
  spool and not yet renamed, and the next session delivers it.
- `State` has the handlers and the loop of `protocol()` as a class whose methods update fields in place. Each method
  computes the step of the session, `Loop` shows that a round of the loop is a sequence of enabled steps, and
  `LoopRuns` that two peers which both loop, with any interleaving of their rounds, make a run: so the results about
  runs hold between the rounds.
- `Walk` puts runs together step by step.

**The wire.** `Crypt` is the cipher of crypt.c with its table (section 6.1 of PKWARE's APPNOTE.TXT); `StreamCipher` is
what any cipher of its shape keeps. `Wire` and `WireBuffers` are the queue of messages, the output buffer and the input
buffer: any split of writes and of reads delivers the queued blocks, once each and in order, under one key stream.
`Messages` prints the frames of a session as such blocks and reads them back, so that the stream is the FIFO channel of
the session.
`Compression` is the carry-over buffer of the compressor.

**MD5.** `Md5` has RFC 1321 and RFC 2104 as functions, and the incremental context of md5b.c proved to compute them.

**The outbound.** `QueueSort` and `QueueOrder` (the sort of the queue, and what its comparison is worth), `NextNode`
(which node to call), `Locks` and `Exclusion` (busy flags, and the addresses of a session), `ConfigRefs` (counted
configurations under reload), `FlowFile` (lists edited while they are read), `Addresses` and `Outbound` (two round
trips of an address).

**Strings.** `Glob` (two matchers, one meaning), `Replace` (replace-all in one buffer), `InboundNames` (the names a
received file is given).

`Options`, `Octets` and `Numbers` are shared helpers.

## Findings

The code does not keep these; each has its input, and what it keeps instead is proved.

- The order of the queue does not put a pending link status first, though the list of types at ftnq.c:804 begins with
  it: for two entries of one address the comparison answers -1 both ways (`QueueOrder.BothFirst`,
  `QueueOrder.NoPreorder`), so a queue of one link is not sorted at all (`QueueOrder.OneLinkStays`), and a status is
  first if and only if it was scanned first (`QueueOrder.StatusFirst`).
- A session whose queue has another file ahead of the pending status loses the file that the status stands for: the
  M_GOT of the other file overwrites the status, or clears it (`StatusOrder.FileAhead`), and a session that does not
  offer the status removes the partial file (`Disagreement.StatusWithheld`). A session cannot lose the file if and only
  if the status leads in the queue, that is, comes before every file except those that are missing or that the
  receiver's mask skips (`StatusOrder.StatusPlace`).
- The peers can count different messages in a batch, and then one stops while the other waits: when a status is offered
  outside NR mode and the remote has the file (`Disagreement.StatusWithoutNR`: 3 and 4 messages), and when a netname is
  offered twice and skipped (`Disagreement.SameNameTwice`: 5 and 6 messages).
- `send_block` lets a message of 0x8000 or 0x8001 bytes, with its header, pass its check and can then never put it into
  the buffer: nothing moves from then on (`WireBuffers.Out.FillBuffer`: a first message of up to 0x7fff bytes moves
  unless a later one exceeds 0x8001 and the call fails, one of 0x8000 or 0x8001 stays, a larger one fails).
- The compressor is given just the file if and only if nothing was left in its buffer by an earlier transfer
  (`Compression.Sender.Transferred`): only M_GET, and only while the compressor is alive, empties that buffer. With
  data that does not compress, a file longer than a block leaves something there when M_GOT or M_SKIP ends its transfer
  after the first block, and the next transfer starts with it (`Compression.GivenUp`, `Compression.CopyingIs`).
- `remove_from_spool` takes exactly the entries that name a file if and only if the file's own name does not begin with
  `^` or `#` (`FlowFile.MarksNamed`); otherwise it takes another file's entry out of the flow file
  (`FlowFile.TakenForAnother`).
- When all names of the style EXTENSION are taken, `inb_done` goes on with the style POSTFIX, but with the pointer at the
  start of the netname and not at its end. The file gets a name if and only if a number from 1 to 10000 follows the first
  character of its own name and a greater one is free (`InboundNames.PostfixRetry`), and what stands behind the number
  is lost; for other names, as file.txt, there is none (`InboundNames.NoNumber`).
- `xpmatch` steps over the end of a name that has been used up when the pattern goes on with a complemented set, whose
  test the end of a string passes (`Glob.OneToken`).
- Two addresses of a domain can have the same file in the outbound, and so the same busy flag, when net or node exceeds
  0xffff (`Outbound.SamePlace`); otherwise they never have (`Outbound.PlacesDiffer`), and the scan finds the address
  again if and only if it is in range (`Outbound.ScanFinds`).
- The comment at server.c:178-180 says that a reload may free the configuration that the server manager holds. It
  cannot: `ConfigRefs.CountedAlways` and `ConfigRefs.HeldIsSame`.

## Model

| member | source | states |
|---|---|---|
| ExactlyOnce.NextOnce | protocol.c:1941-1952 | Every step of either peer, and every new session, keeps the invariant of ND delivery; the receiver renames at most one file in a step, a whole one that is no longer in the sender's spool |
| ExactlyOnce.OnceAlways | protocol.c:2271-2291 | The invariant holds in every state of every run of sessions in ND mode, with aborts anywhere |
| ExactlyOnce.DeliversOnce | protocol.c:2494-2508 | Over all runs: each file is in the spool, or was delivered, or thrown away by a destructive mask, or is whole at the receiver with the link status saying so; no file is delivered twice, and none that is still in the spool |
| ExactlyOnce.DeliversTheFile | protocol.c:2749-2754 | With keys that identify contents, what waits whole and what is delivered are the sender's bytes |
| StatusOrder.StatusPlace | protocol.c:2494-2508 | With a file whole at the receiver that only the link status speaks for: no run from a session that offers a queue loses a file if and only if the status leads in that queue, for every sender, receiver and queue with one status |
| StatusOrder.LeadingKeeps | ftnq.c:803-809 | With a leading status no run from that session, later sessions included, loses any file |
| StatusOrder.NotLeadingLoses | inbound.c:344-349 | Without one there is a run of that session after which the file is in no spool, not delivered, and no status speaks for a whole partial of it |
| StatusOrder.FileAhead | protocol.c:2455-2508 | For every pair of peers: a new file just ahead of the status takes the status over, and the file it stood for is lost |
| Arrival.Arrives | protocol.c:2278-2286 | For every file: a run that meets the conditions of the results on runs, breaks off when the file is in no spool and not delivered, and delivers exactly it in the next session by the link status |
| DataSafety.NextSafe | protocol.c:444-481 | Every step keeps the agreement of disks, open files and data in flight, in both directions; what leaves the spool the receiver has had, throws away, or holds whole and will rename |
| DataSafety.SafeAlways | protocol.c:1935-2069 | That agreement holds in every state of every run |
| DataSafety.ResumeCorrect | protocol.c:2241-2333 | Over all runs: a partial file is a prefix of the sender's, a delivered one and one in the inbound equal it, and a file leaves the spool only when the receiver has had it, throws it away by mask, or holds it whole at that moment and is about to rename it |
| BatchAgreement.NextInv | protocol.c:292-293 | Every clean step keeps the balance of messages counted, in flight and still owed, in both directions |
| BatchAgreement.SameCounts | protocol.c:3302-3328 | Over every clean run the peers counted the same messages in every batch that both have ended, so both go on or both stop |
| BatchEnd.NextOrderly | protocol.c:3271-3277 | Whatever the remote sends: for every file, the offers are the answers plus those in transfer or waiting among the sent ones, and only the last batch held the M_EOBs alone |
| BatchEnd.EndsAnswered | protocol.c:3471-3477 | Over every run, clean or not: a peer about to end a batch, or whose session succeeded, has had every file answered by M_GOT or M_SKIP exactly as often as it offered it |
| BatchEnd.StopTogether | protocol.c:3313-3318 | Over every clean run: when one peer's session succeeded, the other has ended no later batch, and if it ended the same one its session succeeded too |
| Disagreement.StatusWithoutNR | protocol.c:3056-3061 | A run in which a status is offered outside NR mode and the peers count 3 and 4 messages: one stops, the other goes on |
| Disagreement.SameNameTwice | protocol.c:2358-2414 | A run in which a netname is offered twice and skipped, and the peers count 5 and 6 messages |
| Disagreement.StatusWithheld | inbound.c:344-349 | From every state with a pending status: a session that does not offer it ends with the file in no spool, never delivered, and its partial removed |
| Loop.RoundFollows | protocol.c:3244-3420 | Each round of the loop of protocol(), with any frame read, disk refusal, block length and timeout, is a sequence of enabled steps of the session that takes that frame from the front of the channel |
| LoopRuns.LoopsAreRuns | protocol.c:3244-3420 | Any interleaving of the rounds of two looping peers, and of new sessions, is a run of the session, under every rule on its steps that the rounds obey |
| LoopRuns.LoopDeliversOnce | protocol.c:3244-3420 | Exactly-once delivery between any two rounds of two looping peers |
| LoopRuns.LoopEndsAnswered | protocol.c:3471-3477 | Every offer is answered when a looping peer ends its session with success |
| Messages.WordsBack | tools.c:565-590 | Words joined by single spaces are split again, as many as there are |
| Messages.DecodeEncode | protocol.c:2642-2645 | Every frame with a quoted netname is read back from its printed message, but for the tag of the model |
| Messages.FramesArrive | protocol.c:2571-2800 | Of what a peer has queued behind the login, encrypted or not, any prefix of the stream that has arrived gives exactly the frames complete in it, in order: the FIFO channel of the session |
| State.State.Round | protocol.c:3244-3420 | The loop body on fields: look for the next file, send M_EOB, end the batch, or read a block and write a block, in this order; the new state is that of the round |
| State.State.OnFrame | protocol.c:2627-2653 | A frame that was read: every message counts, also one whose handler fails; then the handler of its type runs |
| State.State.EndBatch | protocol.c:3302-3330 | Stops if and only if the batch held at most two messages; clears the status then, else starts the next batch with flags and count reset and the boxes scanned again unless the remote skipped something |
| State.State.StartFileTransfer | protocol.c:2889-3068 | One entry of the queue: a missing file is passed over, else one M_FILE with offset -1, 0 or the size by mode, and the flags that go with it |
| State.State.SendDataBlock | protocol.c:434-481 | The next bytes at the read position, an empty block when one is due; a file that is through moves to the files waiting for an answer |
| State.State.CurrentFileWasSent | protocol.c:312-326 | The file joins the sent files at their end, closed; in ND mode the sender waits from now on |
| State.State.RemoveFromSentFilesQueue | protocol.c:761-775 | The list without that file, in its order; it is freed exactly when no other file is left in it |
| State.State.GET | protocol.c:2221-2350 | M_GET for a sent file, for the file in transfer, for a status, beyond the end, or unexpected: the new sender, the answers and whether the session goes on |
| State.State.GOT | protocol.c:2419-2519 | M_GOT for the file in transfer or for a sent one: status written or cleared by mode before the file leaves the spool |
| State.State.SKIP | protocol.c:2358-2414 | M_SKIP: every sent file of that key goes, then the file in transfer is dropped, or the session if that is a status; the status and the waiting are cleared |
| State.State.StartFileRecv | protocol.c:1914-2120 | M_FILE: the pending rename first; then the answer of a mask, of a file that is there already, of a refusal, the request for another offset with its count, or the file is received |
| State.State.RecvData | protocol.c:2654-2777 | A data block is appended; a file complete by it is renamed or, in ND mode, kept for the rename, and answered; too many bytes end the session |
| State.State.CloseBatch | protocol.c:2521-2560 | M_EOB: the open partial is kept or, outside NR mode, removed; the pending rename is done |
| Crypt.TableDivides | crypt.c:20-73 | Each of the 256 constants is the remainder of its index by the CRC-32 polynomial |
| Crypt.AnyWidth | crypt.c:75-124 | Both directions give the same bytes whether an unsigned long has 32 or 64 bits, from any keys that agree where it matters |
| Crypt.StartSame | crypt.c:87-91 | The start keys agree so |
| Crypt.RoundTrip | crypt.c:109-124 | Decryption undoes encryption for every key and text |
| Crypt.EncryptSplit | crypt.c:115-124 | A text may be encrypted in pieces, with the keys the piece before leaves |
| Crypt.DecryptSplit | crypt.c:109-113 | The same for decryption, whose keys follow the plain text |
| Crypt.SecondDirection | protocol.c:1595-1606 | The keys of the direction to the caller are those of the password with a dash before it |
| Crypt.Stream.EncryptBuf | crypt.c:115-124 | In place: the slice is encrypted, the keys moved on by its plain text, the rest of the buffer kept |
| Crypt.Stream.DecryptBuf | crypt.c:109-113 | In place: the slice is decrypted, the keys moved on by the plain text it now holds |
| Wire.HeaderBack | protocol.c:2616-2618 | The two bytes of a header give back length and kind, for every length up to 0x7fff |
| Wire.FeedSplit | protocol.c:2571-2612 | However the reads split the stream, the receiver ends up alike |
| Wire.AllBlocks | protocol.c:2612-2785 | The whole stream gives the queued blocks, in order and once each, empty ones included, with the cipher on from the first byte after the login and the keys in step |
| Wire.SomeBlocks | protocol.c:2612-2785 | At any byte of the stream exactly the blocks complete so far have been delivered |
| Wire.NothingLost | protocol.c:2605-2612 | Every byte read is in a delivered block, its header, or the buffer |
| WireBuffers.Out.MsgSend | protocol.c:264-296 | A message is queued last, encrypted at once; what is written, buffered and queued stays the one stream of everything queued |
| WireBuffers.Out.EndLogin | protocol.c:1592-1608 | The message that ends the login goes in the clear, and the cipher is on after it |
| WireBuffers.Out.SendSome | protocol.c:336-393 | Of the pending bytes the system takes a prefix; nothing is lost or reordered by a partial write, a full socket or an error |
| WireBuffers.Out.FillBuffer | protocol.c:399-432 | Messages move into the buffer in order as far as they fit, never beyond it; a first one of up to 0x7fff bytes moves if the call does not fail over a later one, one of 0x8000 or 0x8001 never moves nor fails, and a larger one fails |
| WireBuffers.Out.BuildBlock | protocol.c:434-607 | A data block is built only when no message waits, and encrypted in the buffer: it is next in the stream |
| WireBuffers.Out.Flush | protocol.c:3467-3469 | If every message fits and each send takes something, the last loop ends with everything that was queued written |
| WireBuffers.In.RecvBlock | protocol.c:2571-2800 | One read of any length: decrypted in place, a complete block delivered; the receiver is that of the stream so far, the buffer never overrun |
| WireBuffers.EndToEnd | protocol.c:603-609 | Of what the sender's buffers put out, any prefix that has arrived gives exactly the blocks complete in it, in the order of queuing, through the switch to the cipher |
| WireBuffers.SameKeys | protocol.c:2608-2609 | When everything has arrived the two sides hold the same keys |
| Compression.Sender.CompressBlock | protocol.c:526-583 | One compressed block: at most oblksize bytes, full unless the stream ends; given bytes, carried bytes and the rest of the file stay the file; the inner loop ends |
| Compression.GivenUp | protocol.c:2447-2470 | For any compressor that does not shrink its input and any file longer than a block: after the first block the buffer is not empty, and a transfer of any other file that follows starts with those bytes |
| Compression.Sender.Transferred | protocol.c:2202-2211 | Over a transfer the compressor is given what the buffer held at its start and then the file from the offset: just the file if and only if the buffer was empty |
| Md5.CountMore | md5b.c:123-126 | The two count words are 8 times the length modulo 2^64, kept by every addition with its carry |
| Md5.Context.Transform | md5b.c:183-271 | The four unrolled rounds are the 64 steps of section 3.4 of RFC 1321 |
| Md5.Context.Update | md5b.c:113-149 | The context stands for the input before followed by the new bytes, whatever the buffer held |
| Md5.Context.Final | md5b.c:154-179 | The digest of everything fed, padded and counted as in sections 3.1 and 3.2 of RFC 1321 |
| Md5.Hash | md5b.c:113-179 | Any split of the input over calls gives the digest of the whole, for any choice of the word operations |
| Md5.Md5Of | md5b.c:113-179 | The same for the operations of MD5: the digest is that of RFC 1321 |
| Md5.HmacMd5 | md5b.c:335-410 | Section 2 of RFC 2104 for every key length, for any choice of the operations |
| Md5.HmacOf | md5b.c:335-410 | HMAC-MD5 itself |
| QueueSort.Permutes | ftnq.c:819-854 | The insertion sort is a permutation, for every comparison |
| QueueSort.SortSorts | ftnq.c:819-854 | It sorts, for every total preorder |
| QueueSort.SortStable | ftnq.c:819-854 | It keeps the order of equal entries, for every total preorder |
| QueueSort.QSort | ftnq.c:819-854 | In place on the doubly linked list: the same nodes, a well-formed list with null ends and mutually inverse links, in the order of the insertion sort |
| QueueOrder.BothFirst | ftnq.c:793-799 | Two unsent entries for one address of the session: the comparison puts each before the other, whatever their types |
| QueueOrder.OneLinkStays | ftnq.c:785-817 | The queue of one link is left as it is |
| QueueOrder.StatusFirst | ftnq.c:803-809 | A status is first after the sort if and only if it was first before |
| QueueOrder.NoPreorder | ftnq.c:785-817 | For every session there are two entries of different types, each before the other: the comparison is no preorder |
| NextNode.Place | ftnq.h:103-107 | The position in the list of flavours, the terminating zero after all of them |
| NextNode.CalledOnce | ftnq.c:976-988 | Calls until none is left return each node with mail not on hold exactly once, the most urgent first, ties in node order |
| NextNode.Scheduler.QNotEmpty | ftnq.c:946-974 | The first node of the best flavour among those that may be called; none if that flavour is hold or worse |
| NextNode.Scheduler.QNextNode | ftnq.c:976-988 | That node becomes busy and loses its mail; no other node changes |
| NextNode.Scheduler.CallAll | ftnq.c:976-988 | The repeated calls end, and are such a sequence of calls |
| Locks.BsyList.BsyAdd | bsy.c:65-105 | Succeeds if and only if the flag has a file name and no such file; then file and cell are both there |
| Locks.BsyList.BsyRemove | bsy.c:128-174 | Removes file and cell of a flag that this process holds, and nothing else |
| Locks.AdrLocks | protocol.c:1361-1427 | At every exit of ADR the active addresses are distinct and locked by this session, and the other flags of the process are as they were |
| Locks.AdrSplits | protocol.c:1361-1427 | At every exit: the addresses tried so far are the new active ones, whose flag could be set when they were tried, and the new others, whose flag could not, both in order; a failed login stopped at a dropped or secure busy address |
| Locks.ReleaseFrees | protocol.c:223-224 | Exactly the active addresses are released |
| Locks.Addresses.ADR | protocol.c:1361-1427 | One array, the locked addresses in front: inserting one moves the others up and keeps both orders |
| Locks.Addresses.Deinit | protocol.c:223-224 | The first nfa elements are released and nothing else |
| Exclusion.NextInv | bsy.c:65-174 | Logins, ends of sessions and other flags, in any number of processes, keep lock files and lists in agreement |
| Exclusion.NeverShared | bsy.c:65-174 | In no state of any run do two sessions share an active address |
| ConfigRefs.StepIsSafe | readcfg.c:250-304 | What a thread touches is in memory; no count rises from zero, so none is reset to the defaults; what is freed is held by nobody |
| ConfigRefs.NextInv | readcfg.c:865-1035 | Every atomic step of every thread keeps counts, pending frees and the single reloader |
| ConfigRefs.CountedAlways | readcfg.c:208-323 | In every state of every run: the count is the holders plus one for the current configuration, held ones are in memory and parsed, each is freed at most once |
| ConfigRefs.HeldStays | client.c:270-290 | A held configuration is the same one after any step of any thread |
| ConfigRefs.HeldIsSame | server.c:343-371 | And over any part of a run in which somebody holds it |
| ConfigRefs.NothingLeaks | readcfg.c:256-304 | When every thread is between two uses only the current configuration is in memory, with count one |
| ConfigRefs.Configs.LockConfigStructure | readcfg.c:208-244 | The count goes up by one; from zero the fields become the defaults |
| ConfigRefs.Configs.UnlockConfigStructure | readcfg.c:250-304 | The count goes down by one; at zero the configuration is freed |
| ConfigRefs.Configs.LockCurrentConfig | readcfg.c:310-323 | The current configuration, counted once more, or nothing |
| ConfigRefs.Configs.Reload | readcfg.c:1015-1040 | With errors in the file nothing changes; else the new one is current with count one, and the old one is freed if and only if nobody else holds it |
| Glob.MatchOne | pmatch.c:65-68 | A literal, a question mark or a set takes one character |
| Glob.MatchStar | pmatch.c:80-84 | A star takes any piece, the empty one too |
| Glob.OneToken | pmatch.c:50-132 | A character, an escape, a question mark or a set against the name: sets with ranges, escapes in them, their end sought as the code does, an unclosed one as a literal; exactly when it runs on behind a string |
| Glob.Xpmatch | pmatch.c:47-142 | For every pattern and name and both values of ncase: ends, and answers the declarative relation wherever it does not run on behind a string; without complemented sets and a backslash at the end it never does |
| Glob.XpmatchStar | pmatch.c:69-84 | The skip to the next possible position loses no match |
| Glob.Wildmatch | misc/portable.c:87-127 | Ends, and answers the declarative relation |
| Glob.WildmatchStar | misc/portable.c:91-106 | A run of stars is one star; a match of the rest with the empty string is not lost |
| Glob.Agree | pmatch.c:47-142 | The two matchers agree on every pattern of literals, question marks and stars and every name |
| FlowFile.MarksNamed | protocol.c:704-705 | The lines taken are exactly the entries that name the file if and only if its name does not begin with ^ or # |
| FlowFile.TakenForAnother | protocol.c:704-705 | An entry ^X for the file X goes when the file ^X has been sent |
| FlowFile.BuryEntries | protocol.c:692-730 | The length of the file stays, and exactly the matching entries are gone |
| FlowFile.BuryLater | protocol.c:731-735 | The same from any line on, so for a reader in mid-file |
| FlowFile.ReadTakes | readflo.c:33-62 | A read returns the first entry left and stops behind its line |
| FlowFile.ScannedShort | protocol.c:689-735 | With no line too long for the buffer, what remove_from_spool does piece by piece is the marking of whole lines, and the file goes if and only if nobody reads it and no entry is left |
| FlowFile.FlowFile.RemoveFromSpool | protocol.c:662-742 | In place, on lines of any length in the pieces that fgets takes, with the reader's position kept; the file is removed if and only if nobody reads it and no piece that is an entry was passed |
| FlowFile.FlowFile.ReadFloLine | readflo.c:28-62 | On lines of any length: the next piece that is an entry and the position behind it, blank lines and tombstones skipped |
| FlowFile.FlowFile.NextEntry | protocol.c:2937-2952 | At the end of the flow file it is closed and, when no entry is left, removed |
| FlowFile.NextInv | protocol.c:2937-2983 | Opening, reading, taking out, closing: what was not taken out is left, the reader has skipped and repeated nothing |
| FlowFile.RemovedWhenEmpty | protocol.c:736-741 | Over all runs: a flow file is gone only when each of its first entries was taken out |
| Replace.ReplaceAllIs | tools.c:640-682 | The replacement is at each of the leftmost, non-overlapping, case-insensitive occurrences |
| Replace.AlwaysDivides | tools.c:640-682 | Every text falls into such occurrences and gaps |
| Replace.Put | tools.c:663-677 | The buffer grows when it must, nothing is written beyond its size, and the text around the occurrence is kept |
| Replace.Edit | tools.c:657-679 | The scan that steps back on a mismatch ends and yields the replace-all |
| Replace.Ed | tools.c:640-682 | Replace-all in the caller's buffer when its size is given, else in a copy with the original untouched |
| InboundNames.IncValue | inbound.c:525-546 | A step on digits raises their value by one at the same width |
| InboundNames.ValueOnce | inbound.c:525-546 | Digits of a width are determined by their value |
| InboundNames.NextIsNext | inbound.c:502-549 | Each step goes strictly up and leaves no name out, over growing widths |
| InboundNames.RealName.NextInbFilename | inbound.c:502-549 | On the name in place: the next name, or failure exactly at the last |
| InboundNames.InbTest | inbound.c:690-721 | Ends; found if and only if a file of that size and time has one of the names before the first free one |
| InboundNames.RenameLoop | inbound.c:628-660 | Ends with the first free name of the style, overwriting nothing; with none only when every name is taken |
| InboundNames.NumberedNext | inbound.c:507-519 | With the pointer at the end of the name that came, the style POSTFIX numbers the names from 1 |
| InboundNames.PostfixRetry | inbound.c:642-654 | After the change of style the pointer is at the start of the netname: a name is found if and only if a number from 1 to 10000 follows its first character and a greater one is free |
| InboundNames.InbDone | inbound.c:617-662 | The first free name of the style, and from EXTENSION on those after the change of style; none only when none of these is free |
| Addresses.RoundTrip | ftnaddr.c:72-158 | Parsing gives a printed address back if and only if its domain is empty, or a word of at most 32 characters that is not an alias or a variant of a configured one |
| Addresses.GetToken | ftnaddr.c:40-68 | A token and the rest, with the limit on words, or failure |
| Addresses.ParseFtnaddress | ftnaddr.c:72-139 | The parser on its ten tokens computes the function of the round trip |
| Addresses.XftnaddressToStr | ftnaddr.c:144-158 | The printer computes the other one |
| Numbers.ReadShow | ftnaddr.c:51-55 | What is printed in a base is read back |
| Numbers.ReadPad | ftnaddr.c:263-267 | What is printed with a width is read back, and has the width if and only if it fits |
| Outbound.FtnaddressToFilename | ftnaddr.c:234-270 | The path: zone suffix unless it is the domain's zone, point directory unless it is the node; nothing without the domain |
| Outbound.ScanFinds | ftnq.c:129-155 | Scanning the outbound finds the address of a file named after it if and only if net and node have at most four hexadecimal digits and the point at most eight |
| Outbound.PlacesDiffer | ftnaddr.c:259-267 | In that range two addresses of a domain never have the same file |
| Outbound.SamePlace | ftnaddr.c:265-267 | Beyond it they can: two addresses with one file |

## Left out

- ExactlyOnce.DeliversOnce: for sessions in ND mode in whose queue a pending status leads, on disks that do not refuse a new file, and files that are not empty, not packets and have netnames of their own; that the status must lead is `StatusOrder.StatusPlace`.
- StatusOrder.StatusPlace: for queues with one status entry, which is what a scan finds.
- Messages.DecodeEncode: netnames are quoted words and times not negative; strquote itself is left out.
- ExactlyOnce.DeliversTheFile: under the same conditions, and with netname, size and even time identifying the contents.
- DataSafety.ResumeCorrect: with netname, size and even time identifying the contents, and netnames not used twice in a session; without compression.
- BatchAgreement.SameCounts: for runs that use no netname twice in a session and offer a status in NR mode only; each condition is needed for some run, but not every run without it parts the peers.
- BatchEnd.EndsAnswered: files only, an offer of a link status is not counted.
- Exclusion.NeverShared: for processes that do not clean up stale flags.
- WireBuffers.Out.Flush: for messages that fit the buffer; the others are the case of `WireBuffers.Out.FillBuffer`.
- Compression.Sender.CompressBlock: for a compressor that stops only when its input is used up or its output is full; zlib and bzip2 themselves are not part of this model.
- Md5.HmacMd5: text and key shorter than 2^32 bytes, which their int lengths always are.
- Glob.Xpmatch: characters in the ranges of a set are compared as unsigned.
- FlowFile.ScannedShort: lines shorter than MAXPATHLEN, and so are the lines of the results on entries; other programs that edit the file at the same time are left out.
- InboundNames.InbDone: the mask of names to overwrite and the check of packet headers are left out.
- Addresses.RoundTrip: integers are unbounded, so the overflow of a number with too many digits is left out.
- Liveness of transfers: an M_GET for a sent file can put an unfinished one among the sent files, and the session then waits for its timeout.
- A session of the model has one link status, that of its one address; several addresses with a status each are left out.
- Flow files are separate from the session: its queue holds their entries one by one.
- Rewriting of packet headers, dontsendempty, the list of files not to send, remapping of paths: they change which files are offered, not how.
- Disk failures other than a refused new file; a failed removal from the spool would offer the file again.
- The touch() of a file after an M_GET beyond its end: it gives the file a new key.
- The handling of binkp/1.0, with its rule for the end of a session and delay_EOB.
- Messages other than M_FILE, M_GET, M_GOT, M_SKIP, M_EOB and M_ERR after the login, and messages of unknown type or length zero.
- Login messages, passwords, checks of the remote's IP: ADR takes the verdict on each address as given.
- Rate limiting, select, timeouts as times, sockets and proxies: a round is told what it reads and writes.
- The state of the buffers after send_block has reported an error: the session ends.
- Perl hooks, which may change any state.
- The build with fork, where each process has its own configuration, and the exit path that frees without counting.
- Path names cut at MAXPATHLEN, and quoting of netnames with strquote and strdequote.
- parse_args, MD_getChallenge, MD_toString and the files on the kill list: easy members.
- Logging, tray, service and platform code, keywords of the configuration: not part of this model.
