# Network and mail services of the DCS-2210 firmware: models and proofs

Dafny models of six parts of the firmware's `apps/public` tree, each with proofs of what the part
is for. A loop that updates an object or a buffer in the C code is a method over fields and arrays
here; the setup loops of the server's `main` and the FCS loop work on sequences and local variables.
Each is proved equal to a specification function, and what is promised about the part is proved about
that function.

| part | modules |
|---|---|
| PPPoE session pool of the server | `SessionLists`, `SessionLedger`, `SessionPool` |
| PPPoE discovery packets and handshake (RFC 2516) | `PppoeTags`, `PppoeDiscovery`, `PppoeRules`, `PppoePeers` |
| PPP framing with FCS-16 (RFC 1662), MSS clamping with the TCP checksum | `PppFcs`, `PppFraming`, `TcpChecksum`, `ClampMss` |
| the two MD5 implementations (RFC 1321) | `Md5Spec`, `Md5TestSuite`, `GnuMd5`, `PlumbMd5` |
| esmtp: CRLF conversion of the message stream, the rcfile parser, the address scanner | `MessageStream`, `RcTables`, `RcGrammar`, `RcSettings`, `RcParser`, `Rfc822`, `Rfc822RoundTrip`, `Rfc822Safety` |
| the XML scanner of miniupnpc | `MiniXml`, `XmlRoundTrip`, `XmlShortfalls` |

`Bytes`, `Chunks`, `Options` and `Substrings` are shared helpers. `dafny verify dfyconfig.toml` checks
everything.

The host is little-endian with 32-bit `size_t`, and the features HAVE_LICENSE, HAVE_L2TP, USE_BPF and
USE_DLPI are off.

## How to read the main results

- **Pool.** `Pool.Quiet` is the invariant between two events. `Pool.Serve` keeps it over every
  sequence of events and ties the two lists to a history with one operation per event; `QueueLaw` and
  `ReleasedSlotWaits` are about every such history. `RunNetwork` is the same for the server as a whole,
  fed with packets and child exits from its start: `Ended` names the sessions its history closed, and
  `EverySessionPaid` shows that each of them had a PADT of its own.
- **Handshake.** `HandshakeSucceedsExactlyWhenReady` is an equivalence over the packets themselves:
  each one is encoded, received into a buffer with arbitrary old contents, parsed again and judged.
  `Discover` is the same for the two objects and the real pool. `PppoeRules` says what either side does
  with any packet, honest or not, in terms of the tags heard in it.
- **Framing.** The specification takes one byte at a time; the program scans in three nested loops
  over reads of up to 4096 bytes. `DecodeReads` equates them for every cutting of the stream.
  `FrameOnTheWire` and `AnyFrameRead` state each direction for a peer that knows only RFC 1662.
- **MD5.** Both programs refine `Md5Spec.Digest`, one buffering lazily and one eagerly, so
  `ImplementationsAgree` needs no further argument. `AbcDigest` follows the reference through a digest
  printed in RFC 1321.
- **Parser.** `TablesFollowPlan` unpacks the compressed tables once; `Sound` and `DriverFindsTree` are
  the two halves of `DriverDecidesGrammar`. The language is the one `Derives` defines by parse trees
  over the rules, and the meaning is the one `Interpret` reads off the tokens directly; `FileStored` and
  `DefaultIdentity` say what that is by the positions of keywords and values.
- **Scanners.** The XML and address results print a structure and scan it again, with the scanner
  starting anywhere inside a larger text.

## Where the code falls short

Each entry names the exact condition, proved for all inputs, and where it helps a failing one.

- The PADS is built without a room check (pppoe-server.c:970-993). `ProcessPadr` reports `Overflow`
  exactly when its tags take more than 1500 bytes, sends one longer than 1494 exactly when they take
  1495 to 1500, and `PadsSize` gives that size from the lengths received. Both take an empty request with
  services configured; `DefaultServiceCanOutgrowPads` is an accepted PADR for which they happen.
- A PADT for a slot that was never used reaches its null interface (pppoe-server.c:721-764): by
  `Terminate`, exactly when some slot has the packet's number and sender and no interface.
  `ZeroSourcePadt` is the packet, right after the start.
- The TCP checksum reads on behind the 1500-byte payload (common.c:287-316): by `ClampInPlace` and
  `SafeToClamp`, exactly when a SYN states a total length below its header length or past the payload.
  `ZeroLengthOverreads` is such a SYN. A stated length between the received length and the end of the
  payload is not among these cases: there the sum takes in bytes left over from earlier packets.
- The address scanner can read in front of its buffer and behind the header (rfc822.c:65-66,
  rfc822.c:77-78). `FaultsExactly` decides both for every header by one pass over it: the first happens
  exactly when the header ends inside an open bracket with some text in it of which the buffer holds
  only blanks, the second exactly when a backslash outside a comment is the last character.
  `OpenBracketHeader`, `LongBlanksInstance` and `BackslashAtEnd` are the inputs; by
  `NewlineStopsTheScan` the second cannot come from message.c. The model ends such a call with
  `Underrun` or `Overrun` in place of undefined behaviour.
- The XML trace is not the plain preorder trace when an element is self-closed or prefixed, has text
  beginning with a blank, or has text behind a child or a processing instruction, which the outer loop
  skips; otherwise it is, by `IdealExactlyWhenTidy` and, with the prolog, `DocumentIdeal`
  (minixml.c:113-180). Blanks alone between two tags do not count as text. `TextWhole` is the same for
  one text, and `LostTailWitness` is a document that loses the text behind a child.
- Pieces of a header in front of a comma that hold no plain character, such as a quoted string alone, are
  not an address of their own: `UnletteredMerges` (rfc822.c:88-143). `HeaderRoundTrip` asks for
  one in each address that stands in the open.
- An unquoted attribute value swallows the character that ends it, `BareAttributeRead`; by
  `BareValueNeedsBlank` that is harmless exactly when it is a blank (minixml.c:85-102).
- Payloads of 1495 to 1500 bytes are framed but not delivered by the decoder; `DecodeFrame` covers every
  length (ppp.c:224-230).

## Model

| member | source | states |
|---|---|---|
| `PppFcs.TableIsCrc` | DCS-2210/apps/public/pppoe/ppp.c:49-82 | every one of the 256 table entries is eight steps of the reflected CRC with polynomial 0x8408 |
| `PppFcs.TableStep` | DCS-2210/apps/public/pppoe/ppp.c:255-256 | one table lookup equals eight bit-serial steps, for every register value and every byte |
| `PppFcs.PppFcs16` | DCS-2210/apps/public/pppoe/ppp.c:250-259 | the loop over the table computes the bit-serial CRC of its bytes from any start value |
| `PppFcs.CrcConcat` | DCS-2210/apps/public/pppoe/ppp.c:250-259 | checking two pieces one after the other is checking their concatenation, as the framing code relies on |
| `PppFcs.GoodResidue` | DCS-2210/apps/public/pppoe/pppoe.c:814-818 | appending the complemented, low-byte-first tail to any data always leaves the constant 0xF0B8 (appendix C of RFC 1662) |
| `PppFraming.FeedConcat` | DCS-2210/apps/public/pppoe/ppp.c:165-237 | the one-byte automaton over two reads is the automaton over their concatenation |
| `PppFraming.FeedBounded` | DCS-2210/apps/public/pppoe/ppp.c:207-235 | on every byte stream the packet size stays within 1496 and every packet handed on is at most 1494 bytes |
| `PppFraming.AsyncDecoder.AsyncRead` | DCS-2210/apps/public/pppoe/ppp.c:165-237 | the three nested scans on one read reach the state, and deliver the packets, of the one-byte-at-a-time automaton |
| `PppFraming.AsyncDecoder.BuildByte` | DCS-2210/apps/public/pppoe/ppp.c:207-235 | one byte in the building state: escape, closing flag, overflow or data, written into the 1500-byte payload without overrun |
| `PppFraming.DecodeReads` | DCS-2210/apps/public/pppoe/ppp.c:165-237 | for every cutting of a stream into reads the decoder's whole state and the packets handed on depend only on the bytes; no packet exceeds 1494 bytes and no more than 1496 are held |
| `PppFraming.EmitByte` | DCS-2210/apps/public/pppoe/pppoe.c:826-843 | one byte of a frame, escaped when it is a control character, a flag or an escape |
| `PppFraming.FrameOnTheWire` | DCS-2210/apps/public/pppoe/pppoe.c:814-844 | the same for the frame of any payload of any length |
| `PppFraming.StuffedIsTransparent` | DCS-2210/apps/public/pppoe/pppoe.c:826-843 | undoing the escapes gives the data back, reserved bytes occur only as escapes, and nothing else is escaped |
| `PppFraming.BuildFrame` | DCS-2210/apps/public/pppoe/pppoe.c:814-844 | the result is flag, address, then control, payload and FCS without any reserved byte but needed escapes, flag; with the escapes undone by the rule of RFC 1662 the bytes between the flags are FF 03, the payload and two bytes, and leave the good residue F0B8; it takes at most 2n+9 bytes and fits 4096 |
| `PppFraming.BuildStream` | DCS-2210/apps/public/pppoe/pppoe.c:814-844 | the frames of successive packets make up the concatenation of their frames |
| `PppFraming.DecodeFrame` | DCS-2210/apps/public/pppoe/ppp.c:184-236 | a frame reaching an idle decoder delivers its payload when that is at most 1494 bytes and otherwise only resynchronises |
| `PppFraming.AnyFrameRead` | DCS-2210/apps/public/pppoe/ppp.c:165-237 | a frame of any sender, escaping what it likes and with any bytes before its address and control bytes: fewer than two content bytes end the program, up to 1496 are delivered without the last two, and behind the 1497th the decoder is idle again |
| `PppFraming.FramesRoundTrip` | DCS-2210/apps/public/pppoe/ppp.c:184-236 | any concatenation of frames delivers exactly the payloads of at most 1494 bytes, in order |
| `PppFraming.AllDeliverable` | DCS-2210/apps/public/pppoe/ppp.c:224-233 | payloads of at most 1494 bytes are all deliverable |
| `PppFraming.Pipe` | DCS-2210/apps/public/pppoe/pppoe.c:814-844 | building the frames of any packets, writing them to a stream and decoding it in reads of any sizes returns the payloads of at most 1494 bytes, in order |
| `TcpChecksum.HostStoresWireChecksum` | DCS-2210/apps/public/pppoe/common.c:283-325 | the sum of little-endian words, folded, complemented and stored in host order is the pair of bytes of the network-order checksum of RFC 1071, for every length and parity |
| `TcpChecksum.StoredChecksumVerifies` | DCS-2210/apps/public/pppoe/common.c:283-325 | a segment whose checksum field was zero and then filled with the computed value sums to zero |
| `TcpChecksum.FoldIsCanon` | DCS-2210/apps/public/pppoe/common.c:321-324 | the folding loop ends, in the ones' complement representative of its input |
| `TcpChecksum.AddSegment` | DCS-2210/apps/public/pppoe/common.c:310-319 | the word loop with its trailing odd byte computes the host sum, with the 32-bit accumulator never wrapping |
| `TcpChecksum.ComputeTcpChecksum` | DCS-2210/apps/public/pppoe/common.c:283-325 | the result is the host checksum of pseudo-header and segment, for every segment length the IP header can state |
| `ClampMss.FindMss` | DCS-2210/apps/public/pppoe/common.c:416-457 | the option walk ends and finds the first MSS option, nothing, or a malformed list, as the recursive definition says |
| `ClampMss.WalkFindsFirst` | DCS-2210/apps/public/pppoe/common.c:416-457 | the walk finds an MSS option at o if and only if one of length 4 stands there and everything before it is a list of no-operations and other options with their lengths |
| `ClampMss.ClampInPlace` | DCS-2210/apps/public/pppoe/common.c:338-478 | on every packet, in its header fields: the checksum loop leaves the 1500-byte payload exactly when a SYN states a total length that does not fit; otherwise the payload changes exactly when the packet is a SYN whose segment sums to all ones and whose first MSS option exceeds the clamp, and then that MSS is the clamp and only it and the checksum differ |
| `ClampMss.FindSyn` | DCS-2210/apps/public/pppoe/common.c:346-404 | the tests in front of the checksum select exactly the IPv4 TCP SYNs that are not later fragments |
| `ClampMss.ReadableFields` | DCS-2210/apps/public/pppoe/common.c:287-294 | the bytes the checksum covers lie in the payload if and only if the stated total length is at least the header length and ends inside the payload, with the 16-bit subtraction wrapping otherwise |
| `ClampMss.SafeToClamp` | DCS-2210/apps/public/pppoe/common.c:338-414 | what a caller must check: the packet is ignored, or its IP header states such a length |
| `ClampMss.ZeroLengthOverreads` | DCS-2210/apps/public/pppoe/common.c:287-316 | a SYN stating a total length of zero makes the checksum loop read 65516 bytes |
| `ClampMss.ChangedExactly` | DCS-2210/apps/public/pppoe/common.c:338-478 | the packet is changed if and only if it is a good SYN with too large an MSS behind printed options, and then by lowering that MSS |
| `ClampMss.SumIsChecksum` | DCS-2210/apps/public/pppoe/common.c:283-325 | the computed checksum is zero if and only if addresses, protocol 6, length and segment sum to all ones (RFC 1071) |
| `ClampMss.OnlyMssAndChecksumChange` | DCS-2210/apps/public/pppoe/common.c:338-478 | either nothing changes, or only the two MSS bytes, lowered to the clamp value, and the two checksum bytes |
| `ClampMss.ClampIdempotent` | DCS-2210/apps/public/pppoe/common.c:338-478 | a second application changes nothing |
| `ClampMss.ClampedPacketVerifies` | DCS-2210/apps/public/pppoe/common.c:459-477 | a changed well-formed packet is still a SYN whose segment sums to all ones |
| `Md5Spec.FoldConcat` | DCS-2210/apps/public/ez-ipupdate-3.0.10/md5.c:250-402 | compressing two runs of blocks one after the other is compressing their concatenation |
| `Md5Spec.Quad` | DCS-2210/apps/public/ez-ipupdate-3.0.10/md5.c:305-388 | four unrolled steps with rotated registers are four steps of the indexed definition in section 3.4 of RFC 1321 |
| `Md5TestSuite.AbcDigest` | DCS-2210/apps/public/pppoe/md5.c:166-247 | the reference gives the digest of `abc` printed in appendix A.5 of RFC 1321, through all 64 operations with their numbers |
| `GnuMd5.Round1` | DCS-2210/apps/public/ez-ipupdate-3.0.10/md5.c:305-321 | the first sixteen unrolled operations |
| `GnuMd5.Round2` | DCS-2210/apps/public/ez-ipupdate-3.0.10/md5.c:336-352 | the second sixteen |
| `GnuMd5.Round3` | DCS-2210/apps/public/ez-ipupdate-3.0.10/md5.c:354-370 | the third sixteen |
| `GnuMd5.Round4` | DCS-2210/apps/public/ez-ipupdate-3.0.10/md5.c:372-388 | the fourth sixteen, so the block is compressed as RFC 1321 says |
| `GnuMd5.FoldBlocks` | DCS-2210/apps/public/ez-ipupdate-3.0.10/md5.c:270-402 | the loop over blocks folds them into the chaining state |
| `GnuMd5.AddToTotal` | DCS-2210/apps/public/ez-ipupdate-3.0.10/md5.c:261-266 | the two counter words advance as one 64-bit byte count that wraps |
| `GnuMd5.BitLength` | DCS-2210/apps/public/ez-ipupdate-3.0.10/md5.c:109-112 | the two words stored behind the padding are the length in bits modulo 2^64 |
| `GnuMd5.Context.constructor` | DCS-2210/apps/public/ez-ipupdate-3.0.10/md5.c:61-71 | a new context has digested nothing |
| `GnuMd5.Context.ProcessBlock` | DCS-2210/apps/public/ez-ipupdate-3.0.10/md5.c:249-402 | whole blocks join the compressed part, and the byte count follows |
| `GnuMd5.Context.Drain` | DCS-2210/apps/public/ez-ipupdate-3.0.10/md5.c:207-214 | the whole blocks among the buffered bytes are compressed and the rest moves down |
| `GnuMd5.Context.TopUp` | DCS-2210/apps/public/ez-ipupdate-3.0.10/md5.c:197-218 | topping up a partly filled buffer never overruns its 128 bytes, and input is left over only with the buffer empty |
| `GnuMd5.Context.Absorb` | DCS-2210/apps/public/ez-ipupdate-3.0.10/md5.c:220-226 | a long piece is compressed block by block straight from the input |
| `GnuMd5.Context.ProcessBytes` | DCS-2210/apps/public/ez-ipupdate-3.0.10/md5.c:194-234 | the message of the context grows by exactly the given bytes; at most 64 bytes wait in the buffer |
| `GnuMd5.Context.Finish` | DCS-2210/apps/public/ez-ipupdate-3.0.10/md5.c:94-118 | padding and length fit the buffer and the result is the RFC 1321 digest of the message |
| `GnuMd5.DigestOf` | DCS-2210/apps/public/ez-ipupdate-3.0.10/md5.c:178-234 | for every split of a message into calls the result is its RFC 1321 digest |
| `PlumbMd5.Round1` | DCS-2210/apps/public/pppoe/md5.c:175-190 | the first sixteen steps of the transform |
| `PlumbMd5.Round2` | DCS-2210/apps/public/pppoe/md5.c:192-207 | the second sixteen |
| `PlumbMd5.Round3` | DCS-2210/apps/public/pppoe/md5.c:209-224 | the third sixteen |
| `PlumbMd5.Round4` | DCS-2210/apps/public/pppoe/md5.c:226-241 | the fourth sixteen |
| `PlumbMd5.Transform` | DCS-2210/apps/public/pppoe/md5.c:166-247 | the transform is the compression function |
| `PlumbMd5.ByteReverseHarmless` | DCS-2210/apps/public/pppoe/md5.c:27-37 | reassembling a word low byte first and storing it low byte first gives the same four bytes |
| `PlumbMd5.ByteReverse` | DCS-2210/apps/public/pppoe/md5.c:27-37 | the whole pass leaves the buffer as it was on a little-endian machine |
| `PlumbMd5.AddBits` | DCS-2210/apps/public/pppoe/md5.c:62-67 | the two counter words advance as one 64-bit bit count that wraps |
| `PlumbMd5.Context.Chunks` | DCS-2210/apps/public/pppoe/md5.c:87-95 | every whole 64-byte chunk of the input is compressed |
| `PlumbMd5.Context.Update` | DCS-2210/apps/public/pppoe/md5.c:58-100 | the message of the context grows by exactly the given bytes; fewer than 64 bytes wait |
| `PlumbMd5.Context.Final` | DCS-2210/apps/public/pppoe/md5.c:106-145 | the result is the RFC 1321 digest of the message |
| `PlumbMd5.DigestOf` | DCS-2210/apps/public/pppoe/md5.c:58-145 | for every split of a message into calls the result is its RFC 1321 digest |
| `PlumbMd5.ImplementationsAgree` | DCS-2210/apps/public/pppoe/md5.c:43-145 | the two implementations return the same 16 bytes for the same message, however each splits it |
| `SessionLists.TakeKeepsPartition` | DCS-2210/apps/public/pppoe/pppoe-server.c:1981-2015 | allocating keeps every slot on exactly one list |
| `SessionLists.GiveKeepsPartition` | DCS-2210/apps/public/pppoe/pppoe-server.c:2026-2070 | releasing keeps every slot on exactly one list |
| `SessionLists.OnExactlyOneList` | DCS-2210/apps/public/pppoe/pppoe-server.c:1981-2070 | every slot is free or busy and never both |
| `SessionLists.QueueLaw` | DCS-2210/apps/public/pppoe/pppoe-server.c:1981-2070 | over every history of allocations and releases the free list is first in, first out: what was free and what was released, in order, is what was allocated and what is still free |
| `SessionLists.ReleasedSlotWaits` | DCS-2210/apps/public/pppoe/pppoe-server.c:2051-2059 | a released slot is allocated again only after every slot that was free when it was released |
| `SessionLedger.GoesSettled` | DCS-2210/apps/public/pppoe/pppoe-server.c:721-942 | a session started, a failed fork or a PADT sent keeps the account settled: for each slot, the PADTs sent up to the start of its session cover the sessions closed under its number before |
| `SessionLedger.CloseSettles` | DCS-2210/apps/public/pppoe/pppoe-server.c:205-260 | closing a session keeps the account settled, since a PADT for it was sent after it began |
| `SessionLedger.EverySessionPaid` | DCS-2210/apps/public/pppoe/pppoe-server.c:205-260 | when the account is settled, at least as many PADTs went to each peer under each number as sessions of theirs were closed |
| `SessionLedger.BooksGo` | DCS-2210/apps/public/pppoe/pppoe-server.c:721-942 | a change that closes no session is one operation on the lists and closes nothing |
| `SessionLedger.BooksClose` | DCS-2210/apps/public/pppoe/pppoe-server.c:205-260 | closing a session is one release on the lists and adds that session to the account |
| `SessionPool.IncrementIp` | DCS-2210/apps/public/pppoe/pppoe-server.c:271-284 | the carried byte increments add one modulo 2^32 |
| `SessionPool.Shuffle` | DCS-2210/apps/public/pppoe/pppoe-server.c:1418-1428 | for every sequence of random numbers the result is the sequence of swaps they choose, and a permutation of the slots |
| `SessionPool.AnyOrderShuffled` | DCS-2210/apps/public/pppoe/pppoe-server.c:1418-1428 | every order of the slots comes out for some random numbers |
| `SessionPool.InitialSlots` | DCS-2210/apps/public/pppoe/pppoe-server.c:1377-1390 | slot i gets number i + 1 + offset and the i-th address after the first |
| `SessionPool.LinkInOrder` | DCS-2210/apps/public/pppoe/pppoe-server.c:1429-1444 | the next pointers spell out the chosen order, the last one null |
| `SessionPool.DistinctNames` | DCS-2210/apps/public/pppoe/pppoe-server.c:1352-1390 | session numbers are pairwise distinct and within 1..65534, and peer addresses are pairwise distinct |
| `SessionPool.PadtIndexFindsOwner` | DCS-2210/apps/public/pppoe/pppoe-server.c:731-738 | the wrapping index arithmetic selects slot i exactly when slot i owns the number in the packet |
| `SessionPool.NewPool` | DCS-2210/apps/public/pppoe/pppoe-server.c:1352-1445 | either start, in order or shuffled, gives a pool that satisfies the invariant with every slot free |
| `SessionPool.Pool.constructor` | DCS-2210/apps/public/pppoe/pppoe-server.c:1352-1445 | from either start every slot is free, in the given order, and the invariant holds |
| `SessionPool.Pool.Allocate` | DCS-2210/apps/public/pppoe/pppoe-server.c:1981-2015 | the head of the free list moves to the front of the busy list and its fields are reset; nothing else changes |
| `SessionPool.Pool.FindBusy` | DCS-2210/apps/public/pppoe/pppoe-server.c:2031-2042 | the walk finds the slot and its predecessor on the busy list, or reports that it is not there |
| `SessionPool.Pool.Move` | DCS-2210/apps/public/pppoe/pppoe-server.c:2044-2068 | unlinking and appending in place performs exactly the move between the two lists |
| `SessionPool.Pool.Release` | DCS-2210/apps/public/pppoe/pppoe-server.c:2026-2070 | a busy slot goes to the end of the free list; any other slot is refused and nothing changes |
| `SessionPool.Pool.CountSessions` | DCS-2210/apps/public/pppoe/pppoe-server.c:182-192 | the walk returns the size of the set of busy slots held by one peer |
| `SessionPool.Pool.Request` | DCS-2210/apps/public/pppoe/pppoe-server.c:812-942 | a session starts exactly when the peer holds fewer busy slots than its limit, the request is acceptable, a slot is free and fork succeeds; no slot and a failed fork are each given by an equivalence, the latter sending the slot to the end of the free list; the invariant is kept |
| `SessionPool.Pool.Terminate` | DCS-2210/apps/public/pppoe/pppoe-server.c:721-764 | a PADT is acted on exactly when some slot has both its number and its sender; then one PADT for that session is sent, unless that slot never had an interface, which is exactly when the null interface is reached |
| `SessionPool.ZeroSourcePadt` | DCS-2210/apps/public/pppoe/pppoe-server.c:721-764 | right after the start a PADT with an all-zero source and any slot's number reaches that slot's null interface |
| `SessionPool.Pool.ChildExit` | DCS-2210/apps/public/pppoe/pppoe-server.c:205-260 | the slot returns to the free list, and a PADT for that very session has been sent by then |
| `SessionPool.Pool.StopAll` | DCS-2210/apps/public/pppoe/pppoe-server.c:295-306 | every busy session is sent a PADT |
| `SessionPool.Pool.Serve` | DCS-2210/apps/public/pppoe/pppoe-server.c:182-260 | any sequence of events keeps the invariant; the lists go through one operation per event, a release for every exit and an allocation only for an acceptable PADR; the sessions closed are those the exits released, and the account is settled |
| `SessionPool.Pool.Handle` | DCS-2210/apps/public/pppoe/pppoe-server.c:182-260 | one event keeps invariant, history and account |
| `SessionPool.RunServer` | DCS-2210/apps/public/pppoe/pppoe-server.c:1352-1445 | after every run from either start both lists are acyclic and share out the slots, the count equals the busy length, no peer exceeds its limit, and a child lives exactly on the busy slots; the sessions closed are those the exits released, and for each peer and number at least as many PADTs were sent as sessions closed |
| `PppoeTags.ParsePacket` | DCS-2210/apps/public/pppoe/common.c:63-104 | the loop reports the slices of the recursive definition |
| `PppoeTags.FindTag` | DCS-2210/apps/public/pppoe/common.c:118-162 | the loop returns the first slice of the asked type, and nothing exactly when there is none |
| `PppoeTags.ParseIsSafe` | DCS-2210/apps/public/pppoe/common.c:63-104 | on arbitrary bytes the reported slices are disjoint, in order and inside the declared length and the 1494 bytes that may be declared |
| `PppoeTags.ParseExactly` | DCS-2210/apps/public/pppoe/common.c:63-104 | what is reported of any packet: nothing unless version and type are 1 and the length is at most 1494; otherwise exactly the tags up to the declared length, an end-of-list type or a tag that does not fit, with success unless it is the last |
| `PppoeTags.ListSplits` | DCS-2210/apps/public/pppoe/common.c:79-104 | every payload is such a list of tags up to such a place |
| `PppoeTags.TagRoundTrip` | DCS-2210/apps/public/pppoe/common.c:79-104 | reading back an encoded list of tags reports exactly those tags in order, whatever follows in the buffer |
| `PppoeTags.FirstIsFirstTag` | DCS-2210/apps/public/pppoe/common.c:118-162 | the first slice of a type is the first tag of that type |
| `PppoeTags.Writer.Append` | DCS-2210/apps/public/pppoe/pppoe-server.c:664-666 | a tag is written at the cursor in wire format and nothing before it changes |
| `PppoeDiscovery.HeardWhatWasSent` | DCS-2210/apps/public/pppoe/common.c:63-104 | a receiver hears exactly the tags that were sent, whatever its buffer held before |
| `PppoeDiscovery.AnswerToPadi` | DCS-2210/apps/public/pppoe/pppoe-server.c:577-708 | any answer to the client's PADI is the offer made for it; it is given when names match, the address is unicast and the peer is under its limit, and not given when the last two fail |
| `PppoeDiscovery.ReactionToOffer` | DCS-2210/apps/public/pppoe/discovery.c:406-436 | the client takes up the offer if and only if access concentrator and service names match and the server's address is unicast; it then holds the cookie and the server's address |
| `PppoeDiscovery.RequestAccepted` | DCS-2210/apps/public/pppoe/pppoe-server.c:827-874 | the server recognises its own cookie and accepts the client's PADR for the wanted service, unless the peer is at its limit |
| `PppoeDiscovery.ConfirmationAccepted` | DCS-2210/apps/public/pppoe/discovery.c:608-627 | the PADS fits, and the client takes its session number from it |
| `PppoeDiscovery.HandshakeSucceedsExactlyWhenReady` | DCS-2210/apps/public/pppoe/discovery.c:648-716 | the four-packet exchange ends in the session state if and only if addresses are unicast, names match, packets fit, the peer is under its limit, a slot is free and fork succeeds; the client then holds that slot's number |
| `PppoeDiscovery.RoomNeeded` | DCS-2210/apps/public/pppoe/pppoe-server.c:662-706 | the packets of the exchange fit if and only if the names are short enough, as sums of lengths a caller can check |
| `PppoeDiscovery.KeptTagsFit` | DCS-2210/apps/public/pppoe/pppoe-server.c:454-480 | the last tag of each of four different types together take no more room than all tags received |
| `PppoeDiscovery.PadsSize` | DCS-2210/apps/public/pppoe/pppoe-server.c:970-993 | the exact size of the PADS |
| `PppoeDiscovery.PadsNeedsNoRoomCheck` | DCS-2210/apps/public/pppoe/pppoe-server.c:970-993 | when the client names a service, or none is configured, the PADS is at least 24 bytes shorter than the accepted PADR; otherwise it may be longer by the first configured name |
| `PppoeDiscovery.DefaultServiceCanOutgrowPads` | DCS-2210/apps/public/pppoe/pppoe-server.c:970-980 | in that other case the PADS can be too long: a concrete accepted PADR whose PADS takes 1408 bytes and the first configured name, past 1494 from 87 bytes on and past 1500 from 93 |
| `PppoeRules.JudgedBy` | DCS-2210/apps/public/pppoe/pppoe-server.c:797-874 | any PADR is dropped unless it is addressed to the server, from a unicast peer under its limit, with the MD5 of both addresses and the seed and the process id in its last cookie; it is then accepted if and only if its last service name is present and empty or configured, and otherwise answered with a service name error |
| `PppoeRules.AnswerPadiObeys` | DCS-2210/apps/public/pppoe/pppoe-server.c:577-708 | any PADI is answered if and only if its source is unicast and under its limit, its last service name is absent, empty or configured, and the offer fits 1494 bytes |
| `PppoeRules.OfferIs` | DCS-2210/apps/public/pppoe/pppoe-server.c:662-706 | the offer carries the name, exactly the configured services or an empty one, the peer's cookie, and the relay id and host-uniq last heard |
| `PppoeRules.ConfirmationCarries` | DCS-2210/apps/public/pppoe/pppoe-server.c:970-993 | the PADS carries the service asked for, or the first configured one for an empty request, and the relay id and host-uniq last heard, and nothing else |
| `PppoeRules.OnPadoObeys` | DCS-2210/apps/public/pppoe/discovery.c:406-436 | any packet: without this client's address and host-uniq, the PADO code and a unicast source nothing happens; otherwise an error tag ends the program, and the offer is taken exactly when both names have been seen and are right, with the last cookie and relay id kept |
| `PppoeRules.OnPadsObeys` | DCS-2210/apps/public/pppoe/discovery.c:608-627 | any packet: the session begins, with its number, if and only if the packet is a PADS from the chosen server for this client without an error tag |
| `PppoeRules.MakePadiObeys` | DCS-2210/apps/public/pppoe/discovery.c:243-308 | a PADI carries exactly the service asked for, unless it is to be left out, and the host-uniq |
| `PppoeRules.MakePadrObeys` | DCS-2210/apps/public/pppoe/discovery.c:450-513 | a PADR carries exactly the service, the host-uniq, and the cookie and relay id held |
| `PppoeRules.RelayIdReturns` | DCS-2210/apps/public/pppoe/discovery.c:406-513 | a relay id in a PADI comes back in the PADO, is held by a client that takes it, is in its PADR, and comes back in the PADS |
| `PppoePeers.WriteTags` | DCS-2210/apps/public/pppoe/pppoe-server.c:664-706 | tags are written while each leaves room, exactly when together they fit 1494 bytes |
| `PppoePeers.Remember` | DCS-2210/apps/public/pppoe/pppoe-server.c:418-440 | the parse callback keeps the data of the last tag of its type |
| `PppoePeers.Server.GenCookie` | DCS-2210/apps/public/pppoe/pppoe-server.c:549-564 | the cookie is the MD5 digest of peer address, own address and seed, followed by the process id |
| `PppoePeers.Server.ProcessPadi` | DCS-2210/apps/public/pppoe/pppoe-server.c:577-708 | the PADO sent, or silence, is the one the rule for any PADI gives |
| `PppoePeers.Server.Judge` | DCS-2210/apps/public/pppoe/pppoe-server.c:797-874 | the checks drop, refuse or accept exactly by the rule for any PADR: destination, unicast source, limit, cookie, service |
| `PppoePeers.Server.BuildPads` | DCS-2210/apps/public/pppoe/pppoe-server.c:970-993 | the PADS written through the cursor without a room check encodes the specified tags inside the payload |
| `PppoePeers.Server.ProcessPadr` | DCS-2210/apps/public/pppoe/pppoe-server.c:779-993 | any PADR: silence exactly without the right destination, source, limit or cookie; a service name error exactly for a service not served; a system error exactly without a slot or a child; otherwise a session starts, the slot holds the client's address and the PADS its number, the service and the echoed tags; the PADS has the size of its tags and overflows exactly when that is more than 1500 bytes; more than the 1494 bytes of a PPPoE payload already takes an empty request with services configured |
| `PppoePeers.Connection.SendPadi` | DCS-2210/apps/public/pppoe/discovery.c:243-308 | the PADI carries exactly service and host-uniq, or nothing is sent when they do not fit |
| `PppoePeers.Connection.SendPadr` | DCS-2210/apps/public/pppoe/discovery.c:450-513 | the PADR carries exactly service name, host-uniq, cookie and relay id, or nothing is sent when they do not fit |
| `PppoePeers.Connection.IsForMe` | DCS-2210/apps/public/pppoe/discovery.c:86-99 | a packet is for this client exactly when its destination and host-uniq are |
| `PppoePeers.Connection.TakePado` | DCS-2210/apps/public/pppoe/discovery.c:406-436 | the client's state after any packet while waiting for a PADO, by the rule for any such packet |
| `PppoePeers.Connection.TakePads` | DCS-2210/apps/public/pppoe/discovery.c:608-627 | the client's state after any packet while waiting for a PADS, by the rule for any such packet |
| `PppoePeers.Dispatch` | DCS-2210/apps/public/pppoe/pppoe-server.c:1578-1623 | a packet whose length field is covered and whose version and type are 1 goes to the PADI, PADR or PADT handling by its code and is answered by the rules for any PADI and any PADR; every other packet changes nothing; lists and log change as one step of the account |
| `PppoePeers.Arrive` | DCS-2210/apps/public/pppoe/pppoe-server.c:1578-1623 | one packet or exit keeps the server's invariant, the history and the account |
| `PppoePeers.RunNetwork` | DCS-2210/apps/public/pppoe/pppoe-server.c:1352-1623 | the server from either start through any received packets and child exits: lists, links, names, limits and children are in order, only an exit releases a slot and only a PADR takes one, the sessions closed are those the exits released, and for each peer and number at least as many PADTs were sent as sessions closed |
| `PppoePeers.OfferTaken` | DCS-2210/apps/public/pppoe/discovery.c:406-436 | the client's reaction to the offer made for it, from the names and the server's address |
| `PppoePeers.Ask` | DCS-2210/apps/public/pppoe/discovery.c:664-680 | the PADI reaches the server and the PADO, or silence, comes back as specified |
| `PppoePeers.Offer` | DCS-2210/apps/public/pppoe/discovery.c:664-688 | the first half of the exchange, with the conditions under which the client goes on |
| `PppoePeers.Confirmation` | DCS-2210/apps/public/pppoe/discovery.c:696-715 | the second half: the session number is the allocated slot's and the slot holds the client's address |
| `PppoePeers.Discover` | DCS-2210/apps/public/pppoe/discovery.c:648-716 | one attempt between the two objects reaches the session state if and only if everything is ready, and then client, slot and lists agree |
| `MessageStream.CrlfIsPieces` | DCS-2210/apps/public/esmtp-0.6.0/message.c:178-215 | the conversion with its carried flag is a choice per position that looks only at the byte before |
| `MessageStream.ConvertsBareLineFeeds` | DCS-2210/apps/public/esmtp-0.6.0/message.c:178-215 | every LF not preceded by CR becomes CRLF and nothing else changes (section 2.3.7 of RFC 2821) |
| `MessageStream.NoBareLfRemains` | DCS-2210/apps/public/esmtp-0.6.0/message.c:178-215 | the output contains no bare LF |
| `MessageStream.CrlfIdempotent` | DCS-2210/apps/public/esmtp-0.6.0/message.c:178-215 | converting converted text changes nothing |
| `MessageStream.Message.Fill` | DCS-2210/apps/public/esmtp-0.6.0/message.c:151-157 | a fill moves some bytes of the file into the free end of the buffer |
| `MessageStream.Message.Convert` | DCS-2210/apps/public/esmtp-0.6.0/message.c:164-216 | the conversion loop emits a prefix of what is due and leaves exactly the rest due |
| `MessageStream.Message.Flush` | DCS-2210/apps/public/esmtp-0.6.0/message.c:159-226 | the same, with the consumed bytes sent to the MDA |
| `MessageStream.Message.Read` | DCS-2210/apps/public/esmtp-0.6.0/message.c:228-251 | output and what is still due make up what was due; the MDA has received exactly the bytes consumed; a short count means the message is over |
| `MessageStream.ReadAll` | DCS-2210/apps/public/esmtp-0.6.0/message.c:151-251 | for any fills and any read sizes the output is the converted message and the MDA has the raw one |
| `RcTables.TablesFollowPlan` | DCS-2210/apps/public/esmtp-0.6.0/parser.c:485-548 | the overlaid, compressed tables hold exactly the grammar's shifts and, elsewhere, each state's default reduction |
| `RcTables.GotoLists` | DCS-2210/apps/public/esmtp-0.6.0/parser.c:498-548 | the compressed gotos of file and lists |
| `RcTables.GotoItems` | DCS-2210/apps/public/esmtp-0.6.0/parser.c:498-548 | the compressed gotos of map sign and identity |
| `RcTables.GotoStatement` | DCS-2210/apps/public/esmtp-0.6.0/parser.c:498-548 | the compressed gotos of a statement |
| `RcGrammar.TreeMeansTokens` | DCS-2210/apps/public/esmtp-0.6.0/parser.c:1226-1314 | running the semantic actions of a parse tree, children first, is reading its tokens from left to right with a plain interpreter, for every field of every identity |
| `RcGrammar.DefaultIdentity` | DCS-2210/apps/public/esmtp-0.6.0/parser.c:1739-1749 | the default identity is the one current at the last `default`, else at the first setting other than mda, else the last one |
| `RcSettings.AssignStores` | DCS-2210/apps/public/esmtp-0.6.0/parser.c:1226-1314 | one more statement keeps the settings those the tokens so far name |
| `RcSettings.FileStored` | DCS-2210/apps/public/esmtp-0.6.0/parser.c:1226-1314 | after a whole file each field of identity k holds the text of the last value for its keyword among the tokens behind k `identity` keywords, and is unset without one; likewise address and starttls, and mda for the whole file |
| `RcParser.StackFits` | DCS-2210/apps/public/esmtp-0.6.0/parser.c:1048-1060 | in every linked configuration position n of the stack holds a state whose height is more than n and at most nine |
| `RcParser.ReadyToReduce` | DCS-2210/apps/public/esmtp-0.6.0/parser.c:1200-1222 | whenever a state reduces, the symbols on the stack are the right-hand side of its rule and its goto is a state that may stand there |
| `RcParser.ReductionFalls` | DCS-2210/apps/public/esmtp-0.6.0/parser.c:1210-1340 | every reduction lowers a weight, so the driver stops on every input |
| `RcParser.Sound` | DCS-2210/apps/public/esmtp-0.6.0/parser.c:1040-1340 | whatever the driver accepts it has built a parse tree of, and it has run exactly that tree's actions |
| `RcParser.DriverFindsTree` | DCS-2210/apps/public/esmtp-0.6.0/parser.c:1040-1340 | from the tokens of any parse tree the driver accepts and rebuilds that very tree |
| `RcParser.DriverDecidesGrammar` | DCS-2210/apps/public/esmtp-0.6.0/parser.c:1040-1340 | the driver accepts a token sequence if and only if the grammar derives it, and its result is the interpreter's |
| `RcParser.GrammarUnambiguous` | DCS-2210/apps/public/esmtp-0.6.0/parser.c:420-433 | no token sequence has two parse trees |
| `RcParser.StackNeverAboveNine` | DCS-2210/apps/public/esmtp-0.6.0/parser.c:1048-1120 | after any number of turns on any input the state stack holds at most nine entries |
| `RcParser.Parser.constructor` | DCS-2210/apps/public/esmtp-0.6.0/parser.c:1003-1043 | the driver starts in state 0 with an empty symbol stack |
| `RcParser.Parser.ReadToken` | DCS-2210/apps/public/esmtp-0.6.0/parser.c:1141-1159 | a lookahead is read only when there is none |
| `RcParser.Parser.ShiftToken` | DCS-2210/apps/public/esmtp-0.6.0/parser.c:1178-1194 | a shift is the step function's, on the state and value arrays |
| `RcParser.Parser.Replace` | DCS-2210/apps/public/esmtp-0.6.0/parser.c:1210-1340 | a reduction runs its action on the top value, takes its symbols off both arrays and pushes the goto state |
| `RcParser.Parser.ReduceRule` | DCS-2210/apps/public/esmtp-0.6.0/parser.c:1210-1340 | a reduction is the step function's, on the state and value arrays |
| `RcParser.Parser.YyParse` | DCS-2210/apps/public/esmtp-0.6.0/parser.c:1040-1340 | accepts if and only if the grammar derives the tokens, leaves the interpreter's result, and never takes the stack-growth path |
| `RcParser.RcfileParse` | DCS-2210/apps/public/esmtp-0.6.0/parser.c:1739-1749 | a configuration results exactly for files of the grammar; every field, address and starttls level of every identity, and mda, is the last value the tokens of its part give, with encryption required of the newest identity when asked for |
| `RcParser.SettingsOfFile` | DCS-2210/apps/public/esmtp-0.6.0/parser.c:1226-1314 | the settings of any accepted file, read off its tokens |
| `RcParser.DefaultIdentityOfFile` | DCS-2210/apps/public/esmtp-0.6.0/parser.c:1739-1749 | the default identity of any accepted file, read off its tokens |
| `MiniXml.Until` | DCS-2210/apps/public/miniupnpc/minixml.c:53-58 | where a scan stops, and that it never looks further than one character behind the buffer |
| `MiniXml.Attribute` | DCS-2210/apps/public/miniupnpc/minixml.c:48-102 | an attribute leaves the cursor behind where it was |
| `MiniXml.Tag` | DCS-2210/apps/public/miniupnpc/minixml.c:115-175 | every round of the outer loop moves the cursor on, on any buffer |
| `MiniXml.XmlParser.Advance` | DCS-2210/apps/public/miniupnpc/minixml.c:78-83 | the scanning loop stops where the definition says |
| `MiniXml.XmlParser.ParseValue` | DCS-2210/apps/public/miniupnpc/minixml.c:70-100 | a quoted or bare attribute value is reported as a slice inside the buffer |
| `MiniXml.XmlParser.ParseOneAtt` | DCS-2210/apps/public/miniupnpc/minixml.c:48-102 | one attribute is reported as specified |
| `MiniXml.XmlParser.ParseAtt` | DCS-2210/apps/public/miniupnpc/minixml.c:38-105 | the attribute loop reports the specified attributes and stops where specified |
| `MiniXml.XmlParser.ParseName` | DCS-2210/apps/public/miniupnpc/minixml.c:117-131 | the name starts again behind each colon |
| `MiniXml.XmlParser.ParseContent` | DCS-2210/apps/public/miniupnpc/minixml.c:140-158 | the text behind a start tag |
| `MiniXml.XmlParser.ParseStartTag` | DCS-2210/apps/public/miniupnpc/minixml.c:132-159 | a start tag with its attributes and text |
| `MiniXml.XmlParser.ParseEndTag` | DCS-2210/apps/public/miniupnpc/minixml.c:160-174 | an end tag, prefix included |
| `MiniXml.XmlParser.ParseElt` | DCS-2210/apps/public/miniupnpc/minixml.c:109-181 | the whole trace is the specified one |
| `MiniXml.ParseXml` | DCS-2210/apps/public/miniupnpc/minixml.c:184-189 | the trace of a buffer from its start |
| `XmlRoundTrip.AttributesRead` | DCS-2210/apps/public/miniupnpc/minixml.c:38-105 | any list of quoted attributes, with any blanks around names and equals signs, is reported in order |
| `XmlRoundTrip.BareAttributeRead` | DCS-2210/apps/public/miniupnpc/minixml.c:85-102 | an unquoted value is reported up to the character that ends it, and that character is skipped, even if it is the '>' of the tag |
| `XmlRoundTrip.BareValueNeedsBlank` | DCS-2210/apps/public/miniupnpc/minixml.c:44-104 | the attributes behind an unquoted value are reported as they should be, and the tag ends where it should, if and only if a blank ends the value |
| `XmlRoundTrip.NodeRead` | DCS-2210/apps/public/miniupnpc/minixml.c:109-181 | scanning a printed element inside any text reports its preorder trace and goes on behind it |
| `XmlRoundTrip.DocumentTrace` | DCS-2210/apps/public/miniupnpc/minixml.c:109-189 | for every list of element trees behind any prolog the trace is the preorder of starts, attributes, texts and ends, whatever lies behind the buffer |
| `XmlRoundTrip.TextWhole` | DCS-2210/apps/public/miniupnpc/minixml.c:140-157 | text comes through whole if and only if it is blank, which counts as none, or does not begin with a blank |
| `XmlShortfalls.IdealExactlyWhenTidy` | DCS-2210/apps/public/miniupnpc/minixml.c:109-181 | the trace is the plain preorder trace, with every text, whole, and an end under its own name for every element, if and only if at no depth an element is self-closed or prefixed, has text beginning with a blank, or has text behind a child or a processing instruction |
| `XmlShortfalls.DocumentIdeal` | DCS-2210/apps/public/miniupnpc/minixml.c:109-189 | so scanning a printed document gives the plain preorder trace exactly for such trees behind a prolog without text |
| `XmlShortfalls.LostTailWitness` | DCS-2210/apps/public/miniupnpc/minixml.c:113-180 | `<a><b>x</b>tail</a>` is scanned without its `tail` |
| `Rfc822.StepAdvances` | DCS-2210/apps/public/esmtp-0.6.0/rfc822.c:55-185 | every turn lowers a measure, the pushed-back character included |
| `Rfc822.Call` | DCS-2210/apps/public/esmtp-0.6.0/rfc822.c:38-188 | a call ends, and one that returns an address has lowered the measure |
| `Rfc822.AddressScanner.Put` | DCS-2210/apps/public/esmtp-0.6.0/rfc822.c:46-46 | a character is stored inside the buffer, whose last cell stays free |
| `Rfc822.AddressScanner.FinishHeader` | DCS-2210/apps/public/esmtp-0.6.0/rfc822.c:60-72 | the end of the header returns the collected text without trailing blanks |
| `Rfc822.AddressScanner.TakeEscape` | DCS-2210/apps/public/esmtp-0.6.0/rfc822.c:73-80 | a backslash takes the next character along, except in comments |
| `Rfc822.AddressScanner.Junk` | DCS-2210/apps/public/esmtp-0.6.0/rfc822.c:88-111 | one character before an address, with the push-back of its first |
| `Rfc822.AddressScanner.Bare` | DCS-2210/apps/public/esmtp-0.6.0/rfc822.c:113-143 | one character of a bare address |
| `Rfc822.AddressScanner.Dquote` | DCS-2210/apps/public/esmtp-0.6.0/rfc822.c:145-153 | one character of a quoted string |
| `Rfc822.AddressScanner.Parens` | DCS-2210/apps/public/esmtp-0.6.0/rfc822.c:155-162 | one character of a comment |
| `Rfc822.AddressScanner.Brackets` | DCS-2210/apps/public/esmtp-0.6.0/rfc822.c:164-183 | one character inside angle brackets |
| `Rfc822.AddressScanner.OneTurn` | DCS-2210/apps/public/esmtp-0.6.0/rfc822.c:55-185 | one turn of the loop is the step function's |
| `Rfc822.AddressScanner.NextAddress` | DCS-2210/apps/public/esmtp-0.6.0/rfc822.c:38-188 | a call resumes where the last one stopped, or starts a new header, and returns what the step function leads to |
| `Rfc822.Recipients` | DCS-2210/apps/public/esmtp-0.6.0/message.c:287-293 | the loop over calls collects the addresses up to the first null or the first fault |
| `Rfc822RoundTrip.ItemRead` | DCS-2210/apps/public/esmtp-0.6.0/rfc822.c:88-183 | an address in the open or in angle brackets, among quoted strings, escapes, comments and blanks with continuation lines, or nothing between two commas: its address is returned and the next call goes on behind it |
| `Rfc822RoundTrip.HeaderRoundTrip` | DCS-2210/apps/public/esmtp-0.6.0/rfc822.c:38-188 | for every list of such items printed on any number of lines, up to the first newline without a continuation line, successive calls return exactly their addresses in order and then null, without touching anything out of bounds |
| `Rfc822RoundTrip.UnletteredMerges` | DCS-2210/apps/public/esmtp-0.6.0/rfc822.c:88-143 | pieces in front of a comma without a plain character are not returned; what they mean is put in front of the next address |
| `Rfc822RoundTrip.NullForGood` | DCS-2210/apps/public/esmtp-0.6.0/rfc822.c:55-72 | once a call has returned null every later one does |
| `Rfc822Safety.CallVerdict` | DCS-2210/apps/public/esmtp-0.6.0/rfc822.c:38-188 | each call agrees on the fault with one pass over the header that knows neither buffer nor calls, and leaves the rest of the header to the next call |
| `Rfc822Safety.FaultsExactly` | DCS-2210/apps/public/esmtp-0.6.0/rfc822.c:38-188 | for every header, that pass decides whether some call leaves the front of the buffer, some call leaves the end of the header, or neither |
| `Rfc822Safety.FaultsNeed` | DCS-2210/apps/public/esmtp-0.6.0/rfc822.c:55-80 | the first fault takes a '<' with a blank right behind it, the second a final backslash |
| `Rfc822Safety.NewlineStopsTheScan` | DCS-2210/apps/public/esmtp-0.6.0/message.c:263-295 | a header that ends in a newline, as message.c passes them, is never overrun |
| `Rfc822Safety.SafeHeadersAreSafe` | DCS-2210/apps/public/esmtp-0.6.0/rfc822.c:55-185 | a simpler test that is enough: without a final backslash and without a blank right behind a '<' no call leaves the buffer or the header |
| `Rfc822Safety.OpenBracketHeader` | DCS-2210/apps/public/esmtp-0.6.0/rfc822.c:60-72 | with a bracket left open over any text, the trimming loop runs off the front of the buffer exactly when at least one character follows the bracket and all that the buffer can hold of them are blanks; otherwise the held text is returned without its trailing blanks |
| `Rfc822Safety.LongBlanksHideTheRest` | DCS-2210/apps/public/esmtp-0.6.0/rfc822.c:46-72 | more blanks behind the bracket than the buffer holds hide everything behind them, and the trimming loop runs off the front |
| `Rfc822Safety.LongBlanksInstance` | DCS-2210/apps/public/esmtp-0.6.0/rfc822.c:46-72 | 8191 blanks and an x: text that trimming alone would keep |
| `Rfc822Safety.BackslashAtEnd` | DCS-2210/apps/public/esmtp-0.6.0/rfc822.c:73-80 | a final backslash behind any pieces outside brackets makes the scan run past the terminator |

## Left out

- Sockets, select loops, fork and exec, signals, syslog, privilege switching, the clock: received
  packets, what fork returned, child exits and file contents are inputs of the model. Every live child
  has a fresh positive process id and exits once.
- `PacketCriteria` over several PADOs: it accumulates within one wait, so the handshake is stated for a
  single offering server.
- `discovery` retries, timeouts and `printACNames`: special cases without a law of their own.
- PppoePeers.Server.ProcessPadr: a PADS that outgrows its payload is reported as Overflow in place of undefined behaviour; the text of an error PADS is not modelled.
- SessionPool.AnyOrderShuffled: says nothing about how likely an order is.
- SessionPool.Pool.Terminate: following the null interface is reported as NoInterface in place of undefined behaviour, and a run goes on behind it.
- SessionPool.InitialSlots: addresses read from a pool file are not modelled.
- ClampMss.ClampInPlace: when the checksum loop leaves the 1500-byte payload the call is reported as an overread and nothing is promised about the payload after it; what the original does with the memory behind it is not modelled. Reads behind the received length but inside the payload are not reported.
- ClampMss.ClampedPacketVerifies: for an IP header length of at least five words and a segment that holds its checksum field; other packets have no checksum to verify.
- PlumbMd5.Context.Final: the wiping of the context afterwards is not modelled.
- GnuMd5.DigestOf: `md5_stream`, which reads a file in pieces, is not modelled; it adds only I/O.
- PppFraming.AsyncDecoder.AsyncRead: an empty read ends the program and is not modelled.
- MessageStream.Message.Read: the Bcc excision and the header offsets in front of it are not modelled; the stream starts from any valid buffer window.
- RcParser.Parser.YyParse: tokens are the input, the flex scanner is not modelled; a syntax error ends the program, so the error recovery behind it is never reached.
- RcParser.RcfileParse: the search for the configuration file and its permission test are not modelled.
- MiniXml.XmlParser.ParseElt: all four callbacks are taken to be set; the character behind the buffer is a parameter, since some loops look at it before they test for the end.
- XmlShortfalls.IdealExactlyWhenTidy: comments, CDATA sections, document types and character references have no place in the trees; the scanner has no rule for them.
- XmlRoundTrip.DocumentTrace: attributes are quoted, because a bare value swallows the '>' or '/' behind it, as `BareValueNeedsBlank` states.
- Rfc822RoundTrip.HeaderRoundTrip: an address in the open has a plain character, as UnletteredMerges shows it must, and does not end in an escaped blank, which is trimmed at the end of the header only; a second '<' inside brackets is not printed.
- Rfc822Safety.SafeHeadersAreSafe: one direction only, as a simpler test; the exact one is FaultsExactly.
- `ez-ipupdate.c`, `upnpcommands.c`, `miniwget.c`, `smtp.c`, `local.c`: clients over network libraries.
- The synchronous PPP path, the pppd plugin and the relay.
- `dynamic_array.c`, `config_stream.c`, `conf_file.c`, `cache_file.c`: only easy members.
